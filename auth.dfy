/** The user-account logic of the backend's auth router: registration, password
    login, the local token payload, and the resolution of a verified Firebase
    identity to a row of the user table (with its fallback to the local token).

    The Firebase Admin SDK, the JWT codec and the argon2 hasher are oracles: their
    answers are parameters. The user table is the sequence of committed rows; the
    row with index `i` has id `i + 1`, as an autoincrement key gives them when rows
    are never deleted. */
module Auth {
  import opened Outcomes
  import Text

  /** Minutes until a local token expires (ACCESS_TOKEN_EXPIRE_MINUTES default). */
  const AccessMinutes: int := 60
  /** Longest password (in characters) `register` accepts; the router refuses longer
      ones before hashing. */
  const PasswordLimit: int := 72
  const BearerType: string := "bearer"
  /** Name used when the token carries no e-mail. */
  const DefaultName: string := "User"

  datatype User = User(id: int, name: string, email: string, password: Option<string>, firebaseUid: Option<string>)

  datatype RegisterIn = RegisterIn(name: string, email: string, password: Option<string>, firebaseUid: Option<string>)

  datatype LoginIn = LoginIn(email: string, password: string)

  /** Claims of a local token; `exp` in seconds since the epoch. */
  datatype Payload = Payload(sub: string, exp: int)

  datatype TokenOut = TokenOut(accessToken: Payload, tokenType: string)

  /** What `verify_firebase_token` makes of the bearer credential: the SDK could not
      be initialised, the SDK refused the token, or the token's claims. */
  datatype FirebaseVerdict =
    | NotConfigured
    | Rejected
    | Verified(uid: Option<string>, email: Option<string>, name: Option<string>)

  /** What `jwt.decode` makes of the bearer credential: it raised JWTError, or it
      returned claims with the given `sub`. */
  datatype JwtVerdict = Undecodable | Decoded(sub: Option<string>)

  /** The bearer credential of a request, as far as the two verifiers can tell it
      apart: a Firebase ID token (signed by Google with RS256) and its claims, a
      token this backend signed with its own key and algorithm and its `sub`
      claim, or anything else (expired, forged, malformed). Each verifier accepts
      only its own kind: Firebase refuses a locally signed token, and `jwt.decode`
      with the configured algorithm refuses a Firebase ID token. */
  datatype Bearer =
    | IdToken(uid: Option<string>, email: Option<string>, name: Option<string>)
    | LocalToken(sub: Option<string>)
    | Garbage

  /** `verify_firebase_token` on a credential: 500 when the SDK could not be
      initialised, the claims of an ID token, a refusal for everything else. */
  function FirebaseVerdictOf(configured: bool, b: Bearer): (v: FirebaseVerdict)
    ensures v.NotConfigured? <==> !configured
    ensures v.Verified? <==> configured && b.IdToken?
    ensures v.Verified? ==> v.uid == b.uid && v.email == b.email && v.name == b.name
  {
    if !configured then NotConfigured
    else if b.IdToken? then Verified(b.uid, b.email, b.name)
    else Rejected
  }

  /** `jwt.decode` on a credential: only a locally signed token decodes. */
  function JwtVerdictOf(b: Bearer): (v: JwtVerdict)
    ensures v.Decoded? <==> b.LocalToken?
    ensures v.Decoded? ==> v.sub == b.sub
  {
    if b.LocalToken? then Decoded(b.sub) else Undecodable
  }

  /** The outcome of an operation together with the committed table after it. */
  datatype Step<+T> = Step(result: Result<T>, users: seq<User>)

  /** The column a query filters on. */
  datatype Key = ByEmail(email: string) | ByUid(uid: string) | ById(id: int)

  predicate Matches(u: User, k: Key)
  {
    match k
    case ByEmail(e) => u.email == e
    case ByUid(uid) => u.firebaseUid == Some(uid)
    case ById(id) => u.id == id
  }

  /** `query(User).filter(...).first()`: the index of the first matching row. SQL
      promises no order without `order_by`; "first" is meaningful here because every
      filter the backend uses is on a unique column, where at most one row matches
      (`UniqueMatch`). */
  function First(users: seq<User>, k: Key): (r: Option<nat>)
    ensures r.Some? ==> r.value < |users| && Matches(users[r.value], k)
    ensures r.Some? ==> forall j :: 0 <= j < r.value ==> !Matches(users[j], k)
    ensures r.None? <==> forall j :: 0 <= j < |users| ==> !Matches(users[j], k)
  {
    if users == [] then None
    else if Matches(users[0], k) then Some(0)
    else
      var rest := First(users[1..], k);
      if rest.None? then None else Some(rest.value + 1)
  }

  predicate EmailIn(users: seq<User>, email: string)
  {
    exists i :: 0 <= i < |users| && users[i].email == email
  }

  predicate UidIn(users: seq<User>, uid: string)
  {
    exists i :: 0 <= i < |users| && users[i].firebaseUid == Some(uid)
  }

  /** The table invariant: ids follow insertion order, `email` is unique, a stored
      `firebase_uid` is unique and never the empty string. */
  ghost predicate WellFormed(users: seq<User>)
  {
    && (forall i :: 0 <= i < |users| ==> users[i].id == i + 1)
    && (forall i, j :: 0 <= i < j < |users| ==> users[i].email != users[j].email)
    && (forall i, j :: 0 <= i < j < |users| && users[i].firebaseUid.Some? ==> users[i].firebaseUid != users[j].firebaseUid)
    && (forall i :: 0 <= i < |users| ==> users[i].firebaseUid != Some(""))
  }

  /** In a well-formed table the row a unique key finds is the only one. */
  lemma UniqueMatch(users: seq<User>, k: Key, i: nat)
    requires WellFormed(users) && !k.ById?
    requires i < |users| && Matches(users[i], k)
    ensures First(users, k) == Some(i)
  {
  }

  // ----- register (backend/auth.py:170-205) -----

  /** `register`: the outcome and the table after it. */
  function RegisterStep(users: seq<User>, body: RegisterIn, hash: string -> string): (s: Step<User>)
    // the e-mail check comes first, whichever mode the body selects
    ensures EmailIn(users, body.email) ==> s.result == Err(EmailTaken)
    // Firebase mode: rejected only for a taken uid; no password is stored, whatever was sent
    ensures !EmailIn(users, body.email) && Truthy(body.firebaseUid) ==>
      if UidIn(users, body.firebaseUid.value) then s.result == Err(UidTaken)
      else s.result.Ok? && s.result.value.password == None && s.result.value.firebaseUid == body.firebaseUid
    // local mode: a password is required and at most 72 characters long; its hash is stored
    ensures !EmailIn(users, body.email) && !Truthy(body.firebaseUid) ==>
      if !Truthy(body.password) then s.result == Err(PasswordRequired)
      else if |body.password.value| > PasswordLimit then s.result == Err(PasswordTooLong)
      else s.result.Ok? && s.result.value.password == Some(hash(body.password.value)) && s.result.value.firebaseUid == None
    // success adds exactly one row, the returned one; a refusal changes nothing
    ensures s.result.Ok? ==> s.users == users + [s.result.value]
    ensures s.result.Ok? ==> s.result.value.id == |users| + 1 && s.result.value.name == body.name && s.result.value.email == body.email
    ensures s.result.Err? ==> s.users == users
    ensures WellFormed(users) ==> WellFormed(s.users)
  {
    if First(users, ByEmail(body.email)).Some? then Step(Err(EmailTaken), users)
    else if Truthy(body.firebaseUid) then
      if First(users, ByUid(body.firebaseUid.value)).Some? then Step(Err(UidTaken), users)
      else
        var user := User(|users| + 1, body.name, body.email, None, body.firebaseUid);
        Step(Ok(user), users + [user])
    else if !Truthy(body.password) then Step(Err(PasswordRequired), users)
    else if |body.password.value| > PasswordLimit then Step(Err(PasswordTooLong), users)
    else
      var user := User(|users| + 1, body.name, body.email, Some(hash(body.password.value)), None);
      Step(Ok(user), users + [user])
  }

  // ----- local tokens and login (backend/auth.py:68-74, 207-215) -----

  /** `create_token`: the claims of the token, before signing. */
  function CreateToken(sub: int, now: int): (p: Payload)
    ensures Text.ParseInt(p.sub) == Some(sub)
    ensures p.exp == now + AccessMinutes * 60
  {
    Text.ParseIntToString(sub);
    Payload(Text.IntToString(sub), now + AccessMinutes * 60)
  }

  /** `login`; `verify` is the password hasher's check, `now` the clock. */
  function Login(users: seq<User>, body: LoginIn, verify: (string, string) -> bool, now: int): (r: Result<TokenOut>)
    ensures r.Err? ==> r.reason == BadCredentials
    ensures r.Ok? ==> exists i :: (0 <= i < |users| && users[i].email == body.email
                                   && Truthy(users[i].password) && verify(body.password, users[i].password.value)
                                   && r.value == TokenOut(CreateToken(users[i].id, now), BearerType))
    ensures !EmailIn(users, body.email) ==> r.Err?
  {
    var found := First(users, ByEmail(body.email));
    if found.None? || !Truthy(users[found.value].password) then Err(BadCredentials)
    else
      var user := users[found.value];
      if !verify(body.password, user.password.value) then Err(BadCredentials)
      else Ok(TokenOut(CreateToken(user.id, now), BearerType))
  }

  /** A password registered locally logs in: `login` after a successful local
      `register` with the same password issues a token whose subject is the new id. */
  lemma RegisterThenLogin(users: seq<User>, body: RegisterIn, hash: string -> string,
                          verify: (string, string) -> bool, now: int)
    requires WellFormed(users)
    requires !Truthy(body.firebaseUid) && RegisterStep(users, body, hash).result.Ok?
    requires verify(body.password.value, hash(body.password.value)) && hash(body.password.value) != ""
    ensures var s := RegisterStep(users, body, hash);
      Login(s.users, LoginIn(body.email, body.password.value), verify, now)
        == Ok(TokenOut(CreateToken(|users| + 1, now), BearerType))
  {
    var s := RegisterStep(users, body, hash);
    UniqueMatch(s.users, ByEmail(body.email), |users|);
  }

  /** An account without a password (created through Firebase), or with an empty
      one, never logs in. */
  lemma PasswordlessCannotLogin(users: seq<User>, i: nat, password: string,
                                verify: (string, string) -> bool, now: int)
    requires WellFormed(users) && i < |users| && !Truthy(users[i].password)
    ensures Login(users, LoginIn(users[i].email, password), verify, now) == Err(BadCredentials)
  {
    UniqueMatch(users, ByEmail(users[i].email), i);
  }

  // ----- resolution of a Firebase identity (backend/auth.py:94-167) -----

  /** Prefix of `email` before the first '@', i.e. `email.split("@")[0]`. */
  function LocalPart(email: string): (r: string)
    ensures r <= email && '@' !in r
    ensures |r| < |email| ==> email[|r|] == '@'
  {
    if email == [] || email[0] == '@' then [] else [email[0]] + LocalPart(email[1..])
  }

  /** The display name `current_user` computes. As Python parses the expression,
      the conditional binds loosest: `(name or local part) if email else "User"`. */
  function NameFor(email: Option<string>, name: Option<string>): (n: string)
    ensures !Truthy(email) ==> n == DefaultName
    ensures Truthy(email) && Truthy(name) ==> n == name.value
    ensures Truthy(email) && !Truthy(name) ==> n == LocalPart(email.value)
  {
    if !Truthy(email) then DefaultName
    else if Truthy(name) then name.value
    else LocalPart(email.value)
  }

  /** The local-token fallback: decode, read `sub`, `int(sub)`, fetch the row. */
  function LocalFallback(users: seq<User>, jwt: JwtVerdict): (r: Result<User>)
    ensures r.Err? ==> Status(r.reason) == 401
    ensures r.Ok? ==> jwt.Decoded? && jwt.sub.Some? && Text.ParseInt(jwt.sub.value) == Some(r.value.id)
    ensures r.Ok? ==> exists i :: 0 <= i < |users| && users[i] == r.value
    // a decodable token whose `int(sub)` names a stored row yields that row
    ensures r.Ok? <==> jwt.Decoded? && jwt.sub.Some? && Text.ParseInt(jwt.sub.value).Some?
                       && exists i :: 0 <= i < |users| && users[i].id == Text.ParseInt(jwt.sub.value).value
  {
    match jwt
    case Undecodable => Err(TokenInvalid)
    case Decoded(sub) =>
      if sub.None? then Err(Unauthorized)
      else
        match Text.ParseInt(sub.value)
        case None => Err(TokenInvalid)
        case Some(id) =>
          var found := First(users, ById(id));
          if found.None? then Err(Unauthorized) else Ok(users[found.value])
  }

  /** Find, link or create the row of a verified identity with a non-empty uid.
      A link is made on the session's copy of the row only: the request commits
      nothing afterwards, so the committed table keeps the row as it was. */
  function Provision(users: seq<User>, uid: string, email: Option<string>, name: Option<string>): (s: Step<User>)
    requires WellFormed(users) && uid != ""
    ensures WellFormed(s.users)
    ensures s.result.Ok? ==> s.result.value.firebaseUid == Some(uid)
    ensures s.result.Ok? ==> 0 < s.result.value.id <= |s.users|
    ensures s.result.Err? ==> s.result.reason == EmailMissing && s.users == users
    ensures s.users == users || (s.result.Ok? && s.users == users + [s.result.value])
  {
    var byUid := First(users, ByUid(uid));
    if byUid.Some? then Step(Ok(users[byUid.value]), users)
    else if !Truthy(email) then Step(Err(EmailMissing), users)
    else
      var byEmail := First(users, ByEmail(email.value));
      if byEmail.Some? then
        Step(Ok(users[byEmail.value].(firebaseUid := Some(uid))), users)
      else
        var user := User(|users| + 1, NameFor(email, name), email.value, None, Some(uid));
        Step(Ok(user), users + [user])
  }

  /** `current_user`: `lookupFails` says that the Firebase branch raised an
      exception that is not an HTTPException (a failing table query), the one
      case in which the local token is consulted. */
  function Resolve(users: seq<User>, fb: FirebaseVerdict, lookupFails: bool, jwt: JwtVerdict): (s: Step<User>)
    requires WellFormed(users)
    ensures WellFormed(s.users)
    ensures s.users == users || (s.result.Ok? && s.users == users + [s.result.value])
    ensures fb.NotConfigured? ==> s.result == Err(FirebaseUnconfigured)
    ensures fb.Rejected? ==> s.result == Err(FirebaseRejected)
    ensures fb.Verified? && !Truthy(fb.uid) ==> s.result == Err(FirebaseTokenInvalid)
    // the fallback runs exactly on a failing lookup, and commits nothing
    ensures fb.Verified? && Truthy(fb.uid) && lookupFails ==> s == Step(LocalFallback(users, jwt), users)
  {
    match fb
    case NotConfigured => Step(Err(FirebaseUnconfigured), users)
    case Rejected => Step(Err(FirebaseRejected), users)
    case Verified(uid, email, name) =>
      if !Truthy(uid) then Step(Err(FirebaseTokenInvalid), users)
      else if lookupFails then Step(LocalFallback(users, jwt), users)
      else Provision(users, uid.value, email, name)
  }

  /** An identity whose uid is already stored resolves to that row, unchanged. */
  lemma ResolveKnownUid(users: seq<User>, uid: string, email: Option<string>, name: Option<string>, jwt: JwtVerdict, i: nat)
    requires WellFormed(users) && i < |users| && users[i].firebaseUid == Some(uid)
    ensures Resolve(users, Verified(Some(uid), email, name), false, jwt) == Step(Ok(users[i]), users)
  {
    UniqueMatch(users, ByUid(uid), i);
  }

  /** Account linking: an unknown uid whose e-mail belongs to row `i` resolves to
      that row with the uid set; no row is created. */
  lemma ResolveLinksByEmail(users: seq<User>, uid: string, email: string, name: Option<string>, jwt: JwtVerdict, i: nat)
    requires WellFormed(users) && uid != "" && email != "" && !UidIn(users, uid)
    requires i < |users| && users[i].email == email
    ensures Resolve(users, Verified(Some(uid), Some(email), name), false, jwt)
      == Step(Ok(users[i].(firebaseUid := Some(uid))), users)
  {
    UniqueMatch(users, ByEmail(email), i);
  }

  /** An unknown uid with an unknown e-mail creates exactly one row, without password. */
  lemma ResolveCreates(users: seq<User>, uid: string, email: string, name: Option<string>, jwt: JwtVerdict)
    requires WellFormed(users) && uid != "" && email != ""
    requires !UidIn(users, uid) && !EmailIn(users, email)
    ensures var user := User(|users| + 1, NameFor(Some(email), name), email, None, Some(uid));
      Resolve(users, Verified(Some(uid), Some(email), name), false, jwt) == Step(Ok(user), users + [user])
  {
  }

  /** An unknown uid without an e-mail is a bad request. */
  lemma ResolveNeedsEmail(users: seq<User>, uid: string, email: Option<string>, name: Option<string>, jwt: JwtVerdict)
    requires WellFormed(users) && uid != "" && !UidIn(users, uid) && !Truthy(email)
    ensures Resolve(users, Verified(Some(uid), email, name), false, jwt) == Step(Err(EmailMissing), users)
  {
  }

  /** Resolving the same identity again returns the same account and changes
      nothing more: the first call either found, linked or created it. */
  lemma {:induction false} ResolveIdempotent(users: seq<User>, fb: FirebaseVerdict, jwt: JwtVerdict)
    requires WellFormed(users)
    requires Resolve(users, fb, false, jwt).result.Ok?
    ensures var s := Resolve(users, fb, false, jwt);
      Resolve(s.users, fb, false, jwt) == s
  {
    var s := Resolve(users, fb, false, jwt);
    var uid := fb.uid.value;
    var byUid := First(users, ByUid(uid));
    if byUid.Some? {
      ResolveKnownUid(users, uid, fb.email, fb.name, jwt, byUid.value);
    } else {
      var byEmail := First(users, ByEmail(fb.email.value));
      if byEmail.Some? {
        ResolveLinksByEmail(users, uid, fb.email.value, fb.name, jwt, byEmail.value);
      } else {
        ResolveKnownUid(s.users, uid, fb.email, fb.name, jwt, |users|);
      }
    }
  }

  /** The local token is consulted only when the Firebase branch raised a non-HTTP
      exception: in every other case the outcome does not depend on it. Since that
      path needs a verified Firebase ID token, which `jwt.decode` refuses, a token
      issued by `login` is always refused (`LoginTokenRefused`). */
  lemma FallbackOnlyOnFault(users: seq<User>, fb: FirebaseVerdict, lookupFails: bool, jwt1: JwtVerdict, jwt2: JwtVerdict)
    requires WellFormed(users)
    requires !(fb.Verified? && Truthy(fb.uid) && lookupFails)
    ensures Resolve(users, fb, lookupFails, jwt1) == Resolve(users, fb, lookupFails, jwt2)
  {
  }

  /** `current_user` on one credential: both verifiers judge the same bearer. The
      local-token fallback then never succeeds: it runs only after the Firebase
      branch accepted an ID token, which `jwt.decode` refuses. A token issued by
      `login` therefore never authenticates. */
  function Authenticate(users: seq<User>, configured: bool, b: Bearer, lookupFails: bool): (s: Step<User>)
    requires WellFormed(users)
    ensures WellFormed(s.users)
    ensures s.users == users || (s.result.Ok? && s.users == users + [s.result.value])
    ensures !b.IdToken? ==> s.result.Err? && s.users == users
    ensures lookupFails ==> s.result.Err? && s.users == users
    ensures lookupFails ==> Status(s.result.reason) == if configured then 401 else 500
    ensures s.result.Err? ==> s.users == users
    ensures s.result.Ok? ==> configured && b.IdToken? && Truthy(b.uid) && s.result.value.firebaseUid == b.uid
  {
    Resolve(users, FirebaseVerdictOf(configured, b), lookupFails, JwtVerdictOf(b))
  }

  /** A login issues a token, but that token does not authenticate `current_user`:
      the request is refused with 500 (Firebase unconfigured) or 401, and the
      table is unchanged. */
  lemma LoginTokenRefused(users: seq<User>, i: nat, password: string, verify: (string, string) -> bool,
                          now: int, configured: bool, lookupFails: bool)
    requires WellFormed(users) && i < |users|
    requires Truthy(users[i].password) && verify(password, users[i].password.value)
    ensures var r := Login(users, LoginIn(users[i].email, password), verify, now);
      && r == Ok(TokenOut(CreateToken(users[i].id, now), BearerType))
      && var s := Authenticate(users, configured, LocalToken(Some(r.value.accessToken.sub)), lookupFails);
         s.users == users && s.result == Err(if configured then FirebaseRejected else FirebaseUnconfigured)
  {
    UniqueMatch(users, ByEmail(users[i].email), i);
  }

  /** The user table as the backend mutates it. */
  class UserTable {
    var users: seq<User>

    ghost predicate Valid()
      reads this
    {
      WellFormed(users)
    }

    constructor ()
      ensures Valid() && users == []
    {
      users := [];
    }

    /** `register`: the checks in the source's order, then `db.add` and commit. */
    method Register(body: RegisterIn, hash: string -> string) returns (r: Result<User>)
      requires Valid()
      modifies this
      ensures Valid()
      ensures r == RegisterStep(old(users), body, hash).result
      ensures users == RegisterStep(old(users), body, hash).users
    {
      if First(users, ByEmail(body.email)).Some? {
        return Err(EmailTaken);
      }
      var user: User;
      if Truthy(body.firebaseUid) {
        if First(users, ByUid(body.firebaseUid.value)).Some? {
          return Err(UidTaken);
        }
        user := User(|users| + 1, body.name, body.email, None, body.firebaseUid);
      } else {
        if !Truthy(body.password) {
          return Err(PasswordRequired);
        }
        if |body.password.value| > PasswordLimit {
          return Err(PasswordTooLong);
        }
        user := User(|users| + 1, body.name, body.email, Some(hash(body.password.value)), None);
      }
      users := users + [user];
      r := Ok(user);
    }

    /** `current_user`: the Firebase verdict on the credential, then find, link or
        create; the local token only after a failing lookup. */
    method CurrentUser(configured: bool, bearer: Bearer, lookupFails: bool) returns (r: Result<User>)
      requires Valid()
      modifies this
      ensures Valid()
      ensures r == Authenticate(old(users), configured, bearer, lookupFails).result
      ensures users == Authenticate(old(users), configured, bearer, lookupFails).users
    {
      var fb := FirebaseVerdictOf(configured, bearer);
      if fb.NotConfigured? {
        return Err(FirebaseUnconfigured);
      }
      if fb.Rejected? {
        return Err(FirebaseRejected);
      }
      var uid := fb.uid;
      if !Truthy(uid) {
        return Err(FirebaseTokenInvalid);
      }
      if lookupFails {
        return LocalFallback(users, JwtVerdictOf(bearer));
      }
      var byUid := First(users, ByUid(uid.value));
      if byUid.Some? {
        return Ok(users[byUid.value]);
      }
      if !Truthy(fb.email) {
        return Err(EmailMissing);
      }
      var byEmail := First(users, ByEmail(fb.email.value));
      if byEmail.Some? {
        var linked := users[byEmail.value];
        linked := linked.(firebaseUid := uid);
        return Ok(linked);
      }
      var user := User(|users| + 1, NameFor(fb.email, fb.name), fb.email.value, None, uid);
      users := users + [user];
      r := Ok(user);
    }
  }
}
