# resrv-chat backend: accounts and chat store in Dafny

This project models the two pieces of stateful decision logic in the resrv-chat backend.

**The account table of the auth router** (`backend/auth.py`):
- `register`, in both its Firebase mode and its local-password mode;
- `login` and the claims of the local token it issues (`create_token`);
- the way `current_user` turns a Firebase identity into a row of the table: found by uid, linked by e-mail, or created;
- how `current_user` routes errors into the local-token fallback.

**The chat router's in-memory store** (`backend/chat.py`):
- the token check `verify_token_simple`;
- `send_message`, `get_chat_history` and `clear_chat_history`;
- the two process-wide dictionaries these work on: `conversation_histories` and `chat_histories`.

The project has four modules:
- `Outcomes` (`outcomes.dfy`): `Option` and `Result`, the causes of refusal, and the HTTP status of each cause.
- `Text` (`text.dfy`): the Python string operations the backend relies on. These are `str.strip()`, `str(int)` and `int(str)`. They cover signs, digit-group underscores, and surrounding whitespace. `strip()` and `int()` each use their own whitespace set: `int()` does not skip U+001C to U+001F.
- `Auth` (`auth.dfy`): the table operations as specification functions over a sequence of rows. The operations that can change the table return a `Step` (the result plus the committed table); the read-only ones (`Login`, `CreateToken`, `LocalFallback`) return their result alone. The class `UserTable` has imperative methods proved equal to those functions. The table invariant `WellFormed` covers dense ids, unique e-mails, and unique non-empty uids, and every operation preserves it.
- `Chat` (`chat.dfy`): the class `ChatStore` holds the two dictionaries as `map` fields. Its invariant `Consistent` says each conversation buffer holds exactly the alternating user/model turns of that user's history. Every mutating method preserves it.

External services are oracles passed in as parameters:
- the request's credential: a `Bearer`, which is a Firebase ID token, a locally signed token, or anything else;
- the Firebase Admin SDK: whether it is configured, and a `FirebaseVerdict` (not configured, rejected, or verified claims) derived from the credential;
- the `jose` decoder: a `JwtVerdict`, derived from the same credential;
- the argon2 hasher: `hash` and `verify` functions;
- the Gemini model: a `Generation`, which either replied with a text or failed;
- `datetime.utcnow()`: integer clock readings.

## Model

| member | source | states |
|---|---|---|
| `Outcomes.Status` | backend/auth.py:80-214 | Each refusal maps to the HTTP status of its raise site. These are the auth router's sites (lines 80-92, 109-112, 137-140, 152-167, 176-194, 212-214) and the chat router's (`backend/chat.py` lines 50-68 and 103). Exactly the configuration failures and the generator failure give 500. Exactly the request faults give 400: taken e-mail or uid, missing or overlong password, missing e-mail, blank message. Every other refusal gives 401. |
| `Text.LeadingSpaces` | backend/chat.py:67 | The length of the longest prefix whose characters are all whitespace in the given sense. |
| `Text.TrailingSpaces` | backend/chat.py:67 | The length of the longest suffix whose characters are all whitespace in the given sense. |
| `Text.StripBy` | backend/chat.py:67 | Stripping for a given whitespace set: the result is empty exactly when every character is whitespace. Otherwise it is the slice from the first non-whitespace character to the last one, with only whitespace before and after it. |
| `Text.Strip` | backend/chat.py:67 | `str.strip()`: the result is empty exactly when every character is Python whitespace. Otherwise it is the contiguous slice of the input from the first non-space character. It ends at a non-space, and everything after it is whitespace. |
| `Text.NatToString` | backend/auth.py:71 | Decimal digits with no leading zero, whose value is the number. |
| `Text.IntToString` | backend/auth.py:71 | `str(n)`: non-empty, and starts with '-' exactly when n is negative. |
| `Text.WithoutUnderscores` | backend/auth.py:156 | No underscore remains. A single underscore becomes empty, and any other single character is kept. A pure digit string is unchanged, and a digit/underscore string leaves only digits. Together with `WithoutUnderscoresConcat`, this pins the result as the input with exactly its underscores dropped, in order. |
| `Text.WithoutUnderscoresConcat` | backend/auth.py:156 | Removing underscores distributes over concatenation. |
| `Text.ParseDigits` | backend/auth.py:156 | Accepts exactly the digit groups `int()` accepts: non-empty, digits at both ends, single underscores between digits. A plain digit string reads as its decimal value. |
| `Text.ParseDigitsIgnoresUnderscores` | backend/auth.py:156 | A digit group has the value of the plain digit string left after dropping its underscores. |
| `Text.ParseSigned` | backend/auth.py:156 | `int()` on stripped text accepts exactly an optional '+' or '-' followed by a digit group. The value is the group's value, negated after '-'. |
| `Text.ParseInt` | backend/auth.py:156 | `int(s)` succeeds exactly when the text is a digit group, optionally preceded by '+' or '-', once stripped of the whitespace `int()` skips (ASCII space and '\t' to '\r', and non-ASCII `isspace()` characters). The value is the group's value, negated after '-'. |
| `Text.StripUnchanged` | backend/chat.py:67 | A string without surrounding whitespace is its own strip. |
| `Text.IntKeepsSeparators` | backend/auth.py:156 | `strip()` removes U+001C from "\x1c5", but `int()` refuses that string. |
| `Text.ParseIntToString` | backend/auth.py:156 | `int(str(n)) == n` for every integer: a token subject reads back as the same id. |
| `Auth.First` | backend/auth.py:115 | `query(...).first()`: the index of the first row matching the filter, or none exactly when no row matches. Every filter used is on a unique column, so at most one row matches (`UniqueMatch`). |
| `Auth.UniqueMatch` | backend/models.py:11-13 | In a table with unique e-mails and uids, the row matching an e-mail or uid is the one `first()` returns. |
| `Auth.RegisterStep` | backend/auth.py:170-205 | The e-mail conflict is checked first, in both modes. A truthy uid selects Firebase mode, which refuses a taken uid and stores no password even if one was sent. Local mode refuses a missing or empty password and one over 72 characters, and otherwise stores the hash with no uid. Success appends exactly the returned row with id n+1; a refusal leaves the table as it was; the table invariant is kept. |
| `Auth.UserTable.Register` | backend/auth.py:170-205 | The imperative register keeps the table invariant. Its result and new table are those of `RegisterStep`. |
| `Auth.CreateToken` | backend/auth.py:68-74 | The subject reads back with `int()` as exactly the user id. The expiry is now plus 60 minutes. |
| `Auth.Login` | backend/auth.py:207-215 | Every refusal is the 401 bad-credentials refusal, and an unknown e-mail is always refused. A token is issued only for a row with that e-mail, a non-empty stored hash and a successful `verify`. The token's subject is that row's id. |
| `Auth.RegisterThenLogin` | backend/auth.py:191-215 | After a successful local register, logging in with the same e-mail and password yields the token for the new id, given a verifier that accepts hash(p) for p. |
| `Auth.PasswordlessCannotLogin` | backend/auth.py:210-212 | A row without a password (a Firebase account), or with an empty one, is refused at login, whatever password is sent. |
| `Auth.LocalPart` | backend/auth.py:106 | `email.split("@")[0]`: a prefix without '@', stopping exactly at the first '@'. |
| `Auth.NameFor` | backend/auth.py:106 | Without a truthy e-mail the name is "User", whatever name the token carries (the conditional binds loosest). With an e-mail, the name is the token's name when it is truthy, and otherwise the part of the e-mail before the first '@'. |
| `Auth.LocalFallback` | backend/auth.py:146-167 | Every refusal in the fallback is a 401. It succeeds exactly when the token decodes, carries a `sub`, `int()` reads that `sub`, and a stored row has that id. The success is that row. |
| `Auth.Provision` | backend/auth.py:114-142 | Find, link or create keeps the table invariant. The returned row always carries the identity's uid. The only refusal is the missing e-mail. The table is either unchanged or grown by exactly the returned row. |
| `Auth.Resolve` | backend/auth.py:94-167 | Errors raised as HTTP errors pass through unchanged: 500 when unconfigured, 401 when rejected or when the uid is missing. A verified uid with a failing lookup gives exactly the local fallback's outcome, with the table unchanged. The invariant is always kept, and at most the returned row is added. |
| `Auth.ResolveKnownUid` | backend/auth.py:114-116 | An identity whose uid is stored resolves to that row, and the table is unchanged. |
| `Auth.ResolveLinksByEmail` | backend/auth.py:118-124 | Linking: an unknown uid whose e-mail belongs to a row returns that row with the uid set. No row is created, and the committed table is unchanged. |
| `Auth.ResolveCreates` | backend/auth.py:125-135 | An unknown uid with an unknown e-mail adds exactly one password-less row, with the computed name. |
| `Auth.ResolveNeedsEmail` | backend/auth.py:136-140 | An unknown uid without an e-mail is refused with 400, and the table is unchanged. |
| `Auth.ResolveIdempotent` | backend/auth.py:114-142 | Resolving a successfully resolved identity again gives the same row and the same table. |
| `Auth.FallbackOnlyOnFault` | backend/auth.py:144-147 | Unless the Firebase branch raised a non-HTTP exception, the local token has no influence on the outcome. |
| `Auth.LoginTokenRefused` | backend/auth.py:94-167 | Logging in with a row's correct password issues the token for that row's id. That token does not authenticate `current_user`: the result is 401 (500 when Firebase is unconfigured), and the table is unchanged. |
| `Auth.FirebaseVerdictOf` | backend/auth.py:76-92 | `verify_firebase_token`: 500 exactly when Firebase is unconfigured. Otherwise the claims are accepted exactly for a Firebase ID token, and every other credential is refused. |
| `Auth.JwtVerdictOf` | backend/auth.py:149 | `jwt.decode` returns claims exactly for a locally signed token, and then its `sub`. |
| `Auth.Authenticate` | backend/auth.py:94-167 | `current_user` on one credential keeps the table invariant. Anything but a Firebase ID token is refused. A failing lookup is always refused, with 401 (500 when unconfigured): the fallback never succeeds. A refusal leaves the table unchanged. A success requires a configured SDK and an ID token with a uid, and returns a row carrying that uid. |
| `Auth.UserTable.CurrentUser` | backend/auth.py:94-167 | The imperative resolution keeps the table invariant. Its result and new table are those of `Authenticate`. |
| `Chat.VerifyTokenSimple` | backend/chat.py:41-56 | Refused exactly when Firebase did not verify the token: 500 when unconfigured, 401 when rejected. Otherwise the result is the uid, or "anonymous" when there is none; there is no local-token fallback. |
| `Chat.Appended` | backend/chat.py:88-94 | Appending to one user's list creates the key if needed, extends that list by exactly the new entries, and leaves every other user's list alone. |
| `Chat.Emptied` | backend/chat.py:130-133 | Emptying keeps the key set. The user's list becomes empty, and every other user's list is unchanged. |
| `Chat.EmptiedIdempotent` | backend/chat.py:130-133 | Clearing twice is clearing once. |
| `Chat.Turns` | backend/chat.py:84-85 | A buffer built from n exchanges has 2n turns. |
| `Chat.TurnsAppend` | backend/chat.py:84-85 | One more exchange extends the buffer by exactly its user turn and its model turn. |
| `Chat.TurnsAlternate` | backend/chat.py:84-85 | Turn 2k is the user turn holding message k. Turn 2k+1 is the model turn holding reply k. |
| `Chat.KeepConsistentOnTouch` | backend/chat.py:72-73 | Creating an empty buffer for a user who has none keeps buffers and histories in step. |
| `Chat.KeepConsistentOnExchange` | backend/chat.py:84-94 | Appending the two turns and the one record of an exchange keeps buffers and histories in step. |
| `Chat.AppendedAfterTouch` | backend/chat.py:72-74 | Creating an absent buffer before appending to it gives the same map as appending directly. |
| `Chat.KeepConsistentOnClear` | backend/chat.py:130-133 | Emptying one user's buffer and history together keeps them in step. |
| `Chat.LastEntries` | backend/chat.py:114 | `s[-limit:]`: the last `limit` entries when 0 < limit <= n, and all entries when limit > n or limit is 0. A negative limit drops the first -limit entries, or all of them. In every case the result is a suffix of the list, of the stated length. |
| `Chat.History` | backend/chat.py:111-123 | An unknown user gets []. Otherwise the items are the user's last records, in stored order, with ids 0..k-1. A positive limit gives min(limit, n) items, and limit 0 gives all n. A negative limit drops the first -limit records, leaving max(0, n + limit). |
| `Chat.DefaultRequest` | backend/chat.py:105-114 | A request with the default limit of 50 returns min(50, n) items. |
| `Chat.LatestLast` | backend/chat.py:114-123 | After an exchange is stored, a history request with a positive limit ends with that exchange. |
| `Chat.Chronological` | backend/chat.py:114-123 | Exchanges A, B, C stored in that order come back as A, B, C with ids 0, 1, 2. |
| `Chat.ChatStore.SendMessage` | backend/chat.py:58-103 | Checks run in order: token check, then generator configured (500), then blank after strip (400); none of these refusals touches the maps. A generator failure gives 500, and its only effect is an empty buffer for a new user. Success appends the untrimmed message and the reply as two turns, and one record to that user only. Buffer/history consistency is kept. |
| `Chat.ChatStore.EnsureBuffer` | backend/chat.py:72-73 | After it the user has a buffer, the existing buffer or a new empty one, and the histories are untouched. Consistency is kept. |
| `Chat.ChatStore.AppendExchange` | backend/chat.py:84-94 | The user's buffer grows by exactly the exchange's two turns, and the user's history by exactly its record. Consistency is kept. |
| `Chat.ChatStore.GetChatHistory` | backend/chat.py:105-123 | Refused exactly when the token check refuses. Otherwise the result is `History` of the caller's records with the given limit. |
| `Chat.ChatStore.ClearChatHistory` | backend/chat.py:125-135 | After the token check, both of the caller's lists are emptied where present. Absent keys and other users are untouched, and consistency is kept. |

## Left out

- Firebase Admin SDK initialisation and `verify_id_token` (`backend/auth.py:24-60`) are not modelled as code. `FirebaseVerdict` is their outcome: `NotConfigured` when `init_firebase()` is false, `Rejected` when verification raises, and otherwise the `uid`, `email` and `name` claims.
- `jose` signing and decoding are not modelled. `CreateToken` gives the claims before signing, and `JwtVerdict` is what decoding produced. A credential is abstracted as a `Bearer`: a Firebase ID token with its claims, a locally signed token with its `sub`, or anything else. An expired token of either kind is in the last group. The model assumes each verifier accepts only its own kind. Firebase verifies only Google-signed RS256 tokens, and `jwt.decode` accepts only the configured algorithm.
- CreateToken: the expiry uses 60 minutes, the default of `ACCESS_TOKEN_EXPIRE_MINUTES` (`backend/auth.py:21`). A value set in the environment is not modelled, and neither are `SECRET_KEY` or `ALGORITHM`.
- Argon2 hashing and verification are the parameters `hash` and `verify`.
- The Gemini client and its conversation object are a `Generation` parameter. So is every exception raised between the buffer creation and the reply in `send_message`.
- `datetime.utcnow()` is not modelled. `send_message` reads the clock twice, once for the record and once for the response, so `SendMessage` takes the two readings `createdAt` and `sentAt` as separate parameters. `CreateToken` works in whole seconds. The ISO formatting of `created_at` in the history is not modelled.
- SQLAlchemy sessions, flush and refresh are not modelled; the table is a sequence of committed rows.
  - The link at `backend/auth.py:123` changes only the session's copy of the row. It is never committed: the session does not autoflush and is closed at the end of the request (`backend/database.py:34`, `backend/database.py:42-49`). So linking returns the row with the new uid and leaves the committed table as it was.
  - Row ids are modelled as `index + 1`, an autoincrement key with no deletions.
  - Database failures other than the one `lookupFails` stands for (see `Auth.Resolve` below) are not modelled.
- `Auth.Resolve`: the boolean `lookupFails` stands for the one way the Firebase branch can raise something other than an HTTP error, namely a database query that fails before anything is committed. This is the only case in which the local token is consulted. `verify_firebase_token` turns every verification failure into an HTTP error, and `current_user` re-raises HTTP errors unchanged (`backend/auth.py:88-92`, `144-145`). As a result, a local token issued by `login` is always refused, and the fallback never succeeds on a credential that reaches it. `FallbackOnlyOnFault`, `Authenticate` and `LoginTokenRefused` state this. A failure after the commit is not modelled: if `db.refresh(user)` fails after `db.commit()` (`backend/auth.py:134-135`), the new row is stored but the request is answered through the fallback. The model never stores a row on the `lookupFails` path.
- `Auth.WellFormed` also requires that no stored uid is the empty string. The modelled operations never store one, but the database itself does not forbid it.
- Pydantic validation of `EmailStr`, column length limits and the response schemas are not modelled. Neither is the text of each error's `detail`: only its cause and status are.
- `Text.ParseInt`: Python's `int()` also accepts non-ASCII Unicode decimal digits; the model accepts only '0'-'9'. Python also refuses more than 4300 digits by default (`sys.int_info.default_max_str_digits`). The model does not enforce that limit and accepts digit strings of any length.
- `Text.ParseDigits`: only ASCII digits are accepted. The default 4300-digit conversion limit is not modelled.
- `Text.ParseSigned`: only ASCII digits are accepted. The default 4300-digit conversion limit is not modelled.
- `Chat.VerifyTokenSimple`: a token whose `uid` claim is present but null would make `dict.get` return `None`. The model treats a null uid like a missing one. Firebase ID tokens always carry a uid.
- Concurrent requests on the shared dictionaries and the per-instance reset of the in-memory store in a serverless deployment are not modelled.
- HTTP routing, CORS, OpenAPI, the `/me` endpoint's serialisation and all frontend code are not modelled.
