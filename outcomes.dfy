/** Optional values, the causes for which the backend refuses a request, and the
    tagged result every modelled operation returns instead of raising. */
module Outcomes {

  datatype Option<+T> = None | Some(value: T)

  /** Python truthiness of an optional string: present and not empty. */
  predicate Truthy(o: Option<string>)
  {
    o.Some? && o.value != ""
  }

  /** Each cause the backend raises an HTTPException for. */
  datatype Reason =
    | EmailTaken             // register: e-mail already registered
    | UidTaken               // register: Firebase UID already registered
    | PasswordRequired       // register: local mode without a password
    | PasswordTooLong        // register: local password longer than 72 characters
    | BadCredentials         // login: unknown e-mail, no password, or wrong password
    | FirebaseUnconfigured   // Firebase Admin SDK could not be initialised
    | FirebaseRejected       // Firebase refused the ID token
    | FirebaseTokenInvalid   // verified token without a uid
    | EmailMissing           // verified token without e-mail and no linked account
    | Unauthorized           // local token without subject, or subject names no user
    | TokenInvalid           // local token undecodable, or subject not an integer
    | GeneratorUnconfigured  // no Gemini API key
    | EmptyMessage           // chat message blank after strip()
    | GenerationFailed       // Gemini call raised

  /** The HTTP status code the backend answers with for each cause. */
  function Status(r: Reason): (code: int)
    ensures code in {400, 401, 500}
    ensures code == 500 <==> r in {FirebaseUnconfigured, GeneratorUnconfigured, GenerationFailed}
    ensures code == 400 <==> r in {EmailTaken, UidTaken, PasswordRequired, PasswordTooLong, EmailMissing, EmptyMessage}
  {
    match r
    case EmailTaken => 400
    case UidTaken => 400
    case PasswordRequired => 400
    case PasswordTooLong => 400
    case EmailMissing => 400
    case EmptyMessage => 400
    case BadCredentials => 401
    case FirebaseRejected => 401
    case FirebaseTokenInvalid => 401
    case Unauthorized => 401
    case TokenInvalid => 401
    case FirebaseUnconfigured => 500
    case GeneratorUnconfigured => 500
    case GenerationFailed => 500
  }

  datatype Result<+T> = Ok(value: T) | Err(reason: Reason)
}
