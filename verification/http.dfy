/** What every route shares: the caller's identity as a signed token carries it,
    the runtime services a handler draws on, and the response it sends. */
module Http {
  import opened Wrappers

  /** Request headers, by lower-case name (Node lower-cases incoming header names). */
  type Headers = map<string, string>

  /** The only header the token is read from. */
  const AuthHeader: string := "x-auth-token"

  const AdminRole: string := "admin"
  const StaffRole: string := "staff"
  const StudentRole: string := "student"

  /** The `user` object a token carries and the guards read as `req.user`. */
  datatype User = User(id: string, name: string, role: string)

  /** A token's decoded payload: the user (a token need not carry one), the
      issue time and the optional expiry, both in whole seconds. */
  datatype Claims = Claims(user: Option<User>, iat: nat, exp: Option<nat>)

  /** The runtime and library services a handler uses, passed in rather than
      called: signature check of a token, the email syntax check, the clock
      (milliseconds), the next document id and the salt the hash draws. */
  datatype Env = Env(
    verify: string -> Option<Claims>,
    isEmail: string -> bool,
    now: nat,
    freshId: string,
    salt: nat)

  /** Every way a request can be refused. */
  datatype Failure =
    | NoToken             // no token in the header
    | BadToken            // signature check failed or token expired
    | AdminOnly           // admin guard
    | StaffOnly           // staff guard
    | Invalid             // a field validator rejected the body
    | ImageRequired       // complaint without an uploaded file
    | StaffIdRequired     // assignment without a staff id
    | InvalidCredentials  // any login failure
    | EmailTaken          // duplicate email on registration or staff creation
    | NotFound            // the addressed document does not exist
    | NotOwner            // staff acting on a complaint assigned to someone else
    | UploadTooLarge      // the upload limit tripped before the handler ran
    | ServerError         // an exception caught by the handler (or by Express)

  /** The HTTP status each refusal is sent with. */
  function StatusOf(f: Failure): (code: int)
    ensures code == 400 <==> f.Invalid? || f.ImageRequired? || f.StaffIdRequired? || f.InvalidCredentials? || f.EmailTaken?
    ensures code == 401 <==> f.NoToken? || f.BadToken? || f.NotOwner?
    ensures code == 403 <==> f.AdminOnly? || f.StaffOnly?
    ensures code == 404 <==> f.NotFound?
    ensures code == 500 <==> f.UploadTooLarge? || f.ServerError?
  {
    match f
    case NoToken => 401
    case BadToken => 401
    case AdminOnly => 403
    case StaffOnly => 403
    case Invalid => 400
    case ImageRequired => 400
    case StaffIdRequired => 400
    case InvalidCredentials => 400
    case EmailTaken => 400
    case NotFound => 404
    case NotOwner => 401
    case UploadTooLarge => 500
    case ServerError => 500
  }

  /** A response: a body with its status code, or a refusal. */
  datatype Response<+T> = Sent(code: int, body: T) | Rejected(failure: Failure) {

    function Code(): int
    {
      match this
      case Sent(c, _) => c
      case Rejected(f) => StatusOf(f)
    }
  }
}
