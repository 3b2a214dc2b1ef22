/** `AuthService`: registration and login against the identity provider.
    The provider's user directory is a map from email to the user record;
    what the provider does beyond reading and extending that map (choosing
    the new uid, failing for its own reasons, minting a custom token) is
    given to each operation as a parameter. */
module AuthService {
  import opened Schemas
  import opened PyLib

  /** The part of a provider user record the service reads. */
  datatype UserRecord = UserRecord(uid: string, displayName: Option<string>)

  /** The provider's users, keyed by email. */
  type Directory = map<string, UserRecord>

  /** How one provider call ends: it returns a value, or raises an error
      whose `str()` is `text`. */
  datatype Outcome<T> = Returns(value: T) | Throws(text: string)

  /** How `auth.get_user_by_email` ends. */
  datatype Lookup = Found(record: UserRecord) | UserNotFoundError | LookupError(text: string)

  /** What reaches the outer `except Exception` of `register_user`. */
  datatype Thrown = HttpThrown(exception: HttpException) | ErrorThrown(text: string)

  const DuplicateMessage := "Email already registered"
  const CreatedMessage := "User Created"
  const NotFoundMessage := "User not found"
  const LoginMessage := "success"
  const UserIdPrefix := "user-"

  /** `auth.get_user_by_email(email)`: the record when the email is known,
      `UserNotFoundError` otherwise, unless the provider fails with `fault`. */
  function GetUserByEmail(users: Directory, email: string, fault: Option<string>): (r: Lookup)
    ensures r.Found? <==> fault.None? && email in users
    ensures r.Found? ==> r.record == users[email]
    ensures r.UserNotFoundError? <==> fault.None? && email !in users
    ensures r.LookupError? ==> fault == Some(r.text)
  {
    match fault
    case Some(text) => LookupError(text)
    case None => if email in users then Found(users[email]) else UserNotFoundError
  }

  /** The outer handler of `register_user`: an HTTPException is raised again
      as it is; any other error becomes a 500 whose message is its text. */
  function RegisterErrorHandler(e: Thrown): (r: HttpException)
    ensures e.HttpThrown? ==> r == e.exception
    ensures e.ErrorThrown? ==> r.statusCode == HTTP_500_INTERNAL_SERVER_ERROR && r.detail == ErrorResponse(true, e.text)
  {
    match e
    case HttpThrown(x) => x
    case ErrorThrown(text) => Failure(HTTP_500_INTERNAL_SERVER_ERROR, text)
  }

  /** Result of one registration: the reply and the directory afterwards. */
  datatype RegisterStep = RegisterStep(reply: Reply<ErrorResponse>, users: Directory)

  /** `register_user`: look the email up, refuse a known one, otherwise
      create the account. `lookupFault` is an error of the lookup other than
      "user not found"; `creation` is how `auth.create_user` ends (the new
      uid, or an error). */
  function Register(users: Directory, user: UserRegister, lookupFault: Option<string>, creation: Outcome<string>): (s: RegisterStep)
    // a known email: 400, nothing created
    ensures lookupFault.None? && user.email in users ==>
      s.reply == Raised(Failure(HTTP_400_BAD_REQUEST, DuplicateMessage)) && s.users == users
    // success exactly when the email is new and both provider calls succeed
    ensures s.reply.Respond? <==> lookupFault.None? && user.email !in users && creation.Returns?
    ensures s.reply.Respond? ==>
      && s.reply == Respond(HTTP_201_CREATED, ErrorResponse(false, CreatedMessage))
      && s.users.Keys == users.Keys + {user.email}
      && s.users[user.email] == UserRecord(creation.value, Some(user.name))
      && forall e :: e in users ==> s.users[e] == users[e]
    // every failure leaves the directory as it was and carries an error envelope
    ensures s.reply.Raised? ==> s.users == users && s.reply.exception.detail.error
    // provider errors become 500 with the error's text
    ensures lookupFault.Some? ==>
      s.reply == Raised(Failure(HTTP_500_INTERNAL_SERVER_ERROR, lookupFault.value))
    ensures lookupFault.None? && user.email !in users && creation.Throws? ==>
      s.reply == Raised(Failure(HTTP_500_INTERNAL_SERVER_ERROR, creation.text))
  {
    match GetUserByEmail(users, user.email, lookupFault)
    case Found(_) =>
      RegisterStep(Raised(RegisterErrorHandler(HttpThrown(Failure(HTTP_400_BAD_REQUEST, DuplicateMessage)))), users)
    case LookupError(text) =>
      RegisterStep(Raised(RegisterErrorHandler(ErrorThrown(text))), users)
    case UserNotFoundError =>
      match creation
      case Throws(text) =>
        RegisterStep(Raised(RegisterErrorHandler(ErrorThrown(text))), users)
      case Returns(uid) =>
        RegisterStep(Respond(HTTP_201_CREATED, ErrorResponse(false, CreatedMessage)),
                     users[user.email := UserRecord(uid, Some(user.name))])
  }

  /** The externally visible user id: "user-" and the first ten characters
      of the provider uid (all of it when it is shorter). */
  function UserId(uid: string): (r: string)
    ensures |r| == |UserIdPrefix| + Min(10, |uid|)
    ensures r[..|UserIdPrefix|] == UserIdPrefix
    ensures r[|UserIdPrefix|..] <= uid
    ensures |uid| >= 10 ==> r[|UserIdPrefix|..] == uid[..10]
    ensures |uid| < 10 ==> r[|UserIdPrefix|..] == uid
  {
    UserIdPrefix + Head(uid, 10)
  }

  /** `login_user`: look the email up and answer with the derived user id,
      the display name ("" when absent) and a custom token. The password is
      not an argument of any provider call. `minting` is how
      `auth.create_custom_token` ends. */
  function LoginUser(users: Directory, user: UserLogin, lookupFault: Option<string>, minting: Outcome<string>): (r: Reply<LoginSuccessResponse>)
    ensures r.Respond? <==> lookupFault.None? && user.email in users && minting.Returns?
    ensures r.Respond? ==>
      && r.statusCode == HTTP_200_OK
      && !r.body.error && r.body.message == LoginMessage
      && r.body.loginResult.userId == UserId(users[user.email].uid)
      && r.body.loginResult.name == users[user.email].displayName.GetOr("")
      && r.body.loginResult.token == minting.value
    ensures lookupFault.None? && user.email !in users ==>
      r == Raised(Failure(HTTP_404_NOT_FOUND, NotFoundMessage))
    ensures lookupFault.Some? ==>
      r == Raised(Failure(HTTP_500_INTERNAL_SERVER_ERROR, lookupFault.value))
    ensures lookupFault.None? && user.email in users && minting.Throws? ==>
      r == Raised(Failure(HTTP_500_INTERNAL_SERVER_ERROR, minting.text))
  {
    match GetUserByEmail(users, user.email, lookupFault)
    case UserNotFoundError => Raised(Failure(HTTP_404_NOT_FOUND, NotFoundMessage))
    case LookupError(text) => Raised(Failure(HTTP_500_INTERNAL_SERVER_ERROR, text))
    case Found(record) =>
      match minting
      case Throws(text) => Raised(Failure(HTTP_500_INTERNAL_SERVER_ERROR, text))
      case Returns(token) =>
        var result := LoginResult(UserId(record.uid), record.displayName.GetOr(""), token);
        Respond(HTTP_200_OK, LoginSuccessResponse(false, LoginMessage, result))
  }

  /** After a successful registration, registering the same email again is
      refused with the duplicate-email 400 and creates nothing. */
  lemma RegisterTwiceIsDuplicate(users: Directory, first: UserRegister, second: UserRegister,
                                 creation: Outcome<string>, again: Outcome<string>)
    requires second.email == first.email
    requires Register(users, first, None, creation).reply.Respond?
    ensures var after := Register(users, first, None, creation).users;
      && Register(after, second, None, again).reply == Raised(Failure(HTTP_400_BAD_REQUEST, DuplicateMessage))
      && Register(after, second, None, again).users == after
  {
  }

  /** After a successful registration, logging in with that email answers
      with the new uid's user id and the registered name, whatever password
      is given. */
  lemma RegisterThenLogin(users: Directory, user: UserRegister, uid: string, password: string, token: string)
    requires user.email !in users
    ensures var after := Register(users, user, None, Returns(uid)).users;
      LoginUser(after, UserLogin(user.email, password), None, Returns(token))
        == Respond(HTTP_200_OK, LoginSuccessResponse(false, LoginMessage, LoginResult(UserId(uid), user.name, token)))
  {
  }

  /** The password never changes the outcome of a login. */
  lemma LoginIgnoresPassword(users: Directory, email: string, p1: string, p2: string,
                             lookupFault: Option<string>, minting: Outcome<string>)
    ensures LoginUser(users, UserLogin(email, p1), lookupFault, minting)
         == LoginUser(users, UserLogin(email, p2), lookupFault, minting)
  {
  }

  /** The state the service acts on: the identity provider's directory. */
  class AuthService {
    var users: Directory

    constructor(users: Directory)
      ensures this.users == users
    {
      this.users := users;
    }

    /** `register_user` against the directory held here. */
    method RegisterUser(user: UserRegister, lookupFault: Option<string>, creation: Outcome<string>)
      returns (r: Reply<ErrorResponse>)
      modifies this
      ensures r == Register(old(users), user, lookupFault, creation).reply
      ensures users == Register(old(users), user, lookupFault, creation).users
      ensures lookupFault.None? && user.email in old(users) ==> users == old(users)
    {
      var lookup := GetUserByEmail(users, user.email, lookupFault);
      match lookup {
        case Found(_) =>
          r := Raised(RegisterErrorHandler(HttpThrown(Failure(HTTP_400_BAD_REQUEST, DuplicateMessage))));
        case LookupError(text) =>
          r := Raised(RegisterErrorHandler(ErrorThrown(text)));
        case UserNotFoundError =>
          match creation {
            case Throws(text) =>
              r := Raised(RegisterErrorHandler(ErrorThrown(text)));
            case Returns(uid) =>
              users := users[user.email := UserRecord(uid, Some(user.name))];
              r := Respond(HTTP_201_CREATED, ErrorResponse(false, CreatedMessage));
          }
      }
    }
  }
}
