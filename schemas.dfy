/** Request and response records of the authentication API, and the shape of
    an HTTP outcome: either a response body sent with the route's success
    status, or an HTTPException carrying a status code and an error body. */
module Schemas {

  datatype Option<+T> = None | Some(value: T) {
    /** The carried value, or `default` when there is none. */
    function GetOr(default: T): T {
      match this
      case Some(v) => v
      case None => default
    }
  }

  /** Body of the register request. */
  datatype UserRegister = UserRegister(name: string, email: string, password: string)

  /** Body of the login request. */
  datatype UserLogin = UserLogin(email: string, password: string)

  /** Payload of a successful login. */
  datatype LoginResult = LoginResult(userId: string, name: string, token: string)

  /** The `{error, message}` envelope; also the success body of register. */
  datatype ErrorResponse = ErrorResponse(error: bool, message: string)

  /** Success body of login: the envelope plus the login payload. */
  datatype LoginSuccessResponse = LoginSuccessResponse(error: bool, message: string, loginResult: LoginResult)

  /** An HTTPException: status code and the envelope given as its detail. */
  datatype HttpException = HttpException(statusCode: int, detail: ErrorResponse)

  /** What a route produces: a body with the route's success status, or a raised HTTPException. */
  datatype Reply<T> = Respond(statusCode: int, body: T) | Raised(exception: HttpException) {
    /** The HTTP status code the client sees. */
    function Status(): int {
      match this
      case Respond(s, _) => s
      case Raised(e) => e.statusCode
    }
  }

  const HTTP_200_OK := 200
  const HTTP_201_CREATED := 201
  const HTTP_400_BAD_REQUEST := 400
  const HTTP_404_NOT_FOUND := 404
  const HTTP_500_INTERNAL_SERVER_ERROR := 500

  /** An error envelope raised with the given status. */
  function Failure(status: int, message: string): HttpException
  {
    HttpException(status, ErrorResponse(true, message))
  }
}
