/** The domain-error contract shared by the authentication service and the
    gateway: a closed set of codes and the ServiceError record that an
    RpcException carries across the RPC boundary. */
module Errors {
  import opened JsValues

  datatype ErrorCode = UserEmailExists | InvalidCredentials

  /** The string each code travels as. */
  function CodeName(c: ErrorCode): string
  {
    match c
    case UserEmailExists => "USER_EMAIL_EXISTS"
    case InvalidCredentials => "INVALID_CREDENTIALS"
  }

  datatype ServiceError = ServiceError(code: ErrorCode, message: string)

  /** Raised by registration, by the pre-check and by the duplicate-key mapping alike. */
  const EmailExistsError := ServiceError(UserEmailExists, "Email already exists")

  /** Raised by login, for an unknown email and for a wrong password alike. */
  const InvalidCredentialsError := ServiceError(InvalidCredentials, "Invalid credentials")

  /** The plain object an RpcException carrying `e` reaches the gateway as. */
  function ToWire(e: ServiceError): JsValue
  {
    Obj(map["code" := Str(CodeName(e.code)), "message" := Str(e.message)])
  }
}
