/** The parts of an Express request and response the handlers touch. */
module Http {
  import opened Wrappers
  import opened Users

  /** The process environment; only `NODE_ENV` is consulted. */
  datatype Env = Env(nodeEnv: Option<string>)

  predicate IsProduction(env: Env) {
    env.nodeEnv == Some("production")
  }

  /** JavaScript `!x` on a string-valued request field: true for a missing key or `""`. */
  predicate Falsy(field: Option<string>) {
    field.None? || field.value == ""
  }

  /** The name of the session cookie. */
  const SessionCookie := "jwt"

  /** Cookie options as Express takes them; `maxAge` in milliseconds. */
  datatype CookieOptions = CookieOptions(maxAge: Option<nat>, httpOnly: bool, sameSite: string, secure: bool)

  /** What a handler did to the response's cookies. */
  datatype CookieOp =
    | NoCookie
    | SetCookie(name: string, value: string, options: CookieOptions)
    | ClearCookie(name: string, options: CookieOptions)

  /** The JSON bodies the handlers send. */
  datatype Body =
    | Failure(message: string)                                  // { success: false, message }
    | Success(message: string)                                  // { success: true, message }
    | MissingFields(message: string, missingFields: seq<string>) // { success: false, message, missingFields }
    | WithUser(user: User)                                      // { success: true, user }

  datatype Response = Response(status: nat, body: Body, cookie: CookieOp)

  /** `res.status(status).json({ success: false, message })`. */
  function Fail(status: nat, message: string): (r: Response) {
    Response(status, Failure(message), NoCookie)
  }
}
