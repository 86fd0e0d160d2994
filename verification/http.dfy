/** JSON responses of the two API routes and their effect on a browser. */
module Http {
  import opened Wrappers
  import Cookies

  /** `{ success: true, message }` or `{ error }`. */
  datatype Body = Success(message: string) | Failure(error: string)

  /** A response: status code, JSON body, and at most one `Set-Cookie`. */
  datatype Response = Response(status: int, body: Body, cookie: Option<Cookies.SetCookie>)

  /** The browser receives a response and applies its `Set-Cookie`, if any. */
  function Deliver(jar: Cookies.Jar, r: Response): Cookies.Jar {
    match r.cookie
    case None => jar
    case Some(c) => Cookies.Store(jar, c)
  }
}
