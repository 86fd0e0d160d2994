/**
 `POST /api/logout`: never reads the request; answers 200 and overwrites the
 `auth_token` cookie with an empty value that expires at once. A thrown error
 (the `fault` input) becomes a 500 without a cookie.
 */
module Logout {
  import opened Wrappers
  import Cookies
  import Http

  const SuccessMessage := "Sesión cerrada correctamente"
  const ErrorMessage := "Error al cerrar sesión"

  /** The options of the clearing cookie; `secure` follows `NODE_ENV`. */
  function ClearingAttributes(nodeEnv: Option<string>): Cookies.Attributes {
    Cookies.Attributes(
      httpOnly := true,
      secure := nodeEnv == Some("production"),
      sameSite := "strict",
      maxAge := 0,
      path := "/")
  }

  /** The handler. Its only inputs are the environment and whether it throws. */
  function Post(nodeEnv: Option<string>, fault: bool): (r: Http.Response)
    ensures r.status == 200 <==> !fault
    ensures !fault ==> r.body == Http.Success(SuccessMessage) && r.cookie.Some?
    ensures !fault ==> r.cookie.value.name == "auth_token" && r.cookie.value.value == ""
    ensures !fault ==> r.cookie.value.attrs.maxAge == 0
    ensures fault ==> r == Http.Response(500, Http.Failure(ErrorMessage), None)
  {
    if fault then Http.Response(500, Http.Failure(ErrorMessage), None)
    else
      var cookie := Cookies.SetCookie("auth_token", "", ClearingAttributes(nodeEnv));
      Http.Response(200, Http.Success(SuccessMessage), Some(cookie))
  }

  /**
   After a successful logout the browser holds no `auth_token`, and every
   other cookie is as it was.
   */
  lemma ClearsToken(jar: Cookies.Jar, nodeEnv: Option<string>)
    ensures var j := Http.Deliver(jar, Post(nodeEnv, false));
      && Cookies.Get(j, "auth_token") == None
      && forall n :: n != "auth_token" ==> Cookies.Get(j, n) == Cookies.Get(jar, n)
  {
  }

  /** Logging out twice leaves the browser as logging out once. */
  lemma Idempotent(jar: Cookies.Jar, nodeEnv: Option<string>, fault: bool)
    ensures var r := Post(nodeEnv, fault);
      Http.Deliver(Http.Deliver(jar, r), r) == Http.Deliver(jar, r)
  {
  }

  /**
   The outcome does not depend on the prior session: a browser that held any
   token and one that held none end in the same state.
   */
  lemma IndependentOfPriorSession(jar: Cookies.Jar, token: string, nodeEnv: Option<string>)
    ensures var r := Post(nodeEnv, false);
      Http.Deliver(jar["auth_token" := token], r) == Http.Deliver(jar - {"auth_token"}, r)
  {
  }
}
