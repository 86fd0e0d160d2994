/**
 The handlers and the guard together, through the browser's cookie jar:
 the two handlers write the same cookie, a successful login opens the
 protected pages, a failed one changes nothing, and a logout closes them.
 */
module Session {
  import opened Wrappers
  import opened Js
  import Cookies
  import Http
  import Login
  import Logout
  import Middleware

  /** The token the guard reads from a browser's jar. */
  function Token(jar: Cookies.Jar): Option<string> {
    Cookies.Get(jar, Login.AuthCookieName)
  }

  /**
   The clearing cookie overwrites the session cookie: same name, and the same
   http-only, secure, same-site and path options; only value and max-age differ.
   */
  lemma LogoutCookieMatchesLoginCookie(usuario: string, password: string, table: seq<Login.UserRow>,
                                       i: int, compare: (string, string) -> Option<bool>,
                                       nodeEnv: Option<string>)
    requires usuario != "" && password != ""
    requires Login.IsFirstMatch(table, usuario, i) && compare(password, table[i].digest) == Some(true)
    ensures var r := Login.Post(Login.Credentials(Some(usuario), Some(password)), Login.Reachable(table),
                                compare, nodeEnv);
      var clear := Logout.Post(nodeEnv, false).cookie.value;
      && r.cookie.Some?
      && var issued := r.cookie.value;
      && clear.name == issued.name
      && clear.attrs == issued.attrs.(maxAge := 0)
      && issued.attrs.maxAge > 0
  {
    Login.SuccessSetsSessionCookie(usuario, password, table, i, compare, nodeEnv);
  }

  /**
   A failed login (any status but 200) leaves the browser's cookies, and so
   every decision of the guard, exactly as they were.
   */
  lemma FailedLoginChangesNothing(jar: Cookies.Jar, req: Login.Request, store: Login.Store,
                                  compare: (string, string) -> Option<bool>, nodeEnv: Option<string>,
                                  pathname: string)
    requires Login.Post(req, store, compare, nodeEnv).status != 200
    ensures Http.Deliver(jar, Login.Post(req, store, compare, nodeEnv)) == jar
    ensures Middleware.Guard(pathname, Token(Http.Deliver(jar, Login.Post(req, store, compare, nodeEnv))))
         == Middleware.Guard(pathname, Token(jar))
  {
  }

  /**
   After a successful login every protected path is let through and the
   login page sends the user home, whatever the browser held before.
   */
  lemma LoginOpensProtectedPages(jar: Cookies.Jar, usuario: string, password: string,
                                 table: seq<Login.UserRow>, i: int,
                                 compare: (string, string) -> Option<bool>, nodeEnv: Option<string>,
                                 pathname: string)
    requires usuario != "" && password != ""
    requires Login.IsFirstMatch(table, usuario, i) && compare(password, table[i].digest) == Some(true)
    ensures var j := Http.Deliver(jar, Login.Post(Login.Credentials(Some(usuario), Some(password)),
                                                  Login.Reachable(table), compare, nodeEnv));
      && Token(j) == Some(IntToString(table[i].id))
      && (Middleware.IsProtected(pathname) ==> Middleware.Guard(pathname, Token(j)) == Middleware.Continue)
      && Middleware.Guard(Middleware.LoginPath, Token(j)) == Middleware.Redirect(Middleware.HomePath)
  {
    Login.SuccessSetsSessionCookie(usuario, password, table, i, compare, nodeEnv);
    Middleware.LoginUnprotectedHomeProtected();
  }

  /**
   After a successful logout every protected path redirects to the login
   page and the login page is shown, whatever the browser held before.
   */
  lemma LogoutClosesProtectedPages(jar: Cookies.Jar, nodeEnv: Option<string>, pathname: string)
    ensures var j := Http.Deliver(jar, Logout.Post(nodeEnv, false));
      && Token(j) == None
      && (Middleware.IsProtected(pathname) ==>
            Middleware.Guard(pathname, Token(j)) == Middleware.Redirect(Middleware.LoginPath))
      && Middleware.Guard(Middleware.LoginPath, Token(j)) == Middleware.Continue
  {
    Logout.ClearsToken(jar, nodeEnv);
    Middleware.LoginUnprotectedHomeProtected();
  }

  /**
   The whole scenario: log in with good credentials, visit a protected page
   (let through), log out, visit it again (sent to the login page).
   */
  lemma LoginVisitLogoutVisit(jar0: Cookies.Jar, usuario: string, password: string,
                              table: seq<Login.UserRow>, i: int,
                              compare: (string, string) -> Option<bool>, nodeEnv: Option<string>,
                              pathname: string)
    requires usuario != "" && password != ""
    requires Login.IsFirstMatch(table, usuario, i) && compare(password, table[i].digest) == Some(true)
    requires Middleware.IsProtected(pathname)
    ensures var login := Login.Post(Login.Credentials(Some(usuario), Some(password)),
                                    Login.Reachable(table), compare, nodeEnv);
      var jar1 := Http.Deliver(jar0, login);
      var logout := Logout.Post(nodeEnv, false);
      var jar2 := Http.Deliver(jar1, logout);
      && login.status == 200
      && Middleware.Guard(pathname, Token(jar1)) == Middleware.Continue
      && logout.status == 200
      && Middleware.Guard(pathname, Token(jar2)) == Middleware.Redirect(Middleware.LoginPath)
  {
    LoginOpensProtectedPages(jar0, usuario, password, table, i, compare, nodeEnv, pathname);
    var jar1 := Http.Deliver(jar0, Login.Post(Login.Credentials(Some(usuario), Some(password)),
                                              Login.Reachable(table), compare, nodeEnv));
    LogoutClosesProtectedPages(jar1, nodeEnv, pathname);
    Login.SuccessSetsSessionCookie(usuario, password, table, i, compare, nodeEnv);
  }

  /**
   The concrete scenario: alice (id 7) with the right password gets
   `auth_token=7`, sees /home, logs out, and is sent back to /login.
   */
  lemma AliceScenario(compare: (string, string) -> Option<bool>, nodeEnv: Option<string>)
    requires compare("correct", "$2a$10$digest") == Some(true)
    ensures var table := [Login.UserRow(7, "alice", "$2a$10$digest")];
      var login := Login.Post(Login.Credentials(Some("alice"), Some("correct")),
                              Login.Reachable(table), compare, nodeEnv);
      var jar1 := Http.Deliver(map[], login);
      var jar2 := Http.Deliver(jar1, Logout.Post(nodeEnv, false));
      && login.status == 200
      && jar1 == map["auth_token" := "7"]
      && Middleware.Guard("/home", Token(jar1)) == Middleware.Continue
      && jar2 == map[]
      && Middleware.Guard("/home", Token(jar2)) == Middleware.Redirect("/login")
  {
    var table := [Login.UserRow(7, "alice", "$2a$10$digest")];
    assert Login.IsFirstMatch(table, "alice", 0);
    Middleware.LoginUnprotectedHomeProtected();
    LoginVisitLogoutVisit(map[], "alice", "correct", table, 0, compare, nodeEnv, "/home");
    assert IntToString(7) == "7";
  }
}
