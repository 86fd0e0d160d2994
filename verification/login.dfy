/**
 `POST /api/login`: validate the body, look the user up, compare the password
 against the stored digest, and on success answer 200 with an `auth_token`
 cookie holding the user id. Any thrown error becomes a generic 500.

 The database and bcrypt are abstracted: the credential table is a sequence
 of rows (or unreachable), and `bcrypt.compare` is a caller-supplied function
 that yields `Some(match)` or `None` when it throws.
 */
module Login {
  import opened Wrappers
  import opened Js
  import Cookies
  import Http

  /** A row of `SELECT id, usuario, password FROM usuarios`; `digest` is the bcrypt hash. */
  datatype UserRow = UserRow(id: int, usuario: string, digest: string)

  /** The credential store: its rows in query order, or a store whose query throws. */
  datatype Store = Reachable(table: seq<UserRow>) | Unreachable

  /** The result of `await req.json()`: the two fields, or a body that fails to parse. */
  datatype Request = Unparsable | Credentials(usuario: Option<string>, password: Option<string>)

  const AuthCookieName := "auth_token"
  const SessionMaxAge := 60 * 60 * 24
  const RequiredMessage := "Usuario y contraseña son requeridos"
  const InvalidMessage := "Usuario o contraseña incorrectos"
  const ServerMessage := "Error del servidor. Intenta de nuevo más tarde."
  const SuccessMessage := "Login exitoso"

  const BadRequest := Http.Response(400, Http.Failure(RequiredMessage), None)
  const Unauthorized := Http.Response(401, Http.Failure(InvalidMessage), None)
  const ServerError := Http.Response(500, Http.Failure(ServerMessage), None)

  /** `WHERE usuario = ?`: the rows for one user name, in table order. */
  function Select(table: seq<UserRow>, usuario: string): (rows: seq<UserRow>)
    ensures forall k :: 0 <= k < |rows| ==> rows[k].usuario == usuario && rows[k] in table
    ensures forall i :: 0 <= i < |table| && table[i].usuario == usuario ==> table[i] in rows
    ensures |rows| <= |table|
  {
    if |table| == 0 then []
    else if table[0].usuario == usuario then [table[0]] + Select(table[1..], usuario)
    else Select(table[1..], usuario)
  }

  /** Row `i` is the first row of the table with this user name. */
  predicate IsFirstMatch(table: seq<UserRow>, usuario: string, i: int) {
    && 0 <= i < |table|
    && table[i].usuario == usuario
    && forall j :: 0 <= j < i ==> table[j].usuario != usuario
  }

  /** The first row the query returns is the table's first row for that name. */
  lemma {:induction false} SelectHeadIsFirstMatch(table: seq<UserRow>, usuario: string, i: int)
    requires IsFirstMatch(table, usuario, i)
    ensures |Select(table, usuario)| > 0 && Select(table, usuario)[0] == table[i]
    decreases i
  {
    if i > 0 {
      assert table[0].usuario != usuario;
      assert IsFirstMatch(table[1..], usuario, i - 1);
      SelectHeadIsFirstMatch(table[1..], usuario, i - 1);
    }
  }

  /** A table with some row for the name has a first such row. */
  lemma {:induction false} FirstMatchExists(table: seq<UserRow>, usuario: string, k: int)
    requires 0 <= k < |table| && table[k].usuario == usuario
    ensures exists i :: IsFirstMatch(table, usuario, i)
    decreases k
  {
    if forall j :: 0 <= j < k ==> table[j].usuario != usuario {
      assert IsFirstMatch(table, usuario, k);
    } else {
      var j :| 0 <= j < k && table[j].usuario == usuario;
      FirstMatchExists(table, usuario, j);
    }
  }

  /** The options of the session cookie; `secure` follows `NODE_ENV`. */
  function SessionAttributes(nodeEnv: Option<string>): Cookies.Attributes {
    Cookies.Attributes(
      httpOnly := true,
      secure := nodeEnv == Some("production"),
      sameSite := "strict",
      maxAge := SessionMaxAge,
      path := "/")
  }

  /** The handler. */
  function Post(req: Request, store: Store, compare: (string, string) -> Option<bool>,
                nodeEnv: Option<string>): (r: Http.Response)
    ensures r.cookie.Some? <==> r.status == 200
    ensures r.status == 200 || r.status == 400 || r.status == 401 || r.status == 500
    ensures r.status == 200 ==> r.body.Success? && r.cookie.value.name == AuthCookieName
    ensures r.status == 400 <==> req.Credentials? && !(Truthy(req.usuario) && Truthy(req.password))
    ensures r.status == 401 ==> r == Unauthorized
    ensures r.status == 500 ==> r == ServerError
    ensures req.Unparsable? ==> r == ServerError
    ensures req.Credentials? && Truthy(req.usuario) && Truthy(req.password) && store.Unreachable?
            ==> r == ServerError
  {
    match req
    case Unparsable => ServerError
    case Credentials(usuario, password) =>
      if !Truthy(usuario) || !Truthy(password) then BadRequest
      else
        match store
        case Unreachable => ServerError
        case Reachable(table) =>
          var rows := Select(table, usuario.value);
          if |rows| == 0 then Unauthorized
          else
            var user := rows[0];
            match compare(password.value, user.digest)
            case None => ServerError
            case Some(false) => Unauthorized
            case Some(true) =>
              var cookie := Cookies.SetCookie(AuthCookieName, IntToString(user.id),
                                              SessionAttributes(nodeEnv));
              Http.Response(200, Http.Success(SuccessMessage), Some(cookie))
  }

  /**
   The credentials are genuine: the table's first row for the name has a
   digest the password verifies against.
   */
  ghost predicate Authenticates(table: seq<UserRow>, usuario: string, password: string,
                          compare: (string, string) -> Option<bool>) {
    exists i :: IsFirstMatch(table, usuario, i) && compare(password, table[i].digest) == Some(true)
  }

  /** No row of the table carries this name. */
  predicate Unknown(table: seq<UserRow>, usuario: string) {
    forall i :: 0 <= i < |table| ==> table[i].usuario != usuario
  }

  /**
   Login succeeds exactly when the body parses with both fields filled, the
   store answers, and the first row for the name verifies the password.
   */
  lemma SucceedsIffAuthenticated(req: Request, store: Store,
                                 compare: (string, string) -> Option<bool>, nodeEnv: Option<string>)
    ensures Post(req, store, compare, nodeEnv).status == 200 <==>
      && req.Credentials? && Truthy(req.usuario) && Truthy(req.password)
      && store.Reachable?
      && Authenticates(store.table, req.usuario.value, req.password.value, compare)
  {
    if req.Credentials? && Truthy(req.usuario) && Truthy(req.password) && store.Reachable? {
      var table, u, p := store.table, req.usuario.value, req.password.value;
      var rows := Select(table, u);
      if Authenticates(table, u, p, compare) {
        var i :| IsFirstMatch(table, u, i) && compare(p, table[i].digest) == Some(true);
        SelectHeadIsFirstMatch(table, u, i);
      } else if |rows| > 0 {
        var k :| 0 <= k < |table| && table[k] == rows[0];
        FirstMatchExists(table, u, k);
        var i :| IsFirstMatch(table, u, i);
        SelectHeadIsFirstMatch(table, u, i);
      }
    }
  }

  /**
   On success the response carries exactly one cookie: `auth_token` set to
   the decimal form of the user's id, readable back as that id, with the
   session options (http-only, strict same-site, a day long, whole site,
   secure only in production).
   */
  lemma SuccessSetsSessionCookie(usuario: string, password: string, table: seq<UserRow>, i: int,
                                 compare: (string, string) -> Option<bool>, nodeEnv: Option<string>)
    requires usuario != "" && password != ""
    requires IsFirstMatch(table, usuario, i) && compare(password, table[i].digest) == Some(true)
    ensures var r := Post(Credentials(Some(usuario), Some(password)), Reachable(table), compare, nodeEnv);
      && r.status == 200
      && r.body == Http.Success(SuccessMessage)
      && r.cookie.Some?
      && r.cookie.value.name == "auth_token"
      && r.cookie.value.value == IntToString(table[i].id)
      && ParseInt(r.cookie.value.value) == Some(table[i].id)
      && r.cookie.value.attrs.httpOnly
      && r.cookie.value.attrs.sameSite == "strict"
      && r.cookie.value.attrs.maxAge == 86400
      && r.cookie.value.attrs.path == "/"
      && (r.cookie.value.attrs.secure <==> nodeEnv == Some("production"))
  {
    SelectHeadIsFirstMatch(table, usuario, i);
    IntToStringRoundTrip(table[i].id);
  }

  /**
   No user enumeration: an unknown name and a known name with a wrong
   password produce the very same response.
   */
  lemma UnknownUserLooksLikeWrongPassword(usuario: string, password: string,
                                          unknownIn: seq<UserRow>, knownIn: seq<UserRow>, i: int,
                                          compare: (string, string) -> Option<bool>,
                                          nodeEnv: Option<string>)
    requires usuario != "" && password != ""
    requires Unknown(unknownIn, usuario)
    requires IsFirstMatch(knownIn, usuario, i) && compare(password, knownIn[i].digest) == Some(false)
    ensures var req := Credentials(Some(usuario), Some(password));
      && Post(req, Reachable(unknownIn), compare, nodeEnv) == Unauthorized
      && Post(req, Reachable(knownIn), compare, nodeEnv) == Unauthorized
  {
    SelectHeadIsFirstMatch(knownIn, usuario, i);
  }

  /**
   A missing or empty field is rejected before the store or bcrypt is
   consulted: the answer is 400 whatever they would have said.
   */
  lemma ValidationPrecedesLookup(usuario: Option<string>, password: Option<string>,
                                 store1: Store, compare1: (string, string) -> Option<bool>,
                                 store2: Store, compare2: (string, string) -> Option<bool>,
                                 nodeEnv: Option<string>)
    requires !Truthy(usuario) || !Truthy(password)
    ensures Post(Credentials(usuario, password), store1, compare1, nodeEnv) == BadRequest
    ensures Post(Credentials(usuario, password), store1, compare1, nodeEnv)
         == Post(Credentials(usuario, password), store2, compare2, nodeEnv)
  {
  }

  /**
   Only the first row for the name matters: two tables whose first rows for
   the name are equal give the same response, whatever else they hold.
   */
  lemma OnlyFirstRowMatters(req: Request, t1: seq<UserRow>, i1: int, t2: seq<UserRow>, i2: int,
                            compare: (string, string) -> Option<bool>, nodeEnv: Option<string>)
    requires req.Credentials? && Truthy(req.usuario)
    requires IsFirstMatch(t1, req.usuario.value, i1) && IsFirstMatch(t2, req.usuario.value, i2)
    requires t1[i1] == t2[i2]
    ensures Post(req, Reachable(t1), compare, nodeEnv) == Post(req, Reachable(t2), compare, nodeEnv)
  {
    SelectHeadIsFirstMatch(t1, req.usuario.value, i1);
    SelectHeadIsFirstMatch(t2, req.usuario.value, i2);
  }

  /** Users with different ids receive different session tokens. */
  lemma DistinctUsersDistinctTokens(r1: Http.Response, r2: Http.Response,
                                    req1: Request, req2: Request, table: seq<UserRow>, i1: int, i2: int,
                                    compare: (string, string) -> Option<bool>, nodeEnv: Option<string>)
    requires req1.Credentials? && Truthy(req1.usuario) && Truthy(req1.password)
    requires req2.Credentials? && Truthy(req2.usuario) && Truthy(req2.password)
    requires IsFirstMatch(table, req1.usuario.value, i1) && IsFirstMatch(table, req2.usuario.value, i2)
    requires r1 == Post(req1, Reachable(table), compare, nodeEnv) && r1.status == 200
    requires r2 == Post(req2, Reachable(table), compare, nodeEnv) && r2.status == 200
    requires table[i1].id != table[i2].id
    ensures r1.cookie.value.value != r2.cookie.value.value
  {
    SelectHeadIsFirstMatch(table, req1.usuario.value, i1);
    SelectHeadIsFirstMatch(table, req2.usuario.value, i2);
    IntToStringInjective(table[i1].id, table[i2].id);
  }

  /**
   The query's first row, when there is one, is the table's first row for the
   name; and the query is empty exactly when no row carries the name.
   */
  lemma SelectShape(table: seq<UserRow>, usuario: string)
    ensures |Select(table, usuario)| == 0 <==> Unknown(table, usuario)
    ensures |Select(table, usuario)| > 0 ==>
      exists i :: IsFirstMatch(table, usuario, i) && Select(table, usuario)[0] == table[i]
  {
    var rows := Select(table, usuario);
    if |rows| > 0 {
      var k :| 0 <= k < |table| && table[k] == rows[0];
      FirstMatchExists(table, usuario, k);
      var i :| IsFirstMatch(table, usuario, i);
      SelectHeadIsFirstMatch(table, usuario, i);
    }
  }

  /** bcrypt's answer on the first row for the name is `outcome`. */
  ghost predicate FirstRowCompares(table: seq<UserRow>, usuario: string, password: string,
                                   compare: (string, string) -> Option<bool>, outcome: Option<bool>) {
    exists i :: IsFirstMatch(table, usuario, i) && compare(password, table[i].digest) == outcome
  }

  /**
   Every thrown error, and only a thrown error, gives 500: a body that does
   not parse, a query that fails after validation, or bcrypt throwing on the
   first row for the name.
   */
  lemma ServerErrorIffThrown(req: Request, store: Store,
                             compare: (string, string) -> Option<bool>, nodeEnv: Option<string>)
    ensures Post(req, store, compare, nodeEnv).status == 500 <==>
      || req.Unparsable?
      || (&& req.Credentials? && Truthy(req.usuario) && Truthy(req.password)
          && (|| store.Unreachable?
              || FirstRowCompares(store.table, req.usuario.value, req.password.value, compare, None)))
  {
    if req.Credentials? && Truthy(req.usuario) && Truthy(req.password) && store.Reachable? {
      SelectShape(store.table, req.usuario.value);
    }
  }

  /**
   401 comes exactly from a validated request against an answering store
   where either no row carries the name or bcrypt rejects the password on
   the first row for it.
   */
  lemma UnauthorizedIffBadCredentials(req: Request, store: Store,
                                      compare: (string, string) -> Option<bool>, nodeEnv: Option<string>)
    ensures Post(req, store, compare, nodeEnv).status == 401 <==>
      && req.Credentials? && Truthy(req.usuario) && Truthy(req.password)
      && store.Reachable?
      && (|| Unknown(store.table, req.usuario.value)
          || FirstRowCompares(store.table, req.usuario.value, req.password.value, compare, Some(false)))
  {
    if req.Credentials? && Truthy(req.usuario) && Truthy(req.password) && store.Reachable? {
      SelectShape(store.table, req.usuario.value);
    }
  }
}
