# Login flow of the checkpoint web application, modelled in Dafny

The application guards a few pages behind a session cookie. Three pieces of
server code decide everything:

- the **route guard** (`src/lib/middleware.js`) runs before a page is
  rendered. It redirects a request for a protected path (one that starts
  with `/home`, `/profile` or `/settings`) to `/login` when there is no
  `auth_token` cookie. It redirects `/login` to `/home` when there is one.
  Everything else continues;
- **`POST /api/login`** (`src/app/api/login/route.js`) validates
  `{ usuario, password }` (400), looks the user up (401), checks the password
  with bcrypt (401), and on success answers 200. The success answer sets
  `auth_token` to the user's id in decimal. Any exception gives 500;
- **`POST /api/logout`** (`src/app/api/logout/route.js`) answers 200 unless
  an error is thrown, which gives 500. On 200 it overwrites `auth_token` with
  an empty value and `maxAge 0`.

The model is functional. Requests, responses and cookies are immutable
datatypes and the handlers are pure functions. The credential table is a
sequence of rows in query order, or a store whose query throws. `bcrypt.compare`
is a function parameter `(password, digest) -> Option<bool>`; `None` means the
call threw. A browser's cookie jar (a map from name to value) connects the
handlers to the guard.

Modules, one per concern:

| file | module | what it holds |
|---|---|---|
| `wrappers.dfy` | `Wrappers` | `Option` |
| `js.dfy` | `Js` | JavaScript truthiness, `startsWith`, `Number.prototype.toString` on integers and a decimal reader as its inverse |
| `cookies.dfy` | `Cookies` | cookie options, `Set-Cookie`, the jar and storing into it (section 5.3 of RFC 6265) |
| `http.dfy` | `Http` | JSON bodies, responses, delivering a response to a jar |
| `middleware.dfy` | `Middleware` | protected routes, the guard, the guard as a decision table, the matcher domain |
| `login.dfy` | `Login` | the credential table, the `WHERE usuario = ?` query, the login handler |
| `logout.dfy` | `Logout` | the logout handler |
| `session.dfy` | `Session` | handlers and guard together: login, visit, logout, visit |

An empty `auth_token` counts as absent, because the code tests `!authToken`
(`Middleware.EmptyTokenIsAbsent`). A non-empty token is never inspected
(`Middleware.TokenContentIgnored`).

## Model

| member | source | states |
|---|---|---|
| `Js.StartsWithIffConcat` | src/lib/middleware.js:42-44 | `startsWith` holds exactly when the path is the prefix followed by some rest |
| `Js.StartsWithTransitive` | src/lib/middleware.js:69-76 | a path under `/home/` also starts with `/home` (prefix of a prefix) |
| `Js.NatToString` | src/app/api/login/route.js:75 | the decimal form of a natural number is one or more digits, with no leading zero unless the number is zero |
| `Js.DigitsValueOfNatToString` | src/app/api/login/route.js:75 | the digits printed for `n` denote `n` |
| `Js.IntToString` | src/app/api/login/route.js:75 | `id.toString()` is never empty, so the session cookie is always truthy; it starts with a minus sign iff the id is negative, and has no leading zero unless the id is 0 |
| `Js.IntToStringRoundTrip` | src/app/api/login/route.js:75 | the cookie value can be read back as exactly the user id |
| `Js.IntToStringInjective` | src/app/api/login/route.js:75 | distinct ids print as distinct strings |
| `Cookies.Store` | src/app/api/logout/route.js:26-32 | a cookie with max-age 0 removes its name from the jar; a positive max-age stores the value; other cookies are untouched |
| `Cookies.Get` | src/lib/middleware.js:37 | `cookies.get(name)?.value` is defined iff the jar holds the name, and is then its value |
| `Cookies.StoreIdempotent` | src/app/api/logout/route.js:26-32 | storing the same cookie twice equals storing it once |
| `Cookies.StoreForgetsPrevious` | src/app/api/logout/route.js:26-32 | the jar after storing a cookie does not depend on what that name held before |
| `Middleware.Guard` | src/lib/middleware.js:30-64 | a redirect goes only to `/login` or `/home`; `/login` only for a protected path without a truthy token; `/home` only for `/login` with one; a protected path continues only with a truthy token |
| `Middleware.ProtectedIffListedPrefix` | src/lib/middleware.js:24-44 | a path is protected iff it starts with `/home`, `/profile` or `/settings` |
| `Middleware.LoginUnprotectedHomeProtected` | src/lib/middleware.js:24-28 | `/login` is not protected and `/home` is |
| `Middleware.RawPrefixProtection` | src/lib/middleware.js:42-44 | the test is not segment-aware: `/homework`, `/settingsX`, `/profile-public` are protected |
| `Middleware.GuardIsTable` | src/lib/middleware.js:42-63 | the guard equals a decision table over (route class: protected/login/other, truthy session); the table checks the login page first, so check order never matters |
| `Middleware.ChecksExclusive` | src/lib/middleware.js:42-58 | no path is both protected and `/login` |
| `Middleware.RedirectTargetIsFixedPoint` | src/lib/middleware.js:47-58 | no redirect loop: for the same cookie, a redirect target is let through |
| `Middleware.EmptyTokenIsAbsent` | src/lib/middleware.js:37-55 | an empty `auth_token` is decided as no cookie at all |
| `Middleware.TokenContentIgnored` | src/lib/middleware.js:37-55 | any two non-empty tokens get the same decision |
| `Middleware.MatchedPathsProtectedUnlessLogin` | src/lib/middleware.js:69-76 | on the matcher's paths, protected iff not `/login` |
| `Login.Select` | src/app/api/login/route.js:29-32 | the query returns only rows with that name, taken from the table, and every such row |
| `Login.SelectHeadIsFirstMatch` | src/app/api/login/route.js:29-44 | `rows[0]` is the table's first row for the name |
| `Login.FirstMatchExists` | src/app/api/login/route.js:35-44 | a table with some row for the name has a first such row |
| `Login.Post` | src/app/api/login/route.js:11-96 | a cookie is set exactly on 200; only 200/400/401/500 occur; 400 iff the body parsed with a missing or empty field; an unparsable body, or a validated request whose query throws, gives the generic 500; every 401 is the same response; every 500 is the same generic response |
| `Login.SelectShape` | src/app/api/login/route.js:29-44 | the query is empty iff no row carries the name; otherwise its first row is the table's first row for the name |
| `Login.ServerErrorIffThrown` | src/app/api/login/route.js:85-95 | 500 iff the body does not parse, or a validated request meets a failing query or a throwing bcrypt on the first row for the name |
| `Login.UnauthorizedIffBadCredentials` | src/app/api/login/route.js:35-56 | 401 iff a validated request against an answering store finds no row for the name, or bcrypt rejects the password on the first row |
| `Login.SucceedsIffAuthenticated` | src/app/api/login/route.js:44-67 | 200 iff both fields are filled, the store answers, and bcrypt accepts the password against the first row's digest |
| `Login.SuccessSetsSessionCookie` | src/app/api/login/route.js:75-81 | on success the cookie is `auth_token` = the id in decimal (read back as the id), http-only, strict, 86400 s, path `/`, secure iff `NODE_ENV` is `production` |
| `Login.UnknownUserLooksLikeWrongPassword` | src/app/api/login/route.js:35-56 | an unknown name and a wrong password give the identical 401 response |
| `Login.ValidationPrecedesLookup` | src/app/api/login/route.js:19-32 | a missing or empty field gives 400 whatever the store and bcrypt would do |
| `Login.OnlyFirstRowMatters` | src/app/api/login/route.js:44-48 | tables with the same first row for the name give the same response |
| `Login.DistinctUsersDistinctTokens` | src/app/api/login/route.js:75 | users with different ids receive different token values |
| `Logout.Post` | src/app/api/logout/route.js:8-47 | 200 iff no exception; then the body is the success message and `auth_token` is set to "" with max-age 0; an exception gives 500 "Error al cerrar sesión" with no cookie |
| `Logout.ClearsToken` | src/app/api/logout/route.js:26-32 | after logout the jar holds no `auth_token`, and every other cookie is unchanged |
| `Logout.Idempotent` | src/app/api/logout/route.js:8-47 | two logouts leave the jar as one does |
| `Logout.IndependentOfPriorSession` | src/app/api/logout/route.js:8-32 | the jar after logout is the same whether or not a token was held |
| `Session.LogoutCookieMatchesLoginCookie` | src/app/api/logout/route.js:26-32 | the clearing cookie has the session cookie's name, http-only, secure, same-site and path; only value and max-age differ |
| `Session.FailedLoginChangesNothing` | src/app/api/login/route.js:19-56 | a failed login leaves the jar, and so every guard decision, unchanged |
| `Session.LoginOpensProtectedPages` | src/app/api/login/route.js:75-81 | after login the jar holds the id's decimal string; protected paths continue and `/login` redirects home |
| `Session.LogoutClosesProtectedPages` | src/app/api/logout/route.js:26-32 | after logout protected paths redirect to `/login` and `/login` continues |
| `Session.LoginVisitLogoutVisit` | src/lib/middleware.js:47-50 | login, protected page passes, logout, protected page redirects to `/login` |
| `Session.AliceScenario` | src/app/api/login/route.js:75 | alice (id 7) gets `auth_token=7`, sees `/home`, logs out, and is redirected to `/login` with an empty jar |

## Left out

- The client pages (`src/app/login/page.jsx`, `src/app/home/page.jsx`,
  `src/app/login/LoginBranding.jsx`) are React rendering, `fetch` calls and
  router navigation. The `localStorage` flag on the home page is client-side
  state the server never sees.
- The database driver and SQL. The query is an exact string-equality filter
  over the table in table order. A database collation that compares names
  case-insensitively or ignores trailing spaces is not modelled.
- The bcrypt algorithm. `compare` is an arbitrary function with no hashing semantics.
- Request bodies whose `usuario` or `password` are JSON values other than
  strings (numbers, booleans, objects) are not modelled. A field is a string
  or absent, and a body that fails to parse gives 500.
- `NextResponse`, header serialisation, `async`/`await`, `console.error`
  logging and the `request.url` base of redirect URLs are framework plumbing.
  A redirect is a tag carrying its target path.
- Cookie expiry over time. `maxAge` is a number, and only a non-positive
  max-age deletes (section 5.2.2 of RFC 6265). The 24 hours passing is not
  modelled, and neither is the `Secure` flag's effect on transport.
- The jar is keyed by cookie name alone. Domain and path scoping are not
  modelled because every cookie here uses path `/` and the default domain.
- `Js.IntToString`: ids are taken to be safe integers (magnitude at most
  2^53 - 1), where JavaScript prints the exact decimal digits. Above 2^53 a
  Number prints its shortest round-trip digits padded with zeros, and from
  10^21 on it uses exponent notation. Neither is modelled, so the round trip
  holds only for safe-integer ids.
- The Next.js matcher (`/home/:path*`, ...) is only the predicate
  `Middleware.Matched`. The guard is defined on every path, and the
  framework's pattern matcher is not modelled.
- The logout handler's exception path: the model does not say which operation
  could throw. A thrown error is the `fault` input of `Logout.Post`.
