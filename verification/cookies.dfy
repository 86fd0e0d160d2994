/**
 Cookies as the handlers write them (`response.cookies.set(name, value, options)`)
 and as a browser keeps them. Every cookie of this application uses path "/"
 and the default domain, so the browser's store is keyed by name alone.
 */
module Cookies {
  import opened Wrappers

  /** The options object passed to `cookies.set`. `maxAge` is in seconds. */
  datatype Attributes = Attributes(
    httpOnly: bool,
    secure: bool,
    sameSite: string,
    maxAge: int,
    path: string)

  /** One `Set-Cookie` instruction carried by a response. */
  datatype SetCookie = SetCookie(name: string, value: string, attrs: Attributes)

  /** The browser's cookie store: name to value. */
  type Jar = map<string, string>

  /**
   Stores a cookie in the jar (section 5.3 of RFC 6265): it replaces any cookie
   of the same name, and a non-positive max-age gives an expiry in the past,
   which removes the cookie instead. No other cookie is touched.
   */
  function Store(jar: Jar, c: SetCookie): (j: Jar)
    ensures c.attrs.maxAge <= 0 ==> c.name !in j
    ensures c.attrs.maxAge > 0 ==> c.name in j && j[c.name] == c.value
    ensures forall n :: n != c.name ==> (n in j <==> n in jar)
    ensures forall n :: n != c.name && n in jar ==> j[n] == jar[n]
  {
    if c.attrs.maxAge <= 0 then jar - {c.name} else jar[c.name := c.value]
  }

  /** `request.cookies.get(name)?.value`: the value, or undefined when absent. */
  function Get(jar: Jar, name: string): (v: Option<string>)
    ensures v.Some? <==> name in jar
    ensures v.Some? ==> v.value == jar[name]
  {
    if name in jar then Some(jar[name]) else None
  }

  /** Storing the same cookie twice leaves the jar as storing it once. */
  lemma StoreIdempotent(jar: Jar, c: SetCookie)
    ensures Store(Store(jar, c), c) == Store(jar, c)
  {
  }

  /**
   The outcome of storing a cookie does not depend on what the jar held under
   that cookie's name before.
   */
  lemma StoreForgetsPrevious(jar: Jar, c: SetCookie, old_value: string)
    ensures Store(jar[c.name := old_value], c) == Store(jar - {c.name}, c)
  {
  }
}
