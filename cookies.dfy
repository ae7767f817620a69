/**
 * The conversion of a browser cookie record, as the cookie reader returns
 * it, into the record the browsing contexts accept.
 */
module Cookies {
  import opened Common

  /** A cookie as the reader returns it; `expires` is -1 for a session
      cookie and `sameSite` may be missing. */
  datatype StoredCookie = StoredCookie(
    name: string, value: string, domain: string, path: string,
    expires: int, httpOnly: bool, secure: bool, sameSite: Option<string>)

  /** A cookie as injected into a browsing context. */
  datatype ContextCookie = ContextCookie(
    name: string, value: string, domain: string, path: string,
    expires: Option<int>, httpOnly: bool, secure: bool, sameSite: string)

  /** Python's `str.capitalize` on ASCII: the first character upper case,
      the rest lower case. */
  function Capitalize(s: string): string {
    if s == [] then [] else [UpperChar(s[0])] + Lower(s[1..])
  }

  /** Capitalizing ignores the case of its input and is idempotent. */
  lemma CapitalizeCaseInsensitive(s: string, t: string)
    requires Lower(s) == Lower(t)
    ensures Capitalize(s) == Capitalize(t)
    ensures Capitalize(Capitalize(s)) == Capitalize(s)
  {
    if s != [] {
      assert |t| == |s|;
      assert LowerChar(s[0]) == Lower(s)[0] == Lower(t)[0] == LowerChar(t[0]);
      assert UpperChar(s[0]) == UpperChar(t[0]);
      assert Lower(s[1..]) == Lower(s)[1..] == Lower(t)[1..] == Lower(t[1..]);
      var c := Capitalize(s);
      assert UpperChar(c[0]) == c[0];
      assert Lower(c[1..]) == c[1..];
    }
  }

  /** The SameSite value: the reader's value capitalized, or "Lax" when it
      is missing or empty. */
  function SameSiteOf(sameSite: Option<string>): (r: string)
    ensures r != []
    ensures sameSite.None? || sameSite.value == [] ==> r == "Lax"
  {
    if sameSite.Some? && sameSite.value != [] then Capitalize(sameSite.value) else "Lax"
  }

  /** A present value is kept up to the case of its letters. */
  lemma SameSiteKeepsLetters(s: string)
    requires s != []
    ensures |SameSiteOf(Some(s))| == |s|
    ensures Lower(SameSiteOf(Some(s))) == Lower(s)
  {
    var r := SameSiteOf(Some(s));
    forall k | 0 <= k < |s| ensures LowerChar(r[k]) == LowerChar(s[k]) {
      if k > 0 {
        assert r[k] == Lower(s[1..])[k - 1];
      }
    }
  }

  /** The three SameSite values a browsing context accepts come out in
      their canonical spelling whatever case the reader gave them in. */
  lemma SameSiteCanonical(s: string)
    ensures Lower(s) == "strict" ==> SameSiteOf(Some(s)) == "Strict"
    ensures Lower(s) == "lax" ==> SameSiteOf(Some(s)) == "Lax"
    ensures Lower(s) == "none" ==> SameSiteOf(Some(s)) == "None"
  {
    if Lower(s) == "strict" {
      CapitalizeCaseInsensitive(s, "strict");
    } else if Lower(s) == "lax" {
      CapitalizeCaseInsensitive(s, "lax");
    } else if Lower(s) == "none" {
      CapitalizeCaseInsensitive(s, "none");
    }
  }

  /** One converted cookie: the same name, value, domain, path and flags;
      a session marker -1 becomes a missing expiry; the SameSite value is
      the stored one capitalized, or "Lax" (see SameSiteOf). */
  function ToContextCookie(c: StoredCookie): (r: ContextCookie)
    ensures r.name == c.name && r.value == c.value && r.domain == c.domain && r.path == c.path
    ensures r.httpOnly == c.httpOnly && r.secure == c.secure
    ensures r.expires.None? <==> c.expires == -1
    ensures r.expires.Some? ==> r.expires.value == c.expires
    ensures r.sameSite == SameSiteOf(c.sameSite)
  {
    ContextCookie(c.name, c.value, c.domain, c.path,
      if c.expires != -1 then Some(c.expires) else None,
      c.httpOnly, c.secure, SameSiteOf(c.sameSite))
  }

  /** The whole list, converted in order. */
  function ToContextCookies(cs: seq<StoredCookie>): (r: seq<ContextCookie>)
    ensures |r| == |cs|
    ensures forall k :: 0 <= k < |cs| ==> r[k] == ToContextCookie(cs[k])
  {
    seq(|cs|, k requires 0 <= k < |cs| => ToContextCookie(cs[k]))
  }
}
