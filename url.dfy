/**
 * The URL normalizer of the research loop (`normalize_url`) and a total
 * stand-in for the parts of Python's `urllib.parse` it relies on
 * (`urlsplit`, `urlparse`, `urlunparse`, as in CPython 3.12).
 *
 * A URL splits into scheme, network location (netloc), path, query and
 * fragment as in section 3 of RFC 3986; `urlparse` further cuts the
 * `;params` off the last path segment, as in section 2.1 of RFC 1808.
 */
module Url {
  import opened Common

  // ---------------------------------------------------------------------
  // Character classes used by urlsplit
  // ---------------------------------------------------------------------

  /** The C0 controls and space, stripped from the front of the input. */
  predicate IsC0OrSpace(c: char) { c <= ' ' }

  /** Tab, CR and LF, deleted wherever they occur in the input. */
  predicate IsUnsafe(c: char) { c == '\t' || c == '\r' || c == '\n' }

  predicate IsAsciiAlpha(c: char) { 'a' <= c <= 'z' || 'A' <= c <= 'Z' }

  predicate IsSchemeChar(c: char) {
    IsAsciiAlpha(c) || '0' <= c <= '9' || c == '+' || c == '-' || c == '.'
  }

  /** A '/', '?' or '#' ends the network location. */
  predicate IsNetlocDelimiter(c: char) { c == '/' || c == '?' || c == '#' }

  // ---------------------------------------------------------------------
  // String searching (Python's str.find, str.rfind, str.split(c, 1))
  // ---------------------------------------------------------------------

  /** The first index of `c` in `s` at or after `from`, or `|s|` when there
      is none (where Python's `find` answers -1). */
  function FindFrom(s: string, c: char, from: nat): (i: nat)
    requires from <= |s|
    ensures from <= i <= |s|
    ensures i < |s| ==> s[i] == c
    ensures forall j :: from <= j < i ==> s[j] != c
    decreases |s| - from
  {
    if from == |s| || s[from] == c then from else FindFrom(s, c, from + 1)
  }

  /** The first index at or after `from` of a netloc delimiter, or `|s|`. */
  function FindDelimiter(s: string, from: nat): (i: nat)
    requires from <= |s|
    ensures from <= i <= |s|
    ensures i < |s| ==> IsNetlocDelimiter(s[i])
    ensures forall j :: from <= j < i ==> !IsNetlocDelimiter(s[j])
    decreases |s| - from
  {
    if from == |s| || IsNetlocDelimiter(s[from]) then from else FindDelimiter(s, from + 1)
  }

  /** The last index of `c` in `s`. */
  function LastIndex(s: string, c: char): (i: nat)
    requires c in s
    ensures i < |s| && s[i] == c
    ensures forall j :: i < j < |s| ==> s[j] != c
  {
    if s[|s| - 1] == c then |s| - 1
    else
      assert s == s[..|s| - 1] + [s[|s| - 1]];
      LastIndex(s[..|s| - 1], c)
  }

  /** `s.split(c, 1)` when `c` occurs in `s`, and `(s, "")` otherwise. */
  function SplitOnce(s: string, c: char): (parts: (string, string))
    ensures c !in parts.0
    ensures c !in s ==> parts == (s, "")
    ensures c in s ==> s == parts.0 + [c] + parts.1
  {
    var i := FindFrom(s, c, 0);
    if i < |s| then (s[..i], s[i + 1..]) else (s, "")
  }

  // ---------------------------------------------------------------------
  // urlsplit
  // ---------------------------------------------------------------------

  /** The input without its leading C0 controls and spaces. */
  function LStrip(s: string): (r: string)
    ensures r == [] || !IsC0OrSpace(r[0])
    ensures |r| <= |s| && r == s[|s| - |r|..]
    ensures s != [] && !IsC0OrSpace(s[0]) ==> r == s
  {
    if s != [] && IsC0OrSpace(s[0]) then LStrip(s[1..]) else s
  }

  /** The input with every tab, CR and LF deleted. */
  function RemoveUnsafe(s: string): (r: string)
    ensures forall i :: 0 <= i < |r| ==> !IsUnsafe(r[i])
    ensures (forall i :: 0 <= i < |s| ==> !IsUnsafe(s[i])) ==> r == s
    ensures s != [] && !IsUnsafe(s[0]) ==> r != [] && r[0] == s[0]
  {
    if s == [] then []
    else if IsUnsafe(s[0]) then RemoveUnsafe(s[1..])
    else [s[0]] + RemoveUnsafe(s[1..])
  }

  /** A scheme as urlsplit accepts it: empty, or an ASCII letter followed
      by scheme characters, all lower case. */
  predicate IsScheme(scheme: string) {
    scheme == [] ||
    (IsAsciiAlpha(scheme[0]) &&
     forall k :: 0 <= k < |scheme| ==> IsSchemeChar(scheme[k]) && !('A' <= scheme[k] <= 'Z'))
  }

  /** The scheme and what follows it. A scheme is the text before the first
      ':' when that text is non-empty, starts with an ASCII letter and holds
      only scheme characters; it is lower-cased. */
  function SplitScheme(url: string): (parts: (string, string))
    ensures IsScheme(parts.0)
    ensures parts.0 == [] ==> parts.1 == url
    ensures parts.0 != [] ==>
      var i := FindFrom(url, ':', 0);
      i < |url| && parts.0 == Lower(url[..i]) && parts.1 == url[i + 1..]
  {
    var i := FindFrom(url, ':', 0);
    if 0 < i < |url| && IsAsciiAlpha(url[0]) && forall k | 0 <= k < i :: IsSchemeChar(url[k])
    then (Lower(url[..i]), url[i + 1..])
    else ("", url)
  }

  /** urlsplit raises ValueError ("Invalid IPv6 URL") for a network location
      holding a '[' without a ']' or the reverse. */
  predicate BracketMismatch(netloc: string) {
    ('[' in netloc) != (']' in netloc)
  }

  datatype SplitResult = SplitResult(scheme: string, netloc: string, path: string, query: string, fragment: string)

  /** urllib's _splitnetloc(rest, 2): after the leading "//", the network
      location runs up to the first '/', '?' or '#'. */
  function SplitNetloc(rest: string): (parts: (string, string))
    requires |rest| >= 2 && rest[..2] == "//"
    ensures forall k :: 0 <= k < |parts.0| ==> !IsNetlocDelimiter(parts.0[k])
    ensures parts.1 == [] || IsNetlocDelimiter(parts.1[0])
    ensures rest == "//" + parts.0 + parts.1
  {
    var d := FindDelimiter(rest, 2);
    assert rest == rest[..2] + rest[2..d] + rest[d..];
    (rest[2..d], rest[d..])
  }

  /** What urlsplit guarantees of its result (see WellFormed below). */
  predicate SplitWellFormed(s: SplitResult) {
    && IsScheme(s.scheme)
    && (forall k :: 0 <= k < |s.netloc| ==> !IsNetlocDelimiter(s.netloc[k]) && !IsUnsafe(s.netloc[k]))
    && !BracketMismatch(s.netloc)
    && (s.netloc != [] ==> s.path == [] || s.path[0] == '/')
    && (forall k :: 0 <= k < |s.path| ==> s.path[k] != '?' && s.path[k] != '#' && !IsUnsafe(s.path[k]))
  }

  /** The network location, present only after a leading "//", and the rest. */
  function Netloc(rest: string): (parts: (string, string))
    ensures forall k :: 0 <= k < |parts.0| ==> !IsNetlocDelimiter(parts.0[k])
    ensures parts.0 != [] ==> parts.1 == [] || IsNetlocDelimiter(parts.1[0])
    ensures |rest| >= 2 && rest[..2] == "//" ==> rest == "//" + parts.0 + parts.1
    ensures !(|rest| >= 2 && rest[..2] == "//") ==> parts == ("", rest)
  {
    if |rest| >= 2 && rest[..2] == "//" then SplitNetloc(rest) else ("", rest)
  }

  /** urlsplit: `None` where Python raises ValueError. */
  function Split(url: string): (r: Option<SplitResult>)
    ensures r.Some? ==> SplitWellFormed(r.value)
  {
    var u := RemoveUnsafe(LStrip(url));
    var (scheme, afterScheme) := SplitScheme(u);
    var (netloc, afterNetloc) := Netloc(afterScheme);
    if BracketMismatch(netloc) then None
    else
      var (beforeFragment, fragment) := SplitOnce(afterNetloc, '#');
      var (path, query) := SplitOnce(beforeFragment, '?');
      SplitSchemeClean(u);
      NetlocClean(afterScheme);
      SplitPathFacts(afterNetloc);
      Some(SplitResult(scheme, netloc, path, query, fragment))
  }

  // ---------------------------------------------------------------------
  // urlparse: parameters of the last path segment
  // ---------------------------------------------------------------------

  /** The schemes for which urlparse splits off `;params` (CPython 3.12's
      `uses_params`). */
  const UsesParams: set<string> :=
    {"", "ftp", "hdl", "prospero", "http", "imap", "https", "shttp", "rtsp",
     "rtsps", "rtspu", "sip", "sips", "mms", "sftp", "tel"}

  /** Where the last path segment starts: just after the last '/', or 0. */
  function SegmentStart(path: string): (k: nat)
    ensures k <= |path|
  {
    if '/' in path then LastIndex(path, '/') + 1 else 0
  }

  /** The last path segment holds no ';'. */
  predicate NoParams(path: string) {
    forall j :: SegmentStart(path) <= j < |path| ==> path[j] != ';'
  }

  /** No tab, CR or LF. */
  predicate Clean(s: string) {
    forall k :: 0 <= k < |s| ==> !IsUnsafe(s[k])
  }

  lemma SplitSchemeClean(u: string)
    requires Clean(u)
    ensures Clean(SplitScheme(u).1)
  {
    var i := FindFrom(u, ':', 0);
    if i < |u| {
      var t := u[i + 1..];
      assert forall k :: 0 <= k < |t| ==> t[k] == u[i + 1 + k];
    }
  }

  lemma NetlocClean(rest: string)
    requires Clean(rest)
    ensures Clean(Netloc(rest).0) && Clean(Netloc(rest).1)
  {
    var (netloc, after) := Netloc(rest);
    if netloc == [] && after == rest { return; }
    assert rest == "//" + netloc + after;
    assert forall k :: 0 <= k < |netloc| ==> netloc[k] == rest[2 + k];
    assert forall k :: 0 <= k < |after| ==> after[k] == rest[2 + |netloc| + k];
  }

  /** The path urlsplit separates from what follows the network location:
      it holds no '?', '#', tab, CR or LF, and it starts with '/' or is
      empty when that text started with a delimiter. */
  lemma SplitPathFacts(afterNetloc: string)
    requires Clean(afterNetloc)
    ensures var path := SplitOnce(SplitOnce(afterNetloc, '#').0, '?').0;
      && ((afterNetloc == [] || IsNetlocDelimiter(afterNetloc[0])) ==> path == [] || path[0] == '/')
      && (forall k :: 0 <= k < |path| ==> path[k] != '?' && path[k] != '#' && !IsUnsafe(path[k]))
  {
    var beforeFragment := SplitOnce(afterNetloc, '#').0;
    var path := SplitOnce(beforeFragment, '?').0;
    var f := FindFrom(afterNetloc, '#', 0);
    assert beforeFragment == afterNetloc[..f];
    var q := FindFrom(beforeFragment, '?', 0);
    assert path == beforeFragment[..q];
    assert forall k :: 0 <= k < |path| ==> path[k] == afterNetloc[k];
  }

  /** urllib's _splitparams: cut the path at the first ';' of its last segment. */
  function SplitParams(path: string): (parts: (string, string))
    ensures NoParams(parts.0)
    ensures |parts.0| <= |path| && parts.0 == path[..|parts.0|]
    ensures NoParams(path) ==> parts == (path, "")
    ensures path != [] && path[0] == '/' ==> parts.0 != [] && parts.0[0] == '/'
    ensures !NoParams(path) ==> SegmentStart(path) <= |parts.0| && path == parts.0 + ";" + parts.1
  {
    var i := if '/' in path then FindFrom(path, ';', LastIndex(path, '/')) else FindFrom(path, ';', 0);
    if i < |path| then
      CutKeepsSegment(path, i);
      (path[..i], path[i + 1..])
    else (path, "")
  }

  /** Cutting the path inside its last segment leaves the segment's start. */
  lemma CutKeepsSegment(path: string, i: nat)
    requires i <= |path| && SegmentStart(path) <= i
    ensures SegmentStart(path[..i]) == SegmentStart(path)
  {
    if '/' in path && LastIndex(path, '/') < i {
      LastIndexOfPrefix(path, '/', i);
    }
  }

  /** Cutting a sequence after its last `c` keeps that last `c`. */
  lemma LastIndexOfPrefix(s: string, c: char, n: nat)
    requires c in s && LastIndex(s, c) < n <= |s|
    ensures c in s[..n] && LastIndex(s[..n], c) == LastIndex(s, c)
  {
    var k := LastIndex(s, c);
    assert s[..n][k] == c;
    var k' := LastIndex(s[..n], c);
    assert s[k'] == c;
  }

  datatype ParseResult = ParseResult(scheme: string, netloc: string, path: string, params: string, query: string, fragment: string)

  /** What urlparse guarantees of its result: a well-formed scheme; a
      network location free of '/', '?', '#' and of unbalanced brackets;
      a path that starts with '/' when a network location precedes it and
      holds no '?' or '#'; no `;params` left in the last segment for the
      schemes that use them; no tab, CR or LF anywhere. */
  predicate WellFormed(p: ParseResult) {
    && IsScheme(p.scheme)
    && (forall k :: 0 <= k < |p.netloc| ==> !IsNetlocDelimiter(p.netloc[k]) && !IsUnsafe(p.netloc[k]))
    && !BracketMismatch(p.netloc)
    && (p.netloc != [] ==> p.path == [] || p.path[0] == '/')
    && (forall k :: 0 <= k < |p.path| ==> p.path[k] != '?' && p.path[k] != '#' && !IsUnsafe(p.path[k]))
    && (p.scheme in UsesParams ==> NoParams(p.path))
  }

  /** urlparse: `None` where Python raises ValueError. */
  function Parse(url: string): (r: Option<ParseResult>)
    ensures r.Some? ==> WellFormed(r.value)
  {
    match Split(url)
    case None => None
    case Some(s) =>
      ParamsCutWellFormed(s);
      var parts := if s.scheme in UsesParams && ';' in s.path then SplitParams(s.path) else (s.path, "");
      Some(ParseResult(s.scheme, s.netloc, parts.0, parts.1, s.query, s.fragment))
  }

  /** urlparse's cut of a well-formed split result is well formed. */
  lemma ParamsCutWellFormed(s: SplitResult)
    requires SplitWellFormed(s)
    ensures var parts := if s.scheme in UsesParams && ';' in s.path then SplitParams(s.path) else (s.path, "");
      WellFormed(ParseResult(s.scheme, s.netloc, parts.0, parts.1, s.query, s.fragment))
  {
    if s.scheme in UsesParams && ';' in s.path {
      var parts := SplitParams(s.path);
      ParsedWellFormed(s, parts.0, parts.1);
    } else {
      ParsedWellFormed(s, s.path, "");
    }
  }

  /** Cutting `;params` off a well-formed split path keeps it well formed. */
  lemma ParsedWellFormed(s: SplitResult, path: string, params: string)
    requires SplitWellFormed(s)
    requires |path| <= |s.path| && path == s.path[..|path|]
    requires s.path != [] && s.path[0] == '/' ==> path != [] && path[0] == '/'
    requires s.scheme in UsesParams && ';' in s.path ==> NoParams(path)
    requires ';' !in s.path ==> path == s.path
    ensures WellFormed(ParseResult(s.scheme, s.netloc, path, params, s.query, s.fragment))
  {
    assert forall k :: 0 <= k < |path| ==> path[k] == s.path[k];
    if ';' !in s.path {
      assert forall j :: 0 <= j < |path| ==> path[j] != ';';
    }
  }

  /** urlsplit in full: after the stripping, the input is the scheme (as
      SplitScheme cuts it), the "//"-led network location, then the path,
      the query after the first '?' and the fragment after the first '#';
      it raises exactly on a network location with unbalanced brackets. */
  lemma SplitReassembles(url: string)
    ensures var u := RemoveUnsafe(LStrip(url));
      var sc := SplitScheme(u);
      var nl := Netloc(sc.1);
      && (Split(url).None? <==> BracketMismatch(nl.0))
      && (Split(url).Some? ==>
            var s := Split(url).value;
            && s.scheme == sc.0 && s.netloc == nl.0 && '#' !in s.query
            && ('?' !in SplitOnce(nl.1, '#').0 ==> s.query == "")
            && ('#' !in nl.1 ==> s.fragment == "")
            && nl.1 == s.path
                       + (if '?' in SplitOnce(nl.1, '#').0 then "?" + s.query else "")
                       + (if '#' in nl.1 then "#" + s.fragment else ""))
  {
    var u := RemoveUnsafe(LStrip(url));
    var sc := SplitScheme(u);
    var nl := Netloc(sc.1);
    var f := SplitOnce(nl.1, '#');
    var q := SplitOnce(f.0, '?');
    assert Split(url) == if BracketMismatch(nl.0) then None else Some(SplitResult(sc.0, nl.0, q.0, q.1, f.1));
    QueryFragmentReassemble(nl.1);
  }

  /** What follows the network location is the path, then "?" and the
      query when there is a '?' before any '#', then "#" and the fragment. */
  lemma QueryFragmentReassemble(rest: string)
    ensures var f := SplitOnce(rest, '#');
      var q := SplitOnce(f.0, '?');
      rest == q.0 + (if '?' in f.0 then "?" + q.1 else "") + (if '#' in rest then "#" + f.1 else "")
  {
    var f := SplitOnce(rest, '#');
    var q := SplitOnce(f.0, '?');
    var query := if '?' in f.0 then "?" + q.1 else "";
    var fragment := if '#' in rest then "#" + f.1 else "";
    SplitOnceJoin(f.0, '?');
    SplitOnceJoin(rest, '#');
    assert rest == (q.0 + query) + fragment;
  }

  /** A string cut once at `c` is the part before, then `c` and the part
      after when `c` occurs. */
  lemma SplitOnceJoin(s: string, c: char)
    ensures s == SplitOnce(s, c).0 + (if c in s then [c] + SplitOnce(s, c).1 else [])
  {
    if c in s {
      assert s == SplitOnce(s, c).0 + [c] + SplitOnce(s, c).1;
    }
  }

  /** urlparse in full: urlsplit's parts, with the path's last segment cut
      at its first ';' into path and params for the schemes that use
      params, and otherwise the whole path with no params. */
  lemma ParseReassembles(url: string)
    ensures Parse(url).None? <==> Split(url).None?
    ensures Parse(url).Some? ==>
      var s, p := Split(url).value, Parse(url).value;
      && p.scheme == s.scheme && p.netloc == s.netloc && p.query == s.query && p.fragment == s.fragment
      && (if s.scheme in UsesParams && !NoParams(s.path)
          then s.path == p.path + ";" + p.params && SegmentStart(s.path) <= |p.path|
          else p.path == s.path && p.params == "")
  {
    if Split(url).Some? {
      var s := Split(url).value;
      if s.scheme in UsesParams && !NoParams(s.path) {
        assert ';' in s.path;
      } else if s.scheme in UsesParams && ';' in s.path {
        assert SplitParams(s.path) == (s.path, "");
      }
    }
  }

  // ---------------------------------------------------------------------
  // urlunparse and normalize_url
  // ---------------------------------------------------------------------

  /** urlunparse((scheme, netloc, path, '', '', '')) for a non-empty network
      location (the only way normalize_url calls it). */
  function Unparse(scheme: string, netloc: string, path: string): string
    requires netloc != []
  {
    var url := "//" + netloc + (if path != [] && path[0] != '/' then "/" + path else path);
    if scheme != [] then scheme + ":" + url else url
  }

  /** The input parses with both a scheme and a network location. */
  predicate IsUrl(url: string) {
    Parse(url).Some? && Parse(url).value.scheme != [] && Parse(url).value.netloc != []
  }

  /** The path without one trailing '/', unless the path is exactly "/". */
  function TrimSlash(path: string): (r: string)
    ensures path != "/" && path != [] && path[|path| - 1] == '/' ==> r == path[..|path| - 1]
    ensures path == "/" || path == [] || path[|path| - 1] != '/' ==> r == path
  {
    if path != "/" && path != [] && path[|path| - 1] == '/' then path[..|path| - 1] else path
  }

  /** normalize_url: a string that is not a URL comes back unchanged; a URL
      is rebuilt from its scheme, network location and path alone (params,
      query and fragment dropped), less one trailing '/' unless the path is
      the root. It never fails: a parse error returns the input. */
  function Normalize(url: string): (r: string)
    ensures !IsUrl(url) ==> r == url
    ensures IsUrl(url) ==>
      var p := Parse(url).value;
      r == p.scheme + "://" + p.netloc + TrimSlash(p.path)
    ensures IsUrl(url) ==> '?' !in r && '#' !in r
  {
    match Parse(url)
    case None => url
    case Some(p) =>
      if p.scheme == [] || p.netloc == [] then url
      else
        RebuildShape(p);
        Rebuild(p)
  }

  /** Lines 35-39 of normalize_url: unparse, then drop one trailing '/'
      unless the path is "/". */
  function Rebuild(p: ParseResult): string
    requires p.netloc != []
  {
    var n := Unparse(p.scheme, p.netloc, p.path);
    if n != [] && n[|n| - 1] == '/' && p.path != "/" then n[..|n| - 1] else n
  }

  /** For a well-formed parse, the rebuilt URL is scheme "://" netloc and the
      trimmed path, and holds no '?' or '#'. */
  lemma RebuildShape(p: ParseResult)
    requires WellFormed(p) && p.scheme != [] && p.netloc != []
    ensures Rebuild(p) == p.scheme + "://" + p.netloc + TrimSlash(p.path)
    ensures '?' !in Rebuild(p) && '#' !in Rebuild(p)
  {
    var n := Unparse(p.scheme, p.netloc, p.path);
    assert n == p.scheme + "://" + p.netloc + p.path;
    var r := p.scheme + "://" + p.netloc + TrimSlash(p.path);
    if p.path == [] {
      assert n[|n| - 1] == p.netloc[|p.netloc| - 1];
    } else if p.path != "/" && p.path[|p.path| - 1] == '/' {
      assert n[..|n| - 1] == r;
    }
    assert Rebuild(p) == r;
    var t := TrimSlash(p.path);
    assert forall k :: 0 <= k < |t| ==> t[k] == p.path[k];
    forall k | 0 <= k < |r|
      ensures r[k] != '?' && r[k] != '#'
    {
      if k < |p.scheme| {
        assert r[k] == p.scheme[k];
      } else if k < |p.scheme| + 3 {
      } else if k < |p.scheme| + 3 + |p.netloc| {
        assert r[k] == p.netloc[k - |p.scheme| - 3];
      } else {
        assert r[k] == t[k - |p.scheme| - 3 - |p.netloc|];
      }
    }
  }

  // ---------------------------------------------------------------------
  // Normalizing twice
  // ---------------------------------------------------------------------

  /** The pieces a normalized URL is built from, as urlsplit leaves them. */
  predicate Buildable(scheme: string, netloc: string, path: string) {
    && IsScheme(scheme) && scheme != []
    && netloc != [] && !BracketMismatch(netloc)
    && (forall k :: 0 <= k < |netloc| ==> !IsNetlocDelimiter(netloc[k]) && !IsUnsafe(netloc[k]))
    && (path == [] || path[0] == '/')
    && (forall k :: 0 <= k < |path| ==> path[k] != '?' && path[k] != '#' && !IsUnsafe(path[k]))
  }

  lemma LowerFixesScheme(scheme: string)
    requires IsScheme(scheme)
    ensures Lower(scheme) == scheme
  {
  }

  lemma BuiltIsClean(scheme: string, netloc: string, path: string)
    requires Buildable(scheme, netloc, path)
    ensures Clean(scheme + "://" + netloc + path)
  {
    var u := scheme + "://" + netloc + path;
    forall k | 0 <= k < |u| ensures !IsUnsafe(u[k]) {
      if k < |scheme| {
        assert u[k] == scheme[k];
      } else if k < |scheme| + 3 {
      } else if k < |scheme| + 3 + |netloc| {
        assert u[k] == netloc[k - |scheme| - 3];
      } else {
        assert u[k] == path[k - |scheme| - 3 - |netloc|];
      }
    }
  }

  lemma SplitSchemeBuilt(scheme: string, rest: string)
    requires IsScheme(scheme) && scheme != []
    ensures SplitScheme(scheme + ":" + rest) == (scheme, rest)
  {
    var u := scheme + ":" + rest;
    var i := FindFrom(u, ':', 0);
    assert u[|scheme|] == ':';
    assert forall k :: 0 <= k < |scheme| ==> u[k] == scheme[k];
    assert i == |scheme|;
    assert u[..i] == scheme;
    LowerFixesScheme(scheme);
    assert u[i + 1..] == rest;
  }

  lemma NetlocBuilt(netloc: string, path: string)
    requires forall k :: 0 <= k < |netloc| ==> !IsNetlocDelimiter(netloc[k])
    requires path == [] || path[0] == '/'
    ensures Netloc("//" + netloc + path) == (netloc, path)
  {
    var rest := "//" + netloc + path;
    var d := FindDelimiter(rest, 2);
    assert forall k :: 0 <= k < |netloc| ==> rest[2 + k] == netloc[k];
    if path != [] {
      assert rest[2 + |netloc|] == path[0];
    }
    assert d == 2 + |netloc|;
    assert rest[2..d] == netloc && rest[d..] == path;
  }

  /** Splitting scheme "://" netloc path gives back exactly those pieces,
      with no query and no fragment. */
  lemma SplitBuilt(scheme: string, netloc: string, path: string)
    requires Buildable(scheme, netloc, path)
    ensures Split(scheme + "://" + netloc + path) == Some(SplitResult(scheme, netloc, path, "", ""))
  {
    var rest := "//" + netloc + path;
    var u := scheme + ":" + rest;
    assert scheme + "://" + netloc + path == u;
    BuiltIsClean(scheme, netloc, path);
    assert LStrip(u) == u;
    assert RemoveUnsafe(u) == u;
    SplitSchemeBuilt(scheme, rest);
    NetlocBuilt(netloc, path);
    assert SplitOnce(path, '#') == (path, "");
    assert SplitOnce(path, '?') == (path, "");
  }

  /** urlparse of scheme "://" netloc path: the path loses its `;params`
      when the scheme uses them. */
  lemma ParseBuilt(scheme: string, netloc: string, path: string)
    requires Buildable(scheme, netloc, path)
    ensures var cut := if scheme in UsesParams && ';' in path then SplitParams(path) else (path, "");
      Parse(scheme + "://" + netloc + path) == Some(ParseResult(scheme, netloc, cut.0, cut.1, "", ""))
  {
    SplitBuilt(scheme, netloc, path);
  }

  /** For a scheme that uses params (rtsps among them, as in CPython
      3.12), normalizing a URL whose last path segment holds a ';' keeps
      only the path before that ';'. */
  lemma ParamsDropped(scheme: string, netloc: string, path: string)
    requires Buildable(scheme, netloc, path) && scheme in UsesParams && !NoParams(path)
    ensures "rtsps" in UsesParams
    ensures Normalize(scheme + "://" + netloc + path) == scheme + "://" + netloc + TrimSlash(SplitParams(path).0)
    ensures |SplitParams(path).0| < |path|
  {
    assert ';' in path;
    ParseBuilt(scheme, netloc, path);
  }

  /** The path urlparse leaves once it has cut off the `;params`. */
  function ParamsCut(scheme: string, path: string): (r: string)
    ensures |r| <= |path| && r == path[..|r|]
    ensures path != [] && path[0] == '/' ==> r != [] && r[0] == '/'
    ensures scheme in UsesParams ==> NoParams(r)
    ensures scheme !in UsesParams || NoParams(path) ==> r == path
  {
    if scheme in UsesParams && ';' in path then SplitParams(path).0 else path
  }

  lemma PrefixBuildable(scheme: string, netloc: string, path: string, n: nat)
    requires Buildable(scheme, netloc, path)
    requires n <= |path| && (path == [] || n > 0)
    ensures Buildable(scheme, netloc, path[..n])
  {
  }

  /** Normalizing a normalized URL re-parses it, cuts any `;params` the
      trimmed path exposes and trims one more trailing '/'. */
  lemma NormalizeTwice(url: string)
    requires IsUrl(url)
    ensures var p := Parse(url).value;
      && IsUrl(Normalize(url))
      && Normalize(Normalize(url)) ==
         p.scheme + "://" + p.netloc + TrimSlash(ParamsCut(p.scheme, TrimSlash(p.path)))
  {
    var p := Parse(url).value;
    var t := TrimSlash(p.path);
    assert Buildable(p.scheme, p.netloc, p.path);
    PrefixBuildable(p.scheme, p.netloc, p.path, |t|);
    assert t == p.path[..|t|];
    ParseBuilt(p.scheme, p.netloc, t);
    var q := Parse(Normalize(url)).value;
    assert q.scheme == p.scheme && q.netloc == p.netloc;
    assert q.path == ParamsCut(p.scheme, t);
    assert WellFormed(q);
    RebuildShape(q);
  }

  /** The paths for which a second normalization changes nothing: they do
      not end in "//" (the path "//" itself aside), and trimming their
      trailing '/' exposes no `;params`. */
  predicate StablePath(scheme: string, path: string) {
    && !(|path| >= 3 && path[|path| - 2..] == "//")
    && (scheme in UsesParams ==> NoParams(TrimSlash(path)))
  }

  /** On paths: trimming after a trim and a params cut is a no-op exactly
      for the stable paths, and otherwise makes the path shorter. */
  lemma TrimStable(scheme: string, path: string)
    ensures StablePath(scheme, path) ==> TrimSlash(ParamsCut(scheme, TrimSlash(path))) == TrimSlash(path)
    ensures !StablePath(scheme, path) ==> |TrimSlash(ParamsCut(scheme, TrimSlash(path)))| < |TrimSlash(path)|
  {
    var t := TrimSlash(path);
    var c := ParamsCut(scheme, t);
    if |path| >= 2 {
      assert path[|path| - 2..] == [path[|path| - 2], path[|path| - 1]];
    }
    if path != "/" && path != [] && path[|path| - 1] == '/' && |path| >= 2 {
      assert t[|t| - 1] == path[|path| - 2];
    }
    if !StablePath(scheme, path) {
      if scheme in UsesParams && !NoParams(t) {
        assert ';' in t by {
          var j :| SegmentStart(t) <= j < |t| && t[j] == ';';
        }
        var i := if '/' in t then FindFrom(t, ';', LastIndex(t, '/')) else FindFrom(t, ';', 0);
        assert |c| < |t|;
      } else {
        assert |path| >= 3 && path[|path| - 2..] == "//";
        assert t == path[..|path| - 1] && t[|t| - 1] == '/' && |t| >= 2;
        assert NoParams(t) by { assert LastIndex(t, '/') == |t| - 1; }
        assert c == t;
      }
    }
  }

  /** Normalizing a URL twice gives the same as normalizing it once exactly
      when its path is stable; otherwise the second result is shorter. */
  lemma NormalizeIdempotent(url: string)
    requires IsUrl(url)
    ensures var p := Parse(url).value;
      Normalize(Normalize(url)) == Normalize(url) <==> StablePath(p.scheme, p.path)
    ensures var p := Parse(url).value;
      !StablePath(p.scheme, p.path) ==> |Normalize(Normalize(url))| < |Normalize(url)|
  {
    var p := Parse(url).value;
    NormalizeTwice(url);
    TrimStable(p.scheme, p.path);
  }
}
