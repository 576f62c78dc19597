/**
 url.Parse, as far as the middleware looks at its result: the scheme, but for its case, the
 host and the path. A character stands for a byte. Which authorities are well-formed, and
 what host they name, is up to a parameter.
 */
module Urls {
  import opened Wrappers
  import Text

  datatype Url = Url(scheme: string, host: string, path: string)

  predicate IsControl(c: char) {
    c < ' ' || c == '\U{007F}'
  }

  predicate IsLetter(c: char) {
    'a' <= c <= 'z' || 'A' <= c <= 'Z'
  }

  predicate IsSchemeChar(c: char) {
    IsLetter(c) || '0' <= c <= '9' || c == '+' || c == '-' || c == '.'
  }

  predicate IsScheme(s: string) {
    s != "" && IsLetter(s[0]) && forall i :: 0 <= i < |s| ==> IsSchemeChar(s[i])
  }

  function HexValue(c: char): (r: Option<int>)
    ensures r.Some? ==> 0 <= r.value < 16
  {
    if '0' <= c <= '9' then Some(c as int - '0' as int)
    else if 'a' <= c <= 'f' then Some(c as int - 'a' as int + 10)
    else if 'A' <= c <= 'F' then Some(c as int - 'A' as int + 10)
    else None
  }

  /** The digits of sixteen, from ten on in either case. */
  lemma HexValueIff(c: char, n: int)
    requires 0 <= n < 16
    ensures HexValue(c) == Some(n) <==> c == "0123456789abcdef"[n] || c == "0123456789ABCDEF"[n]
  {
    if n < 10 {
      assert "0123456789abcdef"[n] == "0123456789ABCDEF"[n] == (n + '0' as int) as char;
    } else {
      assert "0123456789abcdef"[n] == (n - 10 + 'a' as int) as char;
      assert "0123456789ABCDEF"[n] == (n - 10 + 'A' as int) as char;
    }
  }

  function Prefixed(c: char, r: Option<string>): Option<string> {
    if r.None? then None else Some([c] + r.value)
  }

  /** Percent-decoding; a percent sign without two hexadecimal digits behind it is an error. */
  function Unescape(s: string): (r: Option<string>)
    ensures r.Some? ==> |r.value| <= |s|
  {
    if s == "" then Some("")
    else if s[0] != '%' then Prefixed(s[0], Unescape(s[1..]))
    else if |s| < 3 || HexValue(s[1]).None? || HexValue(s[2]).None? then None
    else Prefixed((HexValue(s[1]).value * 16 + HexValue(s[2]).value) as char, Unescape(s[3..]))
  }

  /** strings.Cut: what stands before the first c, and what behind it. */
  function Cut(s: string, c: char): (string, string) {
    if c in s then Text.CutAt(s, c).value else (s, "")
  }

  function SchemeLength(s: string): (n: nat)
    ensures n <= |s| && (forall i :: 0 <= i < n ==> IsSchemeChar(s[i])) && (n < |s| ==> !IsSchemeChar(s[n]))
  {
    if s == "" || !IsSchemeChar(s[0]) then 0 else 1 + SchemeLength(s[1..])
  }

  /** The scheme, empty if there is none, and the rest; a colon with nothing before it is an error. */
  function SplitScheme(s: string): Option<(string, string)> {
    var n := SchemeLength(s);
    if n == |s| || s[n] != ':' then Some(("", s))
    else if n == 0 then None
    else if IsLetter(s[0]) then Some((s[..n], s[n + 1..]))
    else Some(("", s))
  }

  predicate HasPrefix(s: string, prefix: string) {
    prefix <= s
  }

  function WithPath(scheme: string, host: string, escaped: string): Option<Url> {
    match Unescape(escaped)
    case None => None
    case Some(path) => Some(Url(scheme, host, path))
  }

  /** What is left behind the scheme, without query and fragment. */
  function ParseRest(authority: string -> Option<string>, scheme: string, rest: string): Option<Url> {
    if !HasPrefix(rest, "/") && scheme != "" then Some(Url(scheme, "", ""))
    else if !HasPrefix(rest, "/") && ':' in Cut(rest, '/').0 then None
    else if HasPrefix(rest, "//") && (scheme != "" || !HasPrefix(rest, "///")) then
      var n := Text.IndexOf(rest[2..], '/');
      match authority(rest[2..][..n])
      case None => None
      case Some(host) => WithPath(scheme, host, rest[2..][n..])
    else WithPath(scheme, "", rest)
  }

  /** A URL without its fragment. */
  function ParseFront(authority: string -> Option<string>, url: string): Option<Url> {
    match SplitScheme(url)
    case None => None
    case Some((scheme, rest)) => ParseRest(authority, scheme, Cut(rest, '?').0)
  }

  predicate HasControl(s: string) {
    exists i :: 0 <= i < |s| && IsControl(s[i])
  }

  function Parse(authority: string -> Option<string>, raw: string): Option<Url> {
    var (url, fragment) := Cut(raw, '#');
    if HasControl(url) || Unescape(fragment).None? then None else ParseFront(authority, url)
  }

  // ---------------------------------------------------------------- a URL put together again

  /** An authority that ends where it should. */
  predicate IsAuthority(s: string) {
    forall i :: 0 <= i < |s| ==> s[i] != '/' && s[i] != '?' && s[i] != '#' && !IsControl(s[i])
  }

  predicate IsPlain(c: char) {
    c != '%' && c != '?' && c != '#' && !IsControl(c)
  }

  predicate IsPlainPath(path: string) {
    forall i :: 0 <= i < |path| ==> IsPlain(path[i])
  }

  /** The path is empty or starts with a slash. */
  predicate IsRooted(path: string) {
    path == "" || path[0] == '/'
  }

  /** What becomes of a path that is pasted behind an authority and parsed again. */
  function Reparsed(path: string): Option<string> {
    var (front, fragment) := Cut(path, '#');
    if HasControl(front) || Unescape(fragment).None? then None
    else Unescape(Cut(front, '?').0)
  }

  lemma {:induction false} IndexBehind(a: string, b: string, c: char)
    requires c !in a
    ensures Text.IndexOf(a + b, c) == |a| + Text.IndexOf(b, c)
  {
    if a == "" {
      assert a + b == b;
    } else {
      assert (a + b)[1..] == a[1..] + b;
      IndexBehind(a[1..], b, c);
    }
  }

  lemma CutBehind(a: string, b: string, c: char)
    requires c !in a
    ensures Cut(a + b, c) == (a + Cut(b, c).0, Cut(b, c).1)
  {
    IndexBehind(a, b, c);
    var n := Text.IndexOf(b, c);
    assert (a + b)[..|a| + n] == a + b[..n];
    if n < |b| {
      assert (a + b)[|a| + n + 1..] == b[n + 1..];
    }
  }

  lemma {:induction false} SchemeEnds(scheme: string, rest: string)
    requires (forall i :: 0 <= i < |scheme| ==> IsSchemeChar(scheme[i])) && rest != "" && !IsSchemeChar(rest[0])
    ensures SchemeLength(scheme + rest) == |scheme|
  {
    if scheme == "" {
      assert scheme + rest == rest;
    } else {
      assert (scheme + rest)[1..] == scheme[1..] + rest;
      SchemeEnds(scheme[1..], rest);
    }
  }

  lemma SchemeSplits(scheme: string, rest: string)
    requires IsScheme(scheme)
    ensures SplitScheme(scheme + (":" + rest)) == Some((scheme, rest))
  {
    SchemeEnds(scheme, ":" + rest);
    var s := scheme + (":" + rest);
    assert s[..|scheme|] == scheme && s[|scheme| + 1..] == rest;
  }

  lemma CutKeepsRoot(path: string, c: char)
    requires IsRooted(path) && c != '/'
    ensures IsRooted(Cut(path, c).0)
  {
  }

  lemma RestSplits(authority: string -> Option<string>, scheme: string, host: string, name: string, path: string)
    requires IsScheme(scheme) && IsAuthority(host) && authority(host) == Some(name) && IsRooted(path)
    ensures ParseRest(authority, scheme, "//" + (host + path)) == WithPath(scheme, name, path)
  {
    var rest := "//" + (host + path);
    IndexBehind(host, path, '/');
    assert rest[2..] == host + path;
    assert path == "" || Text.IndexOf(path, '/') == 0;
    assert (host + path)[..|host|] == host && (host + path)[|host|..] == path;
  }

  lemma Regroup(scheme: string, host: string, front: string)
    ensures scheme + "://" + host + front == scheme + (":" + ("//" + host + front))
  {
  }

  lemma SlashesFirst(host: string, path: string)
    ensures "//" + host + path == "//" + (host + path)
  {
  }

  lemma FrontParses(authority: string -> Option<string>, scheme: string, host: string, name: string, front: string)
    requires IsScheme(scheme) && IsAuthority(host) && authority(host) == Some(name) && IsRooted(front)
    ensures ParseFront(authority, scheme + "://" + host + front) == WithPath(scheme, name, Cut(front, '?').0)
  {
    var kept, rest := Cut(front, '?').0, "//" + host + front;
    Regroup(scheme, host, front);
    SchemeSplits(scheme, rest);
    CutBehind("//" + host, front, '?');
    SlashesFirst(host, kept);
    CutKeepsRoot(front, '?');
    RestSplits(authority, scheme, host, name, kept);
    assert ParseFront(authority, scheme + (":" + rest)) == ParseRest(authority, scheme, Cut(rest, '?').0);
  }

  lemma ControlBehind(a: string, b: string)
    requires !HasControl(a)
    ensures HasControl(a + b) <==> HasControl(b)
  {
    if i :| 0 <= i < |b| && IsControl(b[i]) {
      assert (a + b)[|a| + i] == b[i];
    }
  }

  lemma OriginIsClean(scheme: string, host: string)
    requires IsScheme(scheme) && IsAuthority(host)
    ensures '#' !in scheme + "://" + host && !HasControl(scheme + "://" + host)
  {
    ControlBehind(scheme, "://");
    ControlBehind(scheme + "://", host);
  }

  /** Scheme and authority come back as they were; the path may not. */
  lemma ParseRebuilt(authority: string -> Option<string>, scheme: string, host: string, name: string, path: string)
    requires IsScheme(scheme) && IsAuthority(host) && authority(host) == Some(name) && IsRooted(path)
    ensures Parse(authority, scheme + "://" + host + path) ==
            match Reparsed(path) { case None => None case Some(p) => Some(Url(scheme, name, p)) }
  {
    var origin, front := scheme + "://" + host, Cut(path, '#').0;
    OriginIsClean(scheme, host);
    CutBehind(origin, path, '#');
    ControlBehind(origin, front);
    CutKeepsRoot(path, '#');
    FrontParses(authority, scheme, host, name, front);
  }

  lemma {:induction false} UnescapeIff(s: string)
    ensures Unescape(s) == Some(s) <==> '%' !in s
    ensures '%' in s && Unescape(s).Some? ==> |Unescape(s).value| < |s|
  {
    if s != "" && s[0] != '%' {
      UnescapeIff(s[1..]);
      assert s == [s[0]] + s[1..];
    }
  }

  /** A path is parsed back as it was exactly if all its characters are plain. */
  lemma ReparsedIff(path: string)
    ensures Reparsed(path) == Some(path) <==> IsPlainPath(path)
  {
    var front := Cut(path, '#').0;
    var kept := Cut(front, '?').0;
    UnescapeIff(kept);
    if '#' !in path && '?' !in path {
      assert front == path && kept == path && Cut(path, '#').1 == "";
      assert IsPlainPath(path) <==> '%' !in path && !HasControl(path);
    } else {
      assert |kept| < |path|;
    }
  }

  function HexDigit(n: int): char
    requires 0 <= n < 16
  {
    "0123456789ABCDEF"[n]
  }

  function EscapeChar(c: char): string {
    if IsPlain(c) then [c] else ['%', HexDigit(c as int / 16), HexDigit(c as int % 16)]
  }

  /** The path as a client has to write it in a URL. */
  function EscapePath(path: string): string {
    if path == "" then "" else EscapeChar(path[0]) + EscapePath(path[1..])
  }

  lemma HexDigitIs(n: int)
    requires 0 <= n < 16
    ensures HexValue(HexDigit(n)) == Some(n) && IsPlain(HexDigit(n))
  {
  }

  lemma UnescapeChar(c: char, rest: string)
    ensures Unescape(EscapeChar(c) + rest) == Prefixed(c, Unescape(rest))
    ensures IsEscaped(EscapeChar(c))
  {
    var s := EscapeChar(c) + rest;
    if IsPlain(c) {
      assert s[1..] == rest;
    } else {
      HexDigitIs(c as int / 16);
      HexDigitIs(c as int % 16);
      assert s[3..] == rest;
    }
  }

  /** Nothing in it ends a path. */
  predicate IsEscaped(s: string) {
    forall i :: 0 <= i < |s| ==> s[i] == '%' || IsPlain(s[i])
  }

  lemma {:induction false} UnescapeEscaped(path: string)
    ensures Unescape(EscapePath(path)) == Some(path) && IsEscaped(EscapePath(path))
  {
    if path != "" {
      UnescapeEscaped(path[1..]);
      UnescapeChar(path[0], EscapePath(path[1..]));
      assert path == [path[0]] + path[1..];
    }
  }

  lemma ReparseEscaped(s: string)
    requires IsEscaped(s)
    ensures Reparsed(s) == Unescape(s)
  {
    assert !('#' in s) && !('?' in s);
    assert s[..|s|] == s;
  }

  /** Written with its path escaped, a URL is parsed to that path. */
  lemma ParseEscaped(authority: string -> Option<string>, scheme: string, host: string, name: string, path: string)
    requires IsScheme(scheme) && IsAuthority(host) && authority(host) == Some(name) && IsRooted(path)
    ensures Parse(authority, scheme + "://" + host + EscapePath(path)) == Some(Url(scheme, name, path))
  {
    UnescapeEscaped(path);
    ReparseEscaped(EscapePath(path));
    ParseRebuilt(authority, scheme, host, name, EscapePath(path));
  }

  lemma RestIsRooted(authority: string -> Option<string>, scheme: string, rest: string)
    requires scheme != ""
    ensures
      var url := ParseRest(authority, scheme, rest);
      url.Some? ==> IsRooted(url.value.path)
  {
    if HasPrefix(rest, "//") {
      var tail := rest[2..];
      assert IsRooted(tail[Text.IndexOf(tail, '/')..]);
    }
  }

  lemma NoScheme(authority: string -> Option<string>, rest: string)
    ensures
      var url := ParseRest(authority, "", rest);
      url.Some? ==> url.value.scheme == ""
  {
  }

  /** The path of a URL with a scheme is empty or starts with a slash. */
  lemma ParsedIsRooted(authority: string -> Option<string>, raw: string)
    requires Parse(authority, raw).Some? && Parse(authority, raw).value.scheme != ""
    ensures IsRooted(Parse(authority, raw).value.path)
  {
    var split := SplitScheme(Cut(raw, '#').0);
    if split.Some? {
      var (scheme, rest) := split.value;
      NoScheme(authority, Cut(rest, '?').0);
      if scheme != "" {
        RestIsRooted(authority, scheme, Cut(rest, '?').0);
      }
    }
  }
}
