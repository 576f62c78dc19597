/**
 Authentication errors and the WWW-Authenticate challenges printed from them
 (bearer_errors.go), with a parser of the challenge grammar of sections 5.6.4 and 11.2
 of RFC 9110 to read them back.
 */
module Challenge {
  import opened Wrappers
  import Text

  // ---------------------------------------------------------------- errors

  datatype AuditOutcome = Unset | Allow | Deny | Error

  datatype AuditKind = Default | TokenValidated | TokenRejected | DPoPVerified | DPoPRejected | JTIReplay

  /** The codes that errors are made with; NoCode stands for the empty string. */
  datatype Code = NoCode | InvalidTokenCode | InsufficientScopeCode | UseDPoPNonceCode

  datatype Scheme = Bearer | DPoP

  function CodeText(code: Code): string {
    match code
    case NoCode => ""
    case InvalidTokenCode => "invalid_token"
    case InsufficientScopeCode => "insufficient_scope"
    case UseDPoPNonceCode => "use_dpop_nonce"
  }

  function SchemeText(scheme: Scheme): string {
    match scheme
    case Bearer => "Bearer"
    case DPoP => "DPoP"
  }

  datatype AuthError = AuthError(
    status: int,
    code: Code,
    description: string,
    scopes: seq<string>,
    scheme: Scheme,
    algs: seq<string>,
    nonce: string,
    withBearer: bool,
    reason: string,
    auditOutcome: AuditOutcome,
    auditKind: AuditKind)

  const BARE := AuthError(401, NoCode, "", [], Bearer, [], "", false, "", Unset, Default)

  function NoToken(): AuthError { BARE }

  function InvalidToken(description: string): AuthError {
    BARE.(code := InvalidTokenCode, description := description)
  }

  function InsufficientScope(required: seq<string>): AuthError {
    BARE.(status := 403, code := InsufficientScopeCode,
          description := "the request requires higher privileges than provided by the access token",
          scopes := required)
  }

  function DPoPRequired(algs: seq<string>): AuthError {
    BARE.(scheme := DPoP, algs := algs)
  }

  function NoTokenDPoPOptional(algs: seq<string>): AuthError {
    BARE.(scheme := DPoP, algs := algs, withBearer := true)
  }

  function WrongScheme(algs: seq<string>): AuthError {
    BARE.(code := InvalidTokenCode, description := "the access token requires a DPoP proof", scheme := DPoP,
          algs := algs)
  }

  function InvalidDPoPProof(reason: string): AuthError {
    BARE.(code := InvalidTokenCode, description := "the DPoP proof is invalid", scheme := DPoP, reason := reason)
  }

  function UseDPoPNonce(algs: seq<string>): AuthError {
    BARE.(code := UseDPoPNonceCode, description := "authorization server requires nonce in DPoP proof",
          scheme := DPoP, algs := algs)
  }

  // ---------------------------------------------------------------- printing

  /** What the %q verb prints as it stands; which characters outside ASCII it does is up to unicode. */
  predicate Verbatim(c: char, unicode: char -> bool) {
    if c < '\U{0080}' then ' ' <= c <= '~' else unicode(c)
  }

  function Hex(n: nat, width: nat): string {
    if width == 0 then "" else Hex(n / 16, width - 1) + ["0123456789abcdef"[n % 16]]
  }

  /** How the %q verb prints one character. */
  function Escape(c: char, unicode: char -> bool): string {
    if c == '"' || c == '\\' then ['\\', c]
    else if Verbatim(c, unicode) then [c]
    else if c == '\U{0007}' then "\\a"
    else if c == '\U{0008}' then "\\b"
    else if c == '\U{000C}' then "\\f"
    else if c == '\n' then "\\n"
    else if c == '\r' then "\\r"
    else if c == '\t' then "\\t"
    else if c == '\U{000B}' then "\\v"
    else if c < ' ' || c == '\U{007F}' then "\\x" + Hex(c as int, 2)
    else if c < '\U{10000}' then "\\u" + Hex(c as int, 4)
    else "\\U" + Hex(c as int, 8)
  }

  function EscapeAll(v: string, unicode: char -> bool): string {
    if v == "" then "" else Escape(v[0], unicode) + EscapeAll(v[1..], unicode)
  }

  function KV(k: string, v: string, unicode: char -> bool): string {
    k + "=\"" + EscapeAll(v, unicode) + "\""
  }

  function JoinComma(xs: seq<string>): string {
    if xs == [] then ""
    else if |xs| == 1 then xs[0]
    else xs[0] + ", " + JoinComma(xs[1..])
  }

  datatype Param = Param(key: string, value: string)

  function With(params: seq<Param>, emit: bool, key: string, value: string): seq<Param> {
    if emit then params + [Param(key, value)] else params
  }

  /** The parameters of a challenge, in order. */
  function Params(ae: AuthError, realm: string, resourceMeta: string): seq<Param> {
    var ps := With([], realm != "", "realm", realm);
    var ps := With(ps, ae.code != NoCode, "error", CodeText(ae.code));
    var ps := With(ps, ae.code != NoCode && ae.description != "", "error_description", ae.description);
    var ps := With(ps, ae.code == InsufficientScopeCode && ae.scopes != [], "scope", Text.Join(ae.scopes));
    var ps := With(ps, ae.scheme == DPoP && ae.algs != [], "algs", Text.Join(ae.algs));
    With(ps, resourceMeta != "", "resource_metadata", resourceMeta)
  }

  function Printed(params: seq<Param>, unicode: char -> bool): seq<string> {
    if params == [] then [] else [KV(params[0].key, params[0].value, unicode)] + Printed(params[1..], unicode)
  }

  function Render(scheme: Scheme, params: seq<Param>, unicode: char -> bool): string {
    SchemeText(scheme) + " " + JoinComma(Printed(params, unicode))
  }

  lemma {:induction false} PrintedAppend(params: seq<Param>, p: Param, unicode: char -> bool)
    ensures Printed(params + [p], unicode) == Printed(params, unicode) + [KV(p.key, p.value, unicode)]
  {
    if params != [] {
      assert (params + [p])[1..] == params[1..] + [p];
      PrintedAppend(params[1..], p, unicode);
    }
  }

  /** kv, appended to the parameters printed so far. */
  method AppendKV(params: seq<string>, ghost emitted: seq<Param>, emit: bool, key: string, value: string,
                  unicode: char -> bool)
    returns (longer: seq<string>)
    requires params == Printed(emitted, unicode)
    ensures longer == Printed(With(emitted, emit, key, value), unicode)
  {
    longer := params;
    if emit {
      longer := longer + [KV(key, value, unicode)];
      PrintedAppend(emitted, Param(key, value), unicode);
    }
  }

  /** buildChallenge, which appends one parameter after the other. */
  method BuildChallenge(ae: AuthError, realm: string, resourceMeta: string, unicode: char -> bool)
    returns (header: string)
    ensures header == Render(ae.scheme, Params(ae, realm, resourceMeta), unicode)
  {
    ghost var ps: seq<Param> := [];
    var params := AppendKV([], ps, realm != "", "realm", realm, unicode);
    ps := With(ps, realm != "", "realm", realm);
    params := AppendKV(params, ps, ae.code != NoCode, "error", CodeText(ae.code), unicode);
    ps := With(ps, ae.code != NoCode, "error", CodeText(ae.code));
    var described := ae.code != NoCode && ae.description != "";
    params := AppendKV(params, ps, described, "error_description", ae.description, unicode);
    ps := With(ps, described, "error_description", ae.description);
    var scoped := ae.code == InsufficientScopeCode && ae.scopes != [];
    params := AppendKV(params, ps, scoped, "scope", Text.Join(ae.scopes), unicode);
    ps := With(ps, scoped, "scope", Text.Join(ae.scopes));
    var keyed := ae.scheme == DPoP && ae.algs != [];
    params := AppendKV(params, ps, keyed, "algs", Text.Join(ae.algs), unicode);
    ps := With(ps, keyed, "algs", Text.Join(ae.algs));
    params := AppendKV(params, ps, resourceMeta != "", "resource_metadata", resourceMeta, unicode);
    return SchemeText(ae.scheme) + " " + JoinComma(params);
  }

  // ---------------------------------------------------------------- parsing

  predicate IsTchar(c: char) {
    || '0' <= c <= '9' || 'a' <= c <= 'z' || 'A' <= c <= 'Z'
    || c == '!' || '#' <= c <= '\'' || c == '*' || c == '+' || c == '-' || c == '.'
    || '^' <= c <= '`' || c == '|' || c == '~'
  }

  predicate IsToken(s: string) {
    s != "" && forall i :: 0 <= i < |s| ==> IsTchar(s[i])
  }

  predicate IsQdText(c: char) {
    c == '\t' || c == ' ' || c == '!' || '#' <= c <= '[' || ']' <= c <= '~' || c >= '\U{0080}'
  }

  predicate IsQuotable(c: char) {
    c == '\t' || ' ' <= c <= '~' || c >= '\U{0080}'
  }

  function TokenLength(s: string): (n: nat)
    ensures n <= |s| && (forall i :: 0 <= i < n ==> IsTchar(s[i])) && (n < |s| ==> !IsTchar(s[n]))
  {
    if s == "" || !IsTchar(s[0]) then 0 else 1 + TokenLength(s[1..])
  }

  /** Optional white space: SP and HTAB. */
  function SkipBlank(s: string): (rest: string)
    ensures |rest| <= |s|
  {
    if s != "" && (s[0] == ' ' || s[0] == '\t') then SkipBlank(s[1..]) else s
  }

  datatype Parsed<T> = Parsed(value: T, rest: string)

  /** A quoted-string, from behind its opening quote. */
  function ParseQuoted(s: string): (r: Option<Parsed<string>>)
    ensures r.Some? ==> |r.value.rest| < |s|
  {
    if s == "" then None
    else if s[0] == '"' then Some(Parsed("", s[1..]))
    else if s[0] == '\\' then
      if |s| >= 2 && IsQuotable(s[1]) then Prefixed(s[1], ParseQuoted(s[2..])) else None
    else if IsQdText(s[0]) then Prefixed(s[0], ParseQuoted(s[1..]))
    else None
  }

  function Prefixed(c: char, r: Option<Parsed<string>>): Option<Parsed<string>> {
    if r.None? then None else Some(Parsed([c] + r.value.value, r.value.rest))
  }

  /** An auth-param: token BWS "=" BWS ( token / quoted-string ). */
  function ParseParam(s: string): (r: Option<Parsed<Param>>)
    ensures r.Some? ==> |r.value.rest| < |s|
  {
    var n := TokenLength(s);
    var eq := SkipBlank(s[n..]);
    if n == 0 || eq == "" || eq[0] != '=' then None
    else
      var value := SkipBlank(eq[1..]);
      if value != "" && value[0] == '"' then
        (match ParseQuoted(value[1..])
         case None => None
         case Some(p) => Some(Parsed(Param(s[..n], p.value), p.rest)))
      else
        var m := TokenLength(value);
        if m == 0 then None else Some(Parsed(Param(s[..n], value[..m]), value[m..]))
  }

  datatype Separator = End | Comma(rest: string) | Junk

  /** What follows a parameter: the end, a comma and more, or something else. */
  function NextParam(s: string): (r: Separator)
    ensures r.Comma? ==> |r.rest| <= |s|
  {
    var rest := SkipBlank(s);
    if rest == "" then End
    else if rest[0] == ',' then Comma(SkipBlank(rest[1..]))
    else Junk
  }

  /** One or more auth-params between commas, up to the end. */
  function ParseParams(s: string): Option<seq<Param>>
    decreases |s|
  {
    match ParseParam(s)
    case None => None
    case Some(p) =>
      match NextParam(p.rest)
      case Junk => None
      case End => Some([p.value])
      case Comma(rest) =>
        match ParseParams(rest)
        case None => None
        case Some(ps) => Some([p.value] + ps)
  }

  /** A challenge: auth-scheme [ 1*SP auth-params ]. */
  function ParseChallenge(s: string): Option<(string, seq<Param>)> {
    var n := TokenLength(s);
    if n == 0 || (n < |s| && s[n] != ' ') then None
    else
      match OptionalParams(SkipBlank(s[n..]))
      case None => None
      case Some(ps) => Some((s[..n], ps))
  }

  function OptionalParams(s: string): Option<seq<Param>> {
    if s == "" then Some([]) else ParseParams(s)
  }

  // ---------------------------------------------------------------- printed, then parsed

  /** What a parser makes of a printed character: an escape that is not a quoted-pair loses its backslash. */
  function Reread(c: char, unicode: char -> bool): string {
    if c == '"' || c == '\\' || Verbatim(c, unicode) then [c] else Escape(c, unicode)[1..]
  }

  function RereadAll(v: string, unicode: char -> bool): string {
    if v == "" then "" else Reread(v[0], unicode) + RereadAll(v[1..], unicode)
  }

  /** Letters and digits parse as themselves inside a quoted-string. */
  predicate IsPlain(s: string) {
    forall i :: 0 <= i < |s| ==> '0' <= s[i] <= '9' || 'a' <= s[i] <= 'z' || s[i] == 'U'
  }

  lemma {:induction false} HexIsPlain(n: nat, width: nat)
    ensures IsPlain(Hex(n, width)) && |Hex(n, width)| == width
  {
    if width > 0 {
      HexIsPlain(n / 16, width - 1);
    }
  }

  lemma {:induction false} ParsePlain(s: string, rest: string)
    requires IsPlain(s)
    ensures ParseQuoted(s + rest) == Grown(s, ParseQuoted(rest))
  {
    if s == "" {
      assert s + rest == rest;
      assert ParseQuoted(rest).Some? ==> s + ParseQuoted(rest).value.value == ParseQuoted(rest).value.value;
    } else {
      assert (s + rest)[1..] == s[1..] + rest;
      ParsePlain(s[1..], rest);
      assert s == [s[0]] + s[1..];
      GrownTwice([s[0]], s[1..], ParseQuoted(rest));
    }
  }

  /** The shape of an escape that is no quoted-pair of the character itself. */
  lemma EscapeShape(c: char, unicode: char -> bool)
    requires c != '"' && c != '\\' && !Verbatim(c, unicode)
    ensures
      var e := Escape(c, unicode);
      |e| >= 2 && e[0] == '\\' && IsPlain(e[1..]) && e[1] != c
  {
    if c < ' ' || c == '\U{007F}' {
      HexIsPlain(c as int, 2);
    } else if c < '\U{10000}' {
      HexIsPlain(c as int, 4);
    } else {
      HexIsPlain(c as int, 8);
    }
  }

  /** ParseQuoted of a longer text: the value grows in front, the rest stays. */
  function Grown(front: string, r: Option<Parsed<string>>): Option<Parsed<string>> {
    if r.None? then None else Some(Parsed(front + r.value.value, r.value.rest))
  }

  lemma ParsePair(c: char, rest: string)
    requires IsQuotable(c)
    ensures ParseQuoted(['\\', c] + rest) == Grown([c], ParseQuoted(rest))
  {
    assert (['\\', c] + rest)[2..] == rest;
  }

  lemma ParseEscape(c: char, rest: string, unicode: char -> bool)
    ensures ParseQuoted(Escape(c, unicode) + rest) == Grown(Reread(c, unicode), ParseQuoted(rest))
  {
    var e := Escape(c, unicode);
    if c == '"' || c == '\\' {
      ParsePair(c, rest);
    } else if Verbatim(c, unicode) {
      assert (e + rest)[1..] == rest;
    } else {
      EscapeShape(c, unicode);
      ParsePlainEscape(e, rest);
    }
  }

  lemma ParsePlainEscape(e: string, rest: string)
    requires |e| >= 2 && e[0] == '\\' && IsPlain(e[1..])
    ensures ParseQuoted(e + rest) == Grown(e[1..], ParseQuoted(rest))
  {
    var tail := e[2..];
    assert e == ['\\', e[1]] + tail && e[1..] == [e[1]] + tail;
    assert tail == e[1..][1..] && e[1] == e[1..][0];
    ParsePlainPair(e[1], tail, rest);
  }

  lemma ParsePlainPair(c: char, tail: string, rest: string)
    requires IsPlain([c]) && IsPlain(tail)
    ensures ParseQuoted(['\\', c] + tail + rest) == Grown([c] + tail, ParseQuoted(rest))
  {
    Regroup3(['\\', c], tail, rest);
    assert IsQuotable([c][0]);
    ParsePair(c, tail + rest);
    ParsePlain(tail, rest);
    GrownTwice([c], tail, ParseQuoted(rest));
  }

  lemma GrownTwice(a: string, b: string, r: Option<Parsed<string>>)
    ensures Grown(a, Grown(b, r)) == Grown(a + b, r)
  {
    if r.Some? {
      assert a + (b + r.value.value) == (a + b) + r.value.value;
    }
  }

  lemma {:induction false} ParseEscaped(v: string, rest: string, unicode: char -> bool)
    ensures ParseQuoted(EscapeAll(v, unicode) + "\"" + rest) == Some(Parsed(RereadAll(v, unicode), rest))
  {
    if v == "" {
      assert EscapeAll(v, unicode) + "\"" + rest == "\"" + rest;
    } else {
      ParseEscaped(v[1..], rest, unicode);
      ParseEscape(v[0], EscapeAll(v[1..], unicode) + "\"" + rest, unicode);
      Regroup(Escape(v[0], unicode), EscapeAll(v[1..], unicode), "\"", rest);
    }
  }

  lemma Regroup(a: string, b: string, c: string, d: string)
    ensures (a + b) + c + d == a + (b + c + d)
  {
  }

  lemma {:induction false} TokenEnds(token: string, rest: string)
    requires (forall i :: 0 <= i < |token| ==> IsTchar(token[i])) && (rest == "" || !IsTchar(rest[0]))
    ensures TokenLength(token + rest) == |token|
  {
    if token == "" {
      assert token + rest == rest;
    } else {
      assert (token + rest)[1..] == token[1..] + rest;
      TokenEnds(token[1..], rest);
    }
  }

  function RereadParam(p: Param, unicode: char -> bool): Param {
    Param(p.key, RereadAll(p.value, unicode))
  }

  function RereadParams(params: seq<Param>, unicode: char -> bool): seq<Param> {
    if params == [] then [] else [RereadParam(params[0], unicode)] + RereadParams(params[1..], unicode)
  }

  lemma ParseQuotedParam(key: string, quoted: string, value: string, rest: string)
    requires IsToken(key) && ParseQuoted(quoted) == Some(Parsed(value, rest))
    ensures ParseParam(key + ("=\"" + quoted)) == Some(Parsed(Param(key, value), rest))
  {
    var tail := "=\"" + quoted;
    TokenEnds(key, tail);
    assert (key + tail)[..|key|] == key && (key + tail)[|key|..] == tail;
    assert tail[1..][1..] == quoted;
  }

  lemma ParseKV(p: Param, rest: string, unicode: char -> bool)
    requires IsToken(p.key)
    ensures ParseParam(KV(p.key, p.value, unicode) + rest) == Some(Parsed(RereadParam(p, unicode), rest))
  {
    var escaped := EscapeAll(p.value, unicode);
    ParseEscaped(p.value, rest, unicode);
    ParseQuotedParam(p.key, escaped + "\"" + rest, RereadAll(p.value, unicode), rest);
    KVSplit(p.key, escaped, rest);
  }

  lemma KVSplit(key: string, escaped: string, rest: string)
    ensures key + "=\"" + escaped + "\"" + rest == key + ("=\"" + (escaped + "\"" + rest))
  {
  }

  predicate TokenKeys(params: seq<Param>) {
    forall i :: 0 <= i < |params| ==> IsToken(params[i].key)
  }

  lemma ParseOne(s: string, p: Param)
    requires ParseParam(s) == Some(Parsed(p, ""))
    ensures ParseParams(s) == Some([p])
  {
  }

  lemma BlankSkipped(body: string)
    requires body == "" || IsTchar(body[0])
    ensures SkipBlank(" " + body) == body
  {
    assert (" " + body)[1..] == body;
  }

  lemma CommaSkipped(tail: string)
    requires tail != "" && IsTchar(tail[0])
    ensures NextParam(", " + tail) == Comma(tail)
  {
    assert (", " + tail)[1..] == " " + tail;
    BlankSkipped(tail);
  }

  lemma ParseMore(s: string, p: Param, tail: string, ps: seq<Param>)
    requires ParseParam(s) == Some(Parsed(p, ", " + tail))
    requires tail != "" && IsTchar(tail[0]) && ParseParams(tail) == Some(ps)
    ensures ParseParams(s) == Some([p] + ps)
  {
    CommaSkipped(tail);
  }

  lemma KVStarts(p: Param, rest: string, unicode: char -> bool)
    requires IsToken(p.key)
    ensures KV(p.key, p.value, unicode) + rest != "" && IsTchar((KV(p.key, p.value, unicode) + rest)[0])
  {
    assert (KV(p.key, p.value, unicode) + rest)[0] == p.key[0];
  }

  lemma {:induction false} ParsePrinted(params: seq<Param>, unicode: char -> bool)
    requires params != [] && TokenKeys(params)
    ensures
      var s := JoinComma(Printed(params, unicode));
      s != "" && IsTchar(s[0]) && ParseParams(s) == Some(RereadParams(params, unicode))
  {
    var p, kv := params[0], KV(params[0].key, params[0].value, unicode);
    if |params| == 1 {
      ParseKV(p, "", unicode);
      KVStarts(p, "", unicode);
      assert kv + "" == kv == JoinComma(Printed(params, unicode));
      ParseOne(kv, RereadParam(p, unicode));
      assert params[1..] == [] && RereadParams(params, unicode) == [RereadParam(p, unicode)];
    } else {
      var rest := params[1..];
      var tail := JoinComma(Printed(rest, unicode));
      ParsePrinted(rest, unicode);
      JoinPrinted(params, unicode);
      ParseKV(p, ", " + tail, unicode);
      KVStarts(p, ", " + tail, unicode);
      ParseMore(kv + (", " + tail), RereadParam(p, unicode), tail, RereadParams(rest, unicode));
    }
  }

  lemma JoinPrinted(params: seq<Param>, unicode: char -> bool)
    requires |params| >= 2
    ensures
      var kv, tail := KV(params[0].key, params[0].value, unicode), JoinComma(Printed(params[1..], unicode));
      JoinComma(Printed(params, unicode)) == kv + (", " + tail)
  {
    var printed := Printed(params, unicode);
    assert |Printed(params[1..], unicode)| >= 1;
    assert printed[1..] == Printed(params[1..], unicode);
    assert JoinComma(printed) == printed[0] + ", " + JoinComma(printed[1..]);
  }

  lemma ParseScheme(scheme: string, body: string, params: seq<Param>)
    requires IsToken(scheme) && (body == "" || IsTchar(body[0])) && OptionalParams(body) == Some(params)
    ensures ParseChallenge(scheme + (" " + body)) == Some((scheme, params))
  {
    var tail := " " + body;
    TokenEnds(scheme, tail);
    BlankSkipped(body);
    assert (scheme + tail)[..|scheme|] == scheme && (scheme + tail)[|scheme|..] == tail;
  }

  lemma SchemeIsToken(scheme: Scheme)
    ensures IsToken(SchemeText(scheme))
  {
  }

  /** The printed parameters as a whole. */
  lemma ParseBody(params: seq<Param>, unicode: char -> bool)
    requires TokenKeys(params)
    ensures
      var body := JoinComma(Printed(params, unicode));
      (body == "" || IsTchar(body[0])) && OptionalParams(body) == Some(RereadParams(params, unicode))
  {
    if params != [] {
      ParsePrinted(params, unicode);
    }
  }

  lemma Regroup3(a: string, b: string, c: string)
    ensures a + b + c == a + (b + c)
  {
  }

  lemma ParseRendered(scheme: Scheme, params: seq<Param>, unicode: char -> bool)
    requires TokenKeys(params)
    ensures ParseChallenge(Render(scheme, params, unicode)) == Some((SchemeText(scheme), RereadParams(params, unicode)))
  {
    var text, body := SchemeText(scheme), JoinComma(Printed(params, unicode));
    SchemeIsToken(scheme);
    ParseBody(params, unicode);
    ParseScheme(text, body, RereadParams(params, unicode));
    Regroup3(text, " ", body);
  }

  // ---------------------------------------------------------------- printed, then unquoted as Go does

  function HexDigit(c: char): Option<nat> {
    if '0' <= c <= '9' then Some(c as int - '0' as int)
    else if 'a' <= c <= 'f' then Some(c as int - 'a' as int + 10)
    else None
  }

  /** The number that these hexadecimal digits stand for. */
  function FromHex(s: string): Option<nat> {
    if s == "" then Some(0)
    else
      var front, last := FromHex(s[..|s| - 1]), HexDigit(s[|s| - 1]);
      if front.None? || last.None? then None else Some(16 * front.value + last.value)
  }

  /** A character by its number, if it is one. */
  function Rune(n: Option<nat>): Option<char> {
    if n.Some? && (n.value < 0xD800 || 0xE000 <= n.value < 0x11_0000) then Some(n.value as char) else None
  }

  /** strconv.Unquote, between the quotes: one character or escape, and what is left. */
  function UnquoteChar(s: string): (r: Option<(char, string)>)
    requires s != ""
    ensures r.Some? ==> |r.value.1| < |s|
  {
    if s[0] != '\\' then Some((s[0], s[1..]))
    else if |s| < 2 then None
    else
      match s[1]
      case '\\' => Some(('\\', s[2..]))
      case '"' => Some(('"', s[2..]))
      case 'a' => Some(('\U{0007}', s[2..]))
      case 'b' => Some(('\U{0008}', s[2..]))
      case 'f' => Some(('\U{000C}', s[2..]))
      case 'n' => Some(('\n', s[2..]))
      case 'r' => Some(('\r', s[2..]))
      case 't' => Some(('\t', s[2..]))
      case 'v' => Some(('\U{000B}', s[2..]))
      case 'x' => UnquoteHex(s, 2)
      case 'u' => UnquoteHex(s, 4)
      case 'U' => UnquoteHex(s, 8)
      case _ => None
  }

  function UnquoteHex(s: string, width: nat): (r: Option<(char, string)>)
    requires |s| >= 2
    ensures r.Some? ==> |r.value.1| < |s|
  {
    if |s| < 2 + width then None
    else
      var rune := Rune(FromHex(s[2..2 + width]));
      if rune.None? then None else Some((rune.value, s[2 + width..]))
  }

  function Unquote(s: string): Option<string>
    decreases |s|
  {
    if s == "" then Some("")
    else
      match UnquoteChar(s)
      case None => None
      case Some((c, rest)) =>
        var v := Unquote(rest);
        if v.None? then None else Some([c] + v.value)
  }

  function Power16(width: nat): nat {
    if width == 0 then 1 else 16 * Power16(width - 1)
  }

  lemma {:induction false} HexRoundTrip(n: nat, width: nat)
    requires n < Power16(width)
    ensures |Hex(n, width)| == width && FromHex(Hex(n, width)) == Some(n)
  {
    if width > 0 {
      HexRoundTrip(n / 16, width - 1);
      var h := Hex(n, width);
      assert h[..|h| - 1] == Hex(n / 16, width - 1);
    }
  }

  lemma UnquoteNumber(c: char, k: char, width: nat, rest: string)
    requires (k == 'x' && width == 2) || (k == 'u' && width == 4) || (k == 'U' && width == 8)
    requires c as int < Power16(width)
    ensures UnquoteChar(['\\', k] + Hex(c as int, width) + rest) == Some((c, rest))
  {
    HexRoundTrip(c as int, width);
    var s := ['\\', k] + Hex(c as int, width) + rest;
    assert s[2..2 + width] == Hex(c as int, width) && s[2 + width..] == rest;
  }

  lemma Powers()
    ensures Power16(2) == 0x100 && Power16(4) == 0x1_0000 && Power16(8) == 0x1_0000_0000
  {
    assert Power16(3) == 0x1000 && Power16(5) == 0x10_0000 && Power16(6) == 0x100_0000 && Power16(7) == 0x1000_0000;
  }

  lemma UnquoteEscape(c: char, rest: string, unicode: char -> bool)
    ensures UnquoteChar(Escape(c, unicode) + rest) == Some((c, rest))
    ensures Escape(c, unicode) != ""
  {
    var e := Escape(c, unicode);
    Powers();
    if c == '"' || c == '\\' {
      assert (e + rest)[2..] == rest;
    } else if Verbatim(c, unicode) {
      assert (e + rest)[1..] == rest;
    } else if '\U{0007}' <= c <= '\r' {
      assert (e + rest)[2..] == rest;
    } else {
      UnquoteOther(c, rest, unicode);
    }
  }

  lemma UnquoteOther(c: char, rest: string, unicode: char -> bool)
    requires c != '"' && c != '\\' && !Verbatim(c, unicode) && !('\U{0007}' <= c <= '\r')
    ensures UnquoteChar(Escape(c, unicode) + rest) == Some((c, rest))
  {
    Powers();
    if c < ' ' || c == '\U{007F}' {
      assert Escape(c, unicode) == ['\\', 'x'] + Hex(c as int, 2);
      UnquoteNumber(c, 'x', 2, rest);
    } else if c < '\U{10000}' {
      assert Escape(c, unicode) == ['\\', 'u'] + Hex(c as int, 4);
      UnquoteNumber(c, 'u', 4, rest);
    } else {
      assert Escape(c, unicode) == ['\\', 'U'] + Hex(c as int, 8);
      UnquoteNumber(c, 'U', 8, rest);
    }
  }

  /** Whatever the value, reading the printed text as a Go string gives it back. */
  lemma {:induction false} UnquoteRoundTrip(v: string, unicode: char -> bool)
    ensures Unquote(EscapeAll(v, unicode)) == Some(v)
  {
    if v != "" {
      UnquoteRoundTrip(v[1..], unicode);
      UnquoteEscape(v[0], EscapeAll(v[1..], unicode), unicode);
      assert v == [v[0]] + v[1..];
    }
  }

  // ---------------------------------------------------------------- what a challenge says

  predicate AllVerbatim(v: string, unicode: char -> bool) {
    forall i :: 0 <= i < |v| ==> Verbatim(v[i], unicode)
  }

  lemma {:induction false} RereadLonger(v: string, unicode: char -> bool)
    ensures |RereadAll(v, unicode)| >= |v|
  {
    if v != "" {
      RereadLonger(v[1..], unicode);
      if v[0] != '"' && v[0] != '\\' && !Verbatim(v[0], unicode) {
        EscapeShape(v[0], unicode);
      }
    }
  }

  /** A value is read back as it was exactly if every character of it prints as it stands. */
  lemma {:induction false} ValueSurvivesIff(v: string, unicode: char -> bool)
    ensures RereadAll(v, unicode) == v <==> AllVerbatim(v, unicode)
  {
    if v != "" {
      var c, front, rest := v[0], Reread(v[0], unicode), RereadAll(v[1..], unicode);
      ValueSurvivesIff(v[1..], unicode);
      RereadLonger(v[1..], unicode);
      if !Verbatim(c, unicode) {
        EscapeShape(c, unicode);
        assert RereadAll(v, unicode)[0] == front[0] != c;
      } else {
        assert RereadAll(v, unicode)[1..] == rest;
        assert v == [c] + v[1..];
        assert AllVerbatim(v, unicode) <==> AllVerbatim(v[1..], unicode) by {
          assert forall i :: 0 <= i < |v[1..]| ==> v[1..][i] == v[i + 1];
          assert forall i :: 1 <= i < |v| ==> v[i] == v[1..][i - 1];
        }
      }
    }
  }

  lemma {:induction false} ParamsSurviveIff(params: seq<Param>, unicode: char -> bool)
    ensures RereadParams(params, unicode) == params <==>
            forall i :: 0 <= i < |params| ==> AllVerbatim(params[i].value, unicode)
  {
    if params != [] {
      var rest := params[1..];
      ParamsSurviveIff(rest, unicode);
      ValueSurvivesIff(params[0].value, unicode);
      assert params == [params[0]] + rest;
      assert RereadParams(params, unicode)[1..] == RereadParams(rest, unicode);
      assert forall i :: 1 <= i < |params| ==> params[i] == rest[i - 1];
      assert forall i :: 0 <= i < |rest| ==> rest[i] == params[i + 1];
    }
  }

  lemma WithKeepsTokens(params: seq<Param>, emit: bool, key: string, value: string)
    requires TokenKeys(params) && IsToken(key)
    ensures TokenKeys(With(params, emit, key, value))
  {
  }

  lemma KeysAreTokens()
    ensures IsToken("realm") && IsToken("error") && IsToken("error_description")
    ensures IsToken("scope") && IsToken("algs") && IsToken("resource_metadata")
  {
  }

  lemma ParamsHaveTokenKeys(ae: AuthError, realm: string, resourceMeta: string)
    ensures TokenKeys(Params(ae, realm, resourceMeta))
  {
    KeysAreTokens();
    var ps := With([], realm != "", "realm", realm);
    WithKeepsTokens(ps, ae.code != NoCode, "error", CodeText(ae.code));
    ps := With(ps, ae.code != NoCode, "error", CodeText(ae.code));
    WithKeepsTokens(ps, ae.code != NoCode && ae.description != "", "error_description", ae.description);
    ps := With(ps, ae.code != NoCode && ae.description != "", "error_description", ae.description);
    var scoped := ae.code == InsufficientScopeCode && ae.scopes != [];
    WithKeepsTokens(ps, scoped, "scope", Text.Join(ae.scopes));
    ps := With(ps, scoped, "scope", Text.Join(ae.scopes));
    var keyed := ae.scheme == DPoP && ae.algs != [];
    WithKeepsTokens(ps, keyed, "algs", Text.Join(ae.algs));
    ps := With(ps, keyed, "algs", Text.Join(ae.algs));
    WithKeepsTokens(ps, resourceMeta != "", "resource_metadata", resourceMeta);
  }

  /** The place of a parameter in a challenge. */
  function Place(key: string): nat {
    if key == "realm" then 0
    else if key == "error" then 1
    else if key == "error_description" then 2
    else if key == "scope" then 3
    else if key == "algs" then 4
    else if key == "resource_metadata" then 5
    else 6
  }

  /** The parameters are known, none comes twice, and they are in the order of their places. */
  predicate InPlace(params: seq<Param>) {
    Below(params, 6)
  }

  /** The places of the parameters increase, and are below this one. */
  predicate Below(params: seq<Param>, place: nat) {
    && (forall i :: 0 <= i < |params| ==> Place(params[i].key) < place)
    && (forall i, j :: 0 <= i < j < |params| ==> Place(params[i].key) < Place(params[j].key))
  }

  lemma WithBelow(params: seq<Param>, emit: bool, key: string, value: string)
    requires Below(params, Place(key))
    ensures Below(With(params, emit, key, value), Place(key) + 1)
  {
  }

  lemma WithHas(params: seq<Param>, emit: bool, key: string, value: string, p: Param)
    ensures p in With(params, emit, key, value) <==> p in params || (emit && p == Param(key, value))
  {
  }

  lemma Places()
    ensures Place("realm") == 0 && Place("error") == 1 && Place("error_description") == 2
    ensures Place("scope") == 3 && Place("algs") == 4 && Place("resource_metadata") == 5
  {
    KeysDiffer();
  }

  lemma KeysDiffer()
    ensures
      var keys := ["realm", "error", "error_description", "scope", "algs", "resource_metadata"];
      forall i, j :: 0 <= i < j < |keys| ==> keys[i] != keys[j]
  {
    assert "realm"[0] == 'r' && "error"[0] == 'e' && "error_description"[0] == 'e' && "scope"[0] == 's'
           && "algs"[0] == 'a' && "resource_metadata"[0] == 'r';
    assert |"realm"| == 5 && |"error"| == 5 && |"error_description"| == 17 && |"resource_metadata"| == 17;
  }

  /** What a challenge says under each name, in the words of the standards. */
  predicate SaysOf(ae: AuthError, realm: string, resourceMeta: string, p: Param) {
    || (p.key == "realm" && realm != "" && p.value == realm)
    || (p.key == "error" && ae.code == InvalidTokenCode && p.value == "invalid_token")
    || (p.key == "error" && ae.code == InsufficientScopeCode && p.value == "insufficient_scope")
    || (p.key == "error" && ae.code == UseDPoPNonceCode && p.value == "use_dpop_nonce")
    || (p.key == "error_description" && ae.code != NoCode && ae.description != "" && p.value == ae.description)
    || (p.key == "scope" && ae.code == InsufficientScopeCode && ae.scopes != [] && p.value == Text.Join(ae.scopes))
    || (p.key == "algs" && ae.scheme == DPoP && ae.algs != [] && p.value == Text.Join(ae.algs))
    || (p.key == "resource_metadata" && resourceMeta != "" && p.value == resourceMeta)
  }

  lemma ThreeBelow(params: seq<Param>, b0: bool, k0: string, v0: string, b1: bool, k1: string, v1: string,
                   b2: bool, k2: string, v2: string)
    requires Below(params, Place(k0)) && Place(k1) == Place(k0) + 1 && Place(k2) == Place(k0) + 2
    ensures Below(With(With(With(params, b0, k0, v0), b1, k1, v1), b2, k2, v2), Place(k0) + 3)
  {
    var ps := With(params, b0, k0, v0);
    WithBelow(params, b0, k0, v0);
    WithBelow(ps, b1, k1, v1);
    WithBelow(With(ps, b1, k1, v1), b2, k2, v2);
  }

  /** Parameters of all six names, each if it is to be there. */
  function Six(b0: bool, v0: string, b1: bool, v1: string, b2: bool, v2: string, b3: bool, v3: string, b4: bool,
               v4: string, b5: bool, v5: string): seq<Param>
  {
    var front := With(With(With([], b0, "realm", v0), b1, "error", v1), b2, "error_description", v2);
    With(With(With(front, b3, "scope", v3), b4, "algs", v4), b5, "resource_metadata", v5)
  }

  lemma SixInPlace(b0: bool, v0: string, b1: bool, v1: string, b2: bool, v2: string, b3: bool, v3: string, b4: bool,
                   v4: string, b5: bool, v5: string)
    ensures InPlace(Six(b0, v0, b1, v1, b2, v2, b3, v3, b4, v4, b5, v5))
  {
    Places();
    var front := With(With(With([], b0, "realm", v0), b1, "error", v1), b2, "error_description", v2);
    ThreeBelow([], b0, "realm", v0, b1, "error", v1, b2, "error_description", v2);
    ThreeBelow(front, b3, "scope", v3, b4, "algs", v4, b5, "resource_metadata", v5);
  }

  lemma ParamsAreSix(ae: AuthError, realm: string, resourceMeta: string)
    ensures Params(ae, realm, resourceMeta) ==
            Six(realm != "", realm, ae.code != NoCode, CodeText(ae.code),
                ae.code != NoCode && ae.description != "", ae.description,
                ae.code == InsufficientScopeCode && ae.scopes != [], Text.Join(ae.scopes),
                ae.scheme == DPoP && ae.algs != [], Text.Join(ae.algs), resourceMeta != "", resourceMeta)
  {
  }

  lemma ParamsInPlace(ae: AuthError, realm: string, resourceMeta: string)
    ensures InPlace(Params(ae, realm, resourceMeta))
  {
    ParamsAreSix(ae, realm, resourceMeta);
    SixInPlace(realm != "", realm, ae.code != NoCode, CodeText(ae.code),
               ae.code != NoCode && ae.description != "", ae.description,
               ae.code == InsufficientScopeCode && ae.scopes != [], Text.Join(ae.scopes),
               ae.scheme == DPoP && ae.algs != [], Text.Join(ae.algs), resourceMeta != "", resourceMeta);
  }

  lemma ParamsHave(ae: AuthError, realm: string, resourceMeta: string, p: Param)
    ensures p in Params(ae, realm, resourceMeta) <==> SaysOf(ae, realm, resourceMeta, p)
  {
    var ps0 := With([], realm != "", "realm", realm);
    WithHas([], realm != "", "realm", realm, p);
    var ps1 := With(ps0, ae.code != NoCode, "error", CodeText(ae.code));
    WithHas(ps0, ae.code != NoCode, "error", CodeText(ae.code), p);
    var described := ae.code != NoCode && ae.description != "";
    var ps2 := With(ps1, described, "error_description", ae.description);
    WithHas(ps1, described, "error_description", ae.description, p);
    var scoped := ae.code == InsufficientScopeCode && ae.scopes != [];
    var ps3 := With(ps2, scoped, "scope", Text.Join(ae.scopes));
    WithHas(ps2, scoped, "scope", Text.Join(ae.scopes), p);
    var keyed := ae.scheme == DPoP && ae.algs != [];
    var ps4 := With(ps3, keyed, "algs", Text.Join(ae.algs));
    WithHas(ps3, keyed, "algs", Text.Join(ae.algs), p);
    WithHas(ps4, resourceMeta != "", "resource_metadata", resourceMeta, p);
  }

  /** A challenge has exactly the parameters that its error calls for, each once and in their order. */
  lemma ParamsIff(ae: AuthError, realm: string, resourceMeta: string)
    ensures InPlace(Params(ae, realm, resourceMeta))
    ensures forall p :: p in Params(ae, realm, resourceMeta) <==> SaysOf(ae, realm, resourceMeta, p)
  {
    ParamsInPlace(ae, realm, resourceMeta);
    forall p
      ensures p in Params(ae, realm, resourceMeta) <==> SaysOf(ae, realm, resourceMeta, p)
    {
      ParamsHave(ae, realm, resourceMeta, p);
    }
  }

  /**
   A challenge always parses, to its scheme and its parameters in order; the values come
   back as they were exactly if all their characters print as they stand.
   */
  lemma ChallengeRoundTrip(ae: AuthError, realm: string, resourceMeta: string, unicode: char -> bool)
    ensures
      var params := Params(ae, realm, resourceMeta);
      var parsed := ParseChallenge(Render(ae.scheme, params, unicode));
      && parsed == Some((SchemeText(ae.scheme), RereadParams(params, unicode)))
      && (parsed == Some((SchemeText(ae.scheme), params)) <==>
            forall i :: 0 <= i < |params| ==> AllVerbatim(params[i].value, unicode))
  {
    var params := Params(ae, realm, resourceMeta);
    ParamsHaveTokenKeys(ae, realm, resourceMeta);
    ParseRendered(ae.scheme, params, unicode);
    ParamsSurviveIff(params, unicode);
  }

  // ---------------------------------------------------------------- the response

  /** The printer that an error handler is set up with. */
  function Printer(realm: string, resourceMeta: string, unicode: char -> bool): AuthError -> string {
    (ae: AuthError) => Render(ae.scheme, Params(ae, realm, resourceMeta), unicode)
  }

  /** The challenges sent for an error: for a missing token under optional DPoP, one for either scheme. */
  function Challenges(ae: AuthError, header: AuthError -> string): seq<string> {
    (if ae.withBearer then [header(BARE.(status := ae.status))] else []) + [header(ae)]
  }

  lemma PrintedParses(ae: AuthError, realm: string, resourceMeta: string, unicode: char -> bool)
    ensures ParseChallenge(Printer(realm, resourceMeta, unicode)(ae)) ==
            Some((SchemeText(ae.scheme), RereadParams(Params(ae, realm, resourceMeta), unicode)))
  {
    ParamsHaveTokenKeys(ae, realm, resourceMeta);
    ParseRendered(ae.scheme, Params(ae, realm, resourceMeta), unicode);
  }

  /**
   The challenges of an error, printed, parse to what the error says; if both schemes are
   offered, to a Bearer challenge without an error first.
   */
  lemma ChallengesParse(ae: AuthError, realm: string, resourceMeta: string, unicode: char -> bool)
    ensures
      var sent := Challenges(ae, Printer(realm, resourceMeta, unicode));
      && |sent| == (if ae.withBearer then 2 else 1)
      && ParseChallenge(sent[|sent| - 1]) ==
         Some((match ae.scheme { case Bearer => "Bearer" case DPoP => "DPoP" },
               RereadParams(Params(ae, realm, resourceMeta), unicode)))
      && (ae.withBearer ==>
            exists ps: seq<Param> ::
              && ParseChallenge(sent[0]) == Some(("Bearer", RereadParams(ps, unicode)))
              && InPlace(ps)
              && forall p: Param :: p in ps <==>
                   || (p.key == "realm" && realm != "" && p.value == realm)
                   || (p.key == "resource_metadata" && resourceMeta != "" && p.value == resourceMeta))
  {
    PrintedParses(ae, realm, resourceMeta, unicode);
    if ae.withBearer {
      var bare := BARE.(status := ae.status);
      PrintedParses(bare, realm, resourceMeta, unicode);
      ParamsIff(bare, realm, resourceMeta);
      var ps := Params(bare, realm, resourceMeta);
      assert ParseChallenge(Challenges(ae, Printer(realm, resourceMeta, unicode))[0])
             == Some(("Bearer", RereadParams(ps, unicode)));
    }
  }

  lemma RereadOne(c: char, unicode: char -> bool)
    ensures RereadAll([c], unicode) == Reread(c, unicode)
  {
    assert [c][1..] == "";
  }

  /** A tab in the realm comes back as the letter of its escape. */
  lemma TabIsLost(unicode: char -> bool)
    ensures
      var params := Params(NoToken(), "\t", "");
      && params == [Param("realm", "\t")]
      && ParseChallenge(Render(Bearer, params, unicode)) == Some(("Bearer", [Param("realm", "t")]))
  {
    ChallengeRoundTrip(NoToken(), "\t", "", unicode);
    var params := Params(NoToken(), "\t", "");
    RereadOne('\t', unicode);
    assert Escape('\t', unicode) == "\\t" && Reread('\t', unicode) == "t";
    assert params[1..] == [] && RereadParams(params, unicode) == [RereadParam(params[0], unicode)];
  }

  /** An HTTP response being written. */
  class ResponseWriter {
    var nonceHeader: Option<string>
    var challenges: seq<string>
    var status: int

    constructor ()
      ensures nonceHeader == None && challenges == [] && status == 200
    {
      nonceHeader, challenges, status := None, [], 200;
    }

    /** The handler that defaultErrorHandler returns; err is None for an error of another type. */
    method Deny(err: Option<AuthError>, header: AuthError -> string)
      modifies this
      ensures
        var ae := if err.Some? then err.value else InvalidToken("the access token is invalid");
        && status == ae.status
        && challenges == old(challenges) + Challenges(ae, header)
        && nonceHeader == if ae.nonce != "" then Some(ae.nonce) else old(nonceHeader)
    {
      var ae := if err.Some? then err.value else InvalidToken("the access token is invalid");
      if ae.nonce != "" {
        nonceHeader := Some(ae.nonce);
      }
      if ae.withBearer {
        challenges := challenges + [header(BARE.(status := ae.status))];
      }
      challenges := challenges + [header(ae)];
      status := ae.status;
    }
  }
}
