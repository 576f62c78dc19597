/** Verified access-token claims (claims.go). */
module Claims {
  import opened Wrappers
  import Json
  import Text

  /** What the JOSE library hands over: the registered claims, and scope as it stands in the token. */
  datatype Token = Token(
    subject: Option<string>,
    issuer: Option<string>,
    audience: Option<seq<string>>,
    expiry: Option<int>,
    issuedAt: Option<int>,
    notBefore: Option<int>,
    scope: Option<Json.Value>)

  /** A time that is None is the zero time; payload is None if it is empty, not base64 or not JSON. */
  datatype Claims = Claims(
    subject: string,
    issuer: string,
    audience: seq<string>,
    expiry: Option<int>,
    issuedAt: Option<int>,
    notBefore: Option<int>,
    scope: seq<string>,
    payload: Option<Json.Value>,
    cnfJKT: string)

  function OrEmpty(s: Option<string>): string {
    if s.Some? then s.value else ""
  }

  /** The strings among the items of an array. */
  function Strings(items: seq<Json.Value>): seq<string> {
    if items == [] then []
    else
      var rest := Strings(items[..|items| - 1]);
      match items[|items| - 1]
      case Str(s) => rest + [s]
      case _ => rest
  }

  function Scopes(scope: Option<Json.Value>): seq<string> {
    match scope
    case Some(Str(s)) => Text.Fields(s)
    case Some(Arr(items)) => Strings(items)
    case _ => []
  }

  /** The member jkt of the member cnf; any mistyped value on the way leaves the token unbound. */
  function Confirmation(payload: Option<Json.Value>): string {
    match Json.Members(payload)
    case None => ""
    case Some(members) =>
      match Json.Members(Some(if "cnf" in members then members["cnf"] else Json.Null))
      case None => ""
      case Some(cnf) =>
        match Json.AsString(Json.Member(cnf, "jkt"))
        case None => ""
        case Some(jkt) => jkt
  }

  /** The second of the parts of a token, if there are at least three; strings.SplitN with 3. */
  function PayloadPart(raw: string): Option<string> {
    match Text.CutAt(raw, '.')
    case None => None
    case Some((_, rest)) =>
      match Text.CutAt(rest, '.')
      case None => None
      case Some((part, _)) => Some(part)
  }

  /** decode undoes base64 and parses the JSON document. */
  function Payload(raw: string, decode: string -> Option<Json.Value>): Option<Json.Value> {
    match PayloadPart(raw)
    case None => None
    case Some(part) => decode(part)
  }

  function ClaimsOf(t: Token, raw: string, decode: string -> Option<Json.Value>): Claims {
    var payload := Payload(raw, decode);
    Claims(OrEmpty(t.subject), OrEmpty(t.issuer), if t.audience.Some? then t.audience.value else [],
           t.expiry, t.issuedAt, t.notBefore, Scopes(t.scope), payload, Confirmation(payload))
  }

  /** The scopes of a claim of either form. */
  method ReadScopes(scope: Option<Json.Value>) returns (scopes: seq<string>)
    ensures scopes == Scopes(scope)
  {
    match scope {
      case Some(Str(s)) =>
        scopes := Text.Fields(s);
      case Some(Arr(items)) =>
        scopes := [];
        for i := 0 to |items|
          invariant scopes == Strings(items[..i])
        {
          assert items[..i + 1][..i] == items[..i];
          if items[i].Str? {
            scopes := scopes + [items[i].s];
          }
        }
        assert items[..|items|] == items;
      case _ =>
        scopes := [];
    }
  }

  /** newClaims, which fills in one field after the other. */
  method NewClaims(t: Token, raw: string, decode: string -> Option<Json.Value>) returns (c: Claims)
    ensures c == ClaimsOf(t, raw, decode)
  {
    c := Claims("", "", [], None, None, None, [], None, "");
    if t.subject.Some? { c := c.(subject := t.subject.value); }
    if t.issuer.Some? { c := c.(issuer := t.issuer.value); }
    if t.audience.Some? { c := c.(audience := t.audience.value); }
    if t.expiry.Some? { c := c.(expiry := t.expiry); }
    if t.issuedAt.Some? { c := c.(issuedAt := t.issuedAt); }
    if t.notBefore.Some? { c := c.(notBefore := t.notBefore); }
    var scopes := ReadScopes(t.scope);
    c := c.(scope := scopes);
    var part := PayloadPart(raw);
    if part.Some? {
      c := c.(payload := decode(part.value));
    }
    c := c.(cnfJKT := Confirmation(c.payload));
  }

  /** Every registered claim is the one of its name in the token, or empty if the token has none. */
  lemma ClaimsFields(t: Token, raw: string, decode: string -> Option<Json.Value>)
    ensures
      var c := ClaimsOf(t, raw, decode);
      && c.subject == (match t.subject { case Some(s) => s case None => "" })
      && c.issuer == (match t.issuer { case Some(s) => s case None => "" })
      && c.audience == (match t.audience { case Some(aud) => aud case None => [] })
      && c.expiry == t.expiry && c.issuedAt == t.issuedAt && c.notBefore == t.notBefore
  {
  }

  /** The scopes are the words of a string, or the strings of an array in their order; else there are none. */
  lemma ClaimsScope(t: Token, raw: string, decode: string -> Option<Json.Value>)
    ensures
      var scope := ClaimsOf(t, raw, decode).scope;
      match t.scope {
        case Some(Str(s)) => scope == Text.Fields(s)
        case Some(Arr(items)) => exists places :: Selects(items, scope, places)
        case _ => scope == []
      }
  {
    if t.scope.Some? && t.scope.value.Arr? {
      var places := StringsSelect(t.scope.value.items);
    }
  }

  /** The payload is the decoded middle part, and the binding is the one that it confirms. */
  lemma ClaimsPayload(t: Token, raw: string, decode: string -> Option<Json.Value>, jkt: string)
    requires jkt != ""
    ensures
      var c := ClaimsOf(t, raw, decode);
      && c.payload == (match PayloadPart(raw) { case Some(part) => decode(part) case None => None })
      && (c.cnfJKT == jkt <==> BoundTo(c.payload, jkt))
  {
    ConfirmationIff(Payload(raw, decode), jkt);
  }

  /** The strings are the items at these places, which are in order and leave out no string. */
  ghost predicate Selects(items: seq<Json.Value>, strings: seq<string>, places: seq<nat>) {
    && |places| == |strings|
    && (forall i, j :: 0 <= i < j < |places| ==> places[i] < places[j])
    && (forall i :: 0 <= i < |places| ==> places[i] < |items| && items[places[i]] == Json.Str(strings[i]))
    && (forall k: nat :: k < |items| && items[k].Str? ==> k in places)
  }

  lemma SelectsNext(items: seq<Json.Value>, strings: seq<string>, places: seq<nat>, n: nat)
    requires n < |items| && Selects(items[..n], strings, places)
    ensures items[n].Str? ==> Selects(items[..n + 1], strings + [items[n].s], places + [n])
    ensures !items[n].Str? ==> Selects(items[..n + 1], strings, places)
  {
    assert forall k :: 0 <= k < n ==> items[..n + 1][k] == items[..n][k];
  }

  lemma {:induction false} StringsSelect(items: seq<Json.Value>) returns (places: seq<nat>)
    ensures Selects(items, Strings(items), places)
  {
    places := [];
    if items != [] {
      var n := |items| - 1;
      places := StringsSelect(items[..n]);
      SelectsNext(items, Strings(items[..n]), places, n);
      assert items[..n + 1] == items;
      if items[n].Str? {
        places := places + [n];
      }
    }
  }

  /** The payload is what stands between the first and the second dot of the token. */
  lemma PayloadPartIff(raw: string, part: string)
    ensures PayloadPart(raw) == Some(part) <==>
            exists head, tail :: raw == head + "." + (part + "." + tail) && '.' !in head && '.' !in part
  {
    if PayloadPart(raw) == Some(part) {
      var (head, rest) := Text.CutAt(raw, '.').value;
      var tail := Text.CutAt(rest, '.').value.1;
      Text.CutIff(raw, '.', head, rest);
      Text.CutIff(rest, '.', part, tail);
      assert raw == head + "." + (part + "." + tail);
    }
    forall head, tail | raw == head + "." + (part + "." + tail) && '.' !in head && '.' !in part
      ensures PayloadPart(raw) == Some(part)
    {
      Text.CutIff(raw, '.', head, part + "." + tail);
      Text.CutIff(part + "." + tail, '.', part, tail);
    }
  }

  /** The token is bound to a key: cnf.jkt is a non-empty string of its payload. */
  predicate BoundTo(payload: Option<Json.Value>, jkt: string) {
    && jkt != ""
    && payload.Some? && payload.value.Obj? && "cnf" in payload.value.members
    && var cnf := payload.value.members["cnf"];
       cnf.Obj? && "jkt" in cnf.members && cnf.members["jkt"] == Json.Str(jkt)
  }

  /** A confirmation of the wrong type leaves a token unbound. */
  lemma MistypedConfirmation()
    ensures Confirmation(Some(Json.Obj(map["cnf" := Json.Str("jkt")]))) == ""
  {
  }

  lemma ConfirmationIff(payload: Option<Json.Value>, jkt: string)
    requires jkt != ""
    ensures Confirmation(payload) == jkt <==> BoundTo(payload, jkt)
  {
  }

  /** A list of scopes reads the same as a joined string and as an array exactly if all of them are words. */
  lemma ScopeFormsAgree(xs: seq<string>)
    ensures
      var joined := Some(Json.Str(Text.Join(xs)));
      var listed := Some(Json.Arr(seq(|xs|, i requires 0 <= i < |xs| => Json.Str(xs[i]))));
      && Scopes(listed) == xs
      && (Scopes(joined) == Scopes(listed) <==> forall i :: 0 <= i < |xs| ==> Text.IsWord(xs[i]))
  {
    var items := seq(|xs|, i requires 0 <= i < |xs| => Json.Str(xs[i]));
    StringsOfStrs(items, xs);
    Text.JoinFieldsRoundTrip(xs);
  }

  lemma {:induction false} StringsOfStrs(items: seq<Json.Value>, xs: seq<string>)
    requires |items| == |xs| && forall i :: 0 <= i < |xs| ==> items[i] == Json.Str(xs[i])
    ensures Strings(items) == xs
  {
    if xs != [] {
      StringsOfStrs(items[..|xs| - 1], xs[..|xs| - 1]);
    }
  }
}
