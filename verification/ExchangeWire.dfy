/**
 The JSON bodies of a token endpoint: successes and errors as they are written
 (exchange_validator.go, exchange_errors.go) and as the client reads them (exchange.go).
 */
module ExchangeWire {
  import opened Wrappers
  import Clock
  import Json
  import Text
  import ExchangeForm

  // ---------------------------------------------------------------- success

  /** A token to be written as a response; expiresIn is a duration in nanoseconds. */
  datatype IssuedToken = IssuedToken(
    accessToken: string,
    issuedTokenType: string,
    tokenType: string,
    expiresIn: int,
    scope: seq<string>,
    refreshToken: string)

  /** The greatest power of two up to n. */
  function PowerBelow(n: nat): (p: nat)
    ensures n >= 1 ==> 1 <= p <= n < 2 * p
  {
    if n < 2 then 1 else 2 * PowerBelow(n / 2)
  }

  /**
   Whether the double next to seconds and a fraction of nanoseconds is the next whole number:
   the rest to it is at most half the distance of doubles there, 2^-53 of that power of two.
   */
  predicate RoundsUp(seconds: nat, nanos: nat) {
    (Clock.SECOND - nanos) * 0x20_0000_0000_0000 <= Clock.SECOND * PowerBelow(seconds)
  }

  /** int(d.Seconds()) of a positive duration, whose seconds are a double. */
  function WholeSeconds(d: nat): nat {
    var seconds, nanos := d / Clock.SECOND, d % Clock.SECOND;
    if RoundsUp(seconds, nanos) then seconds + 1 else seconds
  }

  /** The object with this member, if it is to be written. */
  function With(out: map<string, Json.Value>, write: bool, key: string, value: Json.Value): map<string, Json.Value> {
    if write then out[key := value] else out
  }

  /** The response body of a token, or None for a token without an access token. */
  function ResponseBody(t: IssuedToken): Option<Json.Value> {
    if t.accessToken == "" then None
    else
      var out: map<string, Json.Value> := map[]["access_token" := Json.Str(t.accessToken)];
      var out := out["issued_token_type" := Json.Str(ExchangeForm.OrDefault(t.issuedTokenType))];
      var out := out["token_type" := Json.Str(if t.tokenType == "" then "Bearer" else t.tokenType)];
      var seconds := WholeSeconds(if t.expiresIn > 0 then t.expiresIn else 0);
      var out := With(out, t.expiresIn > 0, "expires_in", Json.Int(seconds));
      var out := With(out, t.scope != [], "scope", Json.Str(Text.Join(t.scope)));
      var out := With(out, t.refreshToken != "", "refresh_token", Json.Str(t.refreshToken));
      Some(Json.Obj(out))
  }

  /** WriteExchangeResponse, which fills in one member after the other. */
  method WriteExchangeResponse(t: IssuedToken) returns (body: Option<Json.Value>)
    ensures body == ResponseBody(t)
  {
    if t.accessToken == "" {
      return None;
    }
    var tokenType := t.tokenType;
    if tokenType == "" {
      tokenType := "Bearer";
    }
    var out: map<string, Json.Value> := map[];
    out := out["access_token" := Json.Str(t.accessToken)];
    out := out["issued_token_type" := Json.Str(ExchangeForm.OrDefault(t.issuedTokenType))];
    out := out["token_type" := Json.Str(tokenType)];
    if t.expiresIn > 0 {
      out := out["expires_in" := Json.Int(WholeSeconds(t.expiresIn))];
    }
    if |t.scope| > 0 {
      out := out["scope" := Json.Str(Text.Join(t.scope))];
    }
    if t.refreshToken != "" {
      out := out["refresh_token" := Json.Str(t.refreshToken)];
    }
    return Some(Json.Obj(out));
  }

  /** Multiplication of 64-bit durations, which wraps around. */
  function Wrap64(n: int): int {
    (n + 0x8000_0000_0000_0000) % 0x1_0000_0000_0000_0000 - 0x8000_0000_0000_0000
  }

  function StringMember(members: map<string, Json.Value>, key: string): Option<string> {
    Json.AsString(Json.Member(members, key))
  }

  /** parseExchangeResult; a token with an empty access token stands for no result. */
  function ParseExchangeResult(body: Option<Json.Value>): Result<IssuedToken, string> {
    match Json.Members(body)
    case None => Failure("aoa: parse exchange response")
    case Some(m) =>
      var access, issued := StringMember(m, "access_token"), StringMember(m, "issued_token_type");
      var kind := StringMember(m, "token_type");
      var expires := Json.AsInt(Json.Member(m, "expires_in"));
      var scope, refresh := StringMember(m, "scope"), StringMember(m, "refresh_token");
      if access.None? || issued.None? || kind.None? || expires.None? || scope.None? || refresh.None?
      then Failure("aoa: parse exchange response")
      else if access.value == "" then Failure("aoa: exchange response missing access_token")
      else Success(IssuedToken(access.value, issued.value, kind.value, Wrap64(expires.value * Clock.SECOND),
                               if scope.value == "" then [] else Text.Fields(scope.value), refresh.value))
  }

  /** What a written token reads back as: types defaulted, its lifetime in whole seconds, dropped if not positive. */
  function Delivered(t: IssuedToken): IssuedToken {
    IssuedToken(t.accessToken, ExchangeForm.OrDefault(t.issuedTokenType),
                if t.tokenType == "" then "Bearer" else t.tokenType,
                if t.expiresIn > 0 then WholeSeconds(t.expiresIn) * Clock.SECOND else 0, t.scope, t.refreshToken)
  }

  lemma KeysDiffer()
    ensures
      var keys := ["access_token", "issued_token_type", "token_type", "expires_in", "scope", "refresh_token"];
      forall i, j :: 0 <= i < j < |keys| ==> keys[i] != keys[j]
  {
    assert "token_type"[0] != "expires_in"[0];
    var keys := ["access_token", "issued_token_type", "token_type", "expires_in", "scope", "refresh_token"];
    forall i, j | 0 <= i < j < |keys|
      ensures keys[i] != keys[j]
    {
    }
  }

  /** The members of a response body. */
  lemma ResponseMembers(t: IssuedToken)
    requires t.accessToken != ""
    ensures
      var m := ResponseBody(t).value.members;
      && StringMember(m, "access_token") == Some(t.accessToken)
      && StringMember(m, "issued_token_type") == Some(ExchangeForm.OrDefault(t.issuedTokenType))
      && StringMember(m, "token_type") == Some(if t.tokenType == "" then "Bearer" else t.tokenType)
      && Json.Member(m, "expires_in") == (if t.expiresIn > 0 then Some(Json.Int(WholeSeconds(t.expiresIn))) else None)
      && StringMember(m, "scope") == Some(Text.Join(t.scope))
      && StringMember(m, "refresh_token") == Some(t.refreshToken)
  {
    KeysDiffer();
  }

  /** The seconds written are less than one off, exactly those of a whole number, and few enough to multiply back. */
  lemma SecondsSurvive(d: int)
    requires Clock.IsDuration(d) && d > 0
    ensures
      var n := WholeSeconds(d);
      && d - Clock.SECOND < n * Clock.SECOND < d + Clock.SECOND
      && (n * Clock.SECOND == d <==> d % Clock.SECOND == 0)
      && Json.AsInt(Some(Json.Int(n))) == Some(n) && Wrap64(n * Clock.SECOND) == n * Clock.SECOND
  {
  }

  /** Seconds are cut below 2^53 / 10^9 of them; far beyond that, doubles are too coarse for the last nanosecond. */
  lemma SecondsRound(seconds: nat, nanos: nat)
    requires nanos < Clock.SECOND
    ensures seconds < 9_007_199 ==> WholeSeconds(seconds * Clock.SECOND + nanos) == seconds
    ensures seconds >= 18_014_399 && nanos == 999_999_999 ==>
              WholeSeconds(seconds * Clock.SECOND + nanos) == seconds + 1
  {
    var d := seconds * Clock.SECOND + nanos;
    assert d / Clock.SECOND == seconds && d % Clock.SECOND == nanos;
  }

  /** A written token reads back as delivered, with its scopes split into words. */
  lemma ResponseRoundTrip(t: IssuedToken)
    requires t.accessToken != "" && Clock.IsDuration(t.expiresIn)
    ensures
      var result := ParseExchangeResult(ResponseBody(t));
      && result == Success(Delivered(t).(scope := Text.AllFields(t.scope)))
      && (result == Success(Delivered(t)) <==> forall i :: 0 <= i < |t.scope| ==> Text.IsWord(t.scope[i]))
      && (t.expiresIn > 0 ==> t.expiresIn - Clock.SECOND < result.value.expiresIn < t.expiresIn + Clock.SECOND)
      && (t.expiresIn > 0 ==> (result.value.expiresIn == t.expiresIn <==> t.expiresIn % Clock.SECOND == 0))
  {
    ResponseMembers(t);
    Text.FieldsOfJoin(t.scope);
    Text.JoinFieldsRoundTrip(t.scope);
    if t.expiresIn > 0 {
      SecondsSurvive(t.expiresIn);
    }
  }

  /** Each of these members that is there is a string or null. */
  predicate HasStrings(m: map<string, Json.Value>, keys: seq<string>) {
    forall i :: 0 <= i < |keys| && keys[i] in m ==> m[keys[i]].Str? || m[keys[i]].Null?
  }

  /** The member is a string, and not the empty one. */
  predicate HasText(m: map<string, Json.Value>, key: string) {
    key in m && m[key].Str? && m[key].s != ""
  }

  /** The members of a success body have the types that they are decoded into. */
  predicate Decodes(m: map<string, Json.Value>) {
    && HasStrings(m, ["access_token", "issued_token_type", "token_type", "scope", "refresh_token"])
    && ("expires_in" in m ==>
          m["expires_in"].Null? || (m["expires_in"].Int? && Json.MIN_INT <= m["expires_in"].n <= Json.MAX_INT))
  }

  /** A body is taken for a token exactly if it decodes to one with an access token; the error tells what is wrong. */
  lemma ParseResultIs(body: Option<Json.Value>)
    ensures
      var result, members := ParseExchangeResult(body), Json.Members(body);
      if members.None? || !Decodes(members.value) then result == Failure("aoa: parse exchange response")
      else if !HasText(members.value, "access_token") then
        result == Failure("aoa: exchange response missing access_token")
      else result.Success? && result.value.accessToken == members.value["access_token"].s
  {
    if Json.Members(body).Some? {
      DecodesIff(Json.Members(body).value);
    }
  }

  lemma DecodesIff(m: map<string, Json.Value>)
    ensures Decodes(m) <==>
            && StringMember(m, "access_token").Some? && StringMember(m, "issued_token_type").Some?
            && StringMember(m, "token_type").Some? && Json.AsInt(Json.Member(m, "expires_in")).Some?
            && StringMember(m, "scope").Some? && StringMember(m, "refresh_token").Some?
  {
    var keys := ["access_token", "issued_token_type", "token_type", "scope", "refresh_token"];
    StringsAre(m, keys);
    assert (forall i :: 0 <= i < |keys| ==> StringMember(m, keys[i]).Some?) <==>
           && StringMember(m, keys[0]).Some? && StringMember(m, keys[1]).Some? && StringMember(m, keys[2]).Some?
           && StringMember(m, keys[3]).Some? && StringMember(m, keys[4]).Some?;
  }

  lemma StringsAre(m: map<string, Json.Value>, keys: seq<string>)
    ensures HasStrings(m, keys) <==> forall i :: 0 <= i < |keys| ==> StringMember(m, keys[i]).Some?
  {
    forall i | 0 <= i < |keys|
      ensures StringMember(m, keys[i]).Some? <==> (keys[i] in m ==> m[keys[i]].Str? || m[keys[i]].Null?)
    {
    }
  }

  // ---------------------------------------------------------------- errors

  datatype ExchangeError = ExchangeError(code: string, description: string, uri: string, httpStatus: int)

  function ErrorStatus(code: string): int {
    if code == "invalid_client" then 401 else 400
  }

  datatype ErrorResponse = ErrorResponse(status: int, body: Json.Value)

  /** The error that is written for any other kind of error. */
  const INTERNAL := ExchangeError("server_error", "", "", 500)

  function ErrorBody(ee: ExchangeError): Json.Value {
    var out: map<string, Json.Value> := map["error" := Json.Str(ee.code)];
    var out := With(out, ee.description != "", "error_description", Json.Str(ee.description));
    var out := With(out, ee.uri != "", "error_uri", Json.Str(ee.uri));
    Json.Obj(out)
  }

  function StatusOf(ee: ExchangeError): int {
    if ee.httpStatus == 0 then ErrorStatus(ee.code) else ee.httpStatus
  }

  /** WriteExchangeError; err is None for an error of another type. */
  method WriteExchangeError(err: Option<ExchangeError>) returns (r: ErrorResponse)
    ensures
      var ee := if err.Some? then err.value else INTERNAL;
      r == ErrorResponse(StatusOf(ee), ErrorBody(ee))
    ensures err.None? ==> r == ErrorResponse(500, Json.Obj(map["error" := Json.Str("server_error")]))
  {
    var ee := if err.Some? then err.value else INTERNAL;
    var status := ee.httpStatus;
    if status == 0 {
      status := ErrorStatus(ee.code);
    }
    var out: map<string, Json.Value> := map["error" := Json.Str(ee.code)];
    if ee.description != "" {
      out := out["error_description" := Json.Str(ee.description)];
    }
    if ee.uri != "" {
      out := out["error_uri" := Json.Str(ee.uri)];
    }
    return ErrorResponse(status, Json.Obj(out));
  }

  function Unparseable(status: int): ExchangeError {
    ExchangeError("invalid_request", "unparseable error response", "", status)
  }

  function ParseExchangeError(status: int, body: Option<Json.Value>): ExchangeError {
    match Json.Members(body)
    case None => Unparseable(status)
    case Some(m) =>
      var code, description := StringMember(m, "error"), StringMember(m, "error_description");
      var uri := StringMember(m, "error_uri");
      if code.None? || description.None? || uri.None? || code.value == "" then Unparseable(status)
      else ExchangeError(code.value, description.value, uri.value, status)
  }

  /** An error body is read exactly if its members are strings and it has a code. */
  lemma ParseErrorIs(status: int, body: Option<Json.Value>)
    ensures
      var read, members := ParseExchangeError(status, body), Json.Members(body);
      if members.Some? && HasStrings(members.value, ["error", "error_description", "error_uri"])
         && HasText(members.value, "error")
      then read.code == members.value["error"].s && read.httpStatus == status
      else read == ExchangeError("invalid_request", "unparseable error response", "", status)
  {
    if Json.Members(body).Some? {
      var m, keys := Json.Members(body).value, ["error", "error_description", "error_uri"];
      StringsAre(m, keys);
      assert (forall i :: 0 <= i < |keys| ==> StringMember(m, keys[i]).Some?) <==>
             StringMember(m, keys[0]).Some? && StringMember(m, keys[1]).Some? && StringMember(m, keys[2]).Some?;
    }
  }

  /** The members of an error body, under the names of section 5.2 of RFC 6749. */
  lemma ErrorMembers(ee: ExchangeError)
    ensures
      var m := ErrorBody(ee).members;
      && Json.Member(m, "error") == Some(Json.Str(ee.code))
      && Json.Member(m, "error_description") ==
         (if ee.description == "" then None else Some(Json.Str(ee.description)))
      && Json.Member(m, "error_uri") == (if ee.uri == "" then None else Some(Json.Str(ee.uri)))
      && m.Keys <= {"error", "error_description", "error_uri"}
  {
    assert |"error"| == 5 && |"error_description"| == 17 && |"error_uri"| == 9;
  }

  /**
   A written error reads back as it was, under the status it was written with, exactly if it
   has a code. Without a status of its own it is written as a 401 for an invalid client, else as a 400.
   */
  lemma ErrorRoundTrip(ee: ExchangeError)
    ensures
      var status := StatusOf(ee);
      var read := ParseExchangeError(status, Some(ErrorBody(ee)));
      && (read == ee.(httpStatus := status) <==> ee.code != "")
      && (ee.code == "" ==> read == Unparseable(status))
      && (ee.httpStatus == 0 ==> status in {400, 401} && (status == 401 <==> ee.code == "invalid_client"))
  {
    assert |"error"| == 5 && |"error_description"| == 17 && |"error_uri"| == 9;
  }
}
