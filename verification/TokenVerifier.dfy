/**
 The access-token checks that the middleware and the exchange validator share
 (verify.go). The JOSE library is a pair of functions; the key source answers each kid
 as it pleases, and every question put to it is recorded.
 */
module TokenVerifier {
  import opened Wrappers
  import opened KeyCache
  import opened Claims
  import Json

  /**
   header reads kid and alg of an unverified token; parse checks signature, issuer and times;
   decode reads the base64 and JSON of a payload.
   */
  datatype Verifier = Verifier(
    algs: set<string>,
    header: string -> Option<(string, string)>,
    parse: (string, Option<KeySet>, int) -> Result<Token, string>,
    decode: string -> Option<Json.Value>)

  datatype VerifyError = Malformed | DisallowedAlg(alg: string) | KeySource(err: string) | Invalid(err: string)

  datatype Verified = Verified(result: Result<Claims, VerifyError>, lookups: seq<string>)

  function Verify(v: Verifier, raw: string, keys: string -> Answer, now: int): Verified {
    match v.header(raw)
    case None => Verified(Failure(Malformed), [])
    case Some((kid, alg)) =>
      if alg !in v.algs then Verified(Failure(DisallowedAlg(alg)), [])
      else
        var answer := keys(kid);
        if answer.err.Some? then Verified(Failure(KeySource(answer.err.value)), [kid])
        else
          match v.parse(raw, answer.keySet, now)
          case Failure(err) => Verified(Failure(Invalid(err)), [kid])
          case Success(token) => Verified(Success(ClaimsOf(token, raw, v.decode)), [kid])
  }

  /** These are the claims of the token, checked against a set that the key source gave for its kid. */
  predicate Authentic(v: Verifier, raw: string, keys: string -> Answer, now: int, claims: Claims) {
    && v.header(raw).Some?
    && var (kid, alg) := v.header(raw).value;
       && alg in v.algs
       && keys(kid).err.None?
       && v.parse(raw, keys(kid).keySet, now).Success?
       && claims == ClaimsOf(v.parse(raw, keys(kid).keySet, now).value, raw, v.decode)
  }

  /** The key source is asked only for a token that parses and names an allowed algorithm, and then once. */
  lemma LookupsIff(v: Verifier, raw: string, keys: string -> Answer, now: int)
    ensures
      var r := Verify(v, raw, keys, now);
      && (r.lookups != [] <==> v.header(raw).Some? && v.header(raw).value.1 in v.algs)
      && (r.lookups != [] ==> r.lookups == [v.header(raw).value.0])
      && (r.result.Failure? && (r.result.error.Malformed? || r.result.error.DisallowedAlg?) <==> r.lookups == [])
  {
  }

  lemma VerifyIff(v: Verifier, raw: string, keys: string -> Answer, now: int, claims: Claims)
    ensures Verify(v, raw, keys, now).result == Success(claims) <==> Authentic(v, raw, keys, now, claims)
  {
  }

  /** Which error it is tells which check came first to fail. */
  lemma VerifyErrorIs(v: Verifier, raw: string, keys: string -> Answer, now: int)
    ensures
      var result := Verify(v, raw, keys, now).result;
      if v.header(raw).None? then result == Failure(Malformed)
      else
        var (kid, alg) := v.header(raw).value;
        && (alg !in v.algs ==> result == Failure(DisallowedAlg(alg)))
        && (alg in v.algs && keys(kid).err.Some? ==> result == Failure(KeySource(keys(kid).err.value)))
        && (alg in v.algs && keys(kid).err.None? && v.parse(raw, keys(kid).keySet, now).Failure? ==>
              result == Failure(Invalid(v.parse(raw, keys(kid).keySet, now).error)))
  {
  }
}
