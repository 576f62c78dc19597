/**
 Runs of requests through the pipeline over one replay cache: when a proof that comes
 back is accepted again, how large the cache grows, and what a retried nonce is good for.
 */
module MiddlewareRuns {
  import opened Wrappers
  import opened Claims
  import opened Challenge
  import opened ReplayCache
  import opened Middleware
  import opened MiddlewareTheorems
  import opened ReplayRuns
  import Nonce
  import Clock
  import Json
  import KeyCache
  import Text
  import TokenVerifier
  import Urls

  /** The proof that passes every check of the DPoP stage but the replay cache. */
  function ProofOf(cfg: Config, v: Visit, raw: string, claims: Claims, scheme: Scheme): Option<Proof> {
    if scheme != DPoP || cfg.mode == Off then None
    else
      match CheckProof(cfg, v.r, raw, claims, v.env)
      case Failure(_) => None
      case Success(proof) => Some(proof)
  }

  /** The proof of a visit that passes every check but the replay cache. */
  function Presented(cfg: Config, v: Visit): Option<Proof> {
    match Authenticate(cfg, v.r, v.env).0
    case Refused(_, _) => None
    case Accepted(claims, raw, scheme) => ProofOf(cfg, v, raw, claims, scheme)
  }

  /** The expiry that a proof is recorded with: the end of its window. */
  function Deadline(cfg: Config, proof: Proof): int {
    proof.iat + cfg.proofMaxAge
  }

  function AskOf(cfg: Config, env: Env, presented: Option<Proof>): Option<Call> {
    if presented.None? || env.backendError then None
    else Some(Call(env.seenAt, presented.value.jti, Deadline(cfg, presented.value)))
  }

  /** The call that a visit makes to the replay cache, if it gets that far. */
  function Ask(cfg: Config, v: Visit): Option<Call> {
    AskOf(cfg, v.env, Presented(cfg, v))
  }

  function Asks(cfg: Config, visits: seq<Visit>): seq<Option<Call>> {
    seq(|visits|, k requires 0 <= k < |visits| => Ask(cfg, visits[k]))
  }

  /** What a presented proof has been checked for that its deadline depends on. */
  lemma PresentedIff(cfg: Config, v: Visit, proof: Proof)
    ensures Presented(cfg, v) == Some(proof) <==>
            cfg.mode != Off && exists raw, claims :: Presents(v.r, DPoP, raw) && TokenGood(cfg, v.env, raw, claims)
                                                     && ProofGood(cfg, v.r, v.env, raw, claims, proof)
  {
    var auth := Authenticate(cfg, v.r, v.env).0;
    if auth.Accepted? {
      AuthenticateIff(cfg, v.r, v.env, auth.scheme, auth.raw, auth.claims);
      CheckProofIff(cfg, v.r, auth.raw, auth.claims, v.env, proof);
    }
    forall raw, claims | cfg.mode != Off && Presents(v.r, DPoP, raw) && TokenGood(cfg, v.env, raw, claims)
      ensures auth == Accepted(claims, raw, DPoP)
    {
      AuthenticateIff(cfg, v.r, v.env, DPoP, raw, claims);
    }
  }

  lemma PresentedInWindow(cfg: Config, v: Visit)
    requires Presented(cfg, v).Some?
    ensures v.env.windowAt <= Deadline(cfg, Presented(cfg, v).value) <= v.env.windowAt + cfg.skew + cfg.proofMaxAge
  {
    PresentedIff(cfg, v, Presented(cfg, v).value);
  }

  /** The DPoP stage, seen from the replay cache. */
  lemma StageAsks(cfg: Config, replay: Cache, v: Visit, raw: string, claims: Claims, scheme: Scheme)
    requires !(scheme == DPoP && cfg.mode == Off)
    ensures
      var (err, _, replay') := EnforceDPoP(cfg, replay, v.r, raw, claims, scheme, v.env);
      var presented := ProofOf(cfg, v, raw, claims, scheme);
      var ask := AskOf(cfg, v.env, presented);
      && replay' == AskStep(replay, ask)
      && (presented.Some? ==> (err.None? <==> ask.Some? && !SeenStep(replay, ask.value).1))
  {
  }

  lemma EnabledScheme(cfg: Config, r: Request, env: Env)
    ensures
      var auth := Authenticate(cfg, r, env).0;
      auth.Accepted? ==> !(auth.scheme == DPoP && cfg.mode == Off)
  {
  }

  /** A request changes the cache by its call, and is forwarded under DPoP exactly if that finds its jti new. */
  lemma HandleAsks(cfg: Config, replay: Cache, v: Visit)
    ensures
      var h, ask := Handle(cfg, replay, v.r, v.env), Ask(cfg, v);
      && h.replay == AskStep(replay, ask)
      && (Presented(cfg, v).Some? ==> (h.reply.Forward? <==> ask.Some? && !SeenStep(replay, ask.value).1))
  {
    var auth := Authenticate(cfg, v.r, v.env).0;
    if auth.Accepted? {
      EnabledScheme(cfg, v.r, v.env);
      StageAsks(cfg, replay, v, auth.raw, auth.claims, auth.scheme);
    }
  }

  lemma {:induction false} CacheAfterAsks(cfg: Config, replay: Cache, visits: seq<Visit>)
    ensures CacheAfter(cfg, replay, visits) == AfterAsks(replay, Asks(cfg, visits))
  {
    if visits != [] {
      var n := |visits| - 1;
      CacheAfterAsks(cfg, replay, visits[..n]);
      HandleAsks(cfg, CacheAfter(cfg, replay, visits[..n]), visits[n]);
      assert Asks(cfg, visits)[..n] == Asks(cfg, visits[..n]);
    }
  }

  /** Visit k of a run is forwarded with this proof. */
  predicate AcceptedWith(cfg: Config, replay: Cache, visits: seq<Visit>, k: nat, proof: Proof)
    requires k < |visits|
  {
    Presented(cfg, visits[k]) == Some(proof) && HandledAt(cfg, replay, visits, k).reply.Forward?
  }

  lemma AcceptedIffNew(cfg: Config, replay: Cache, visits: seq<Visit>, k: nat, proof: Proof)
    requires k < |visits| && Presented(cfg, visits[k]) == Some(proof)
    ensures AcceptedWith(cfg, replay, visits, k, proof) <==> TakenForNew(replay, Asks(cfg, visits), k)
    ensures Asks(cfg, visits)[k].Some? ==>
              Asks(cfg, visits)[k].value == Call(visits[k].env.seenAt, proof.jti, Deadline(cfg, proof))
  {
    CacheAfterAsks(cfg, replay, visits[..k]);
    assert Asks(cfg, visits)[..k] == Asks(cfg, visits[..k]);
    HandleAsks(cfg, CacheAfter(cfg, replay, visits[..k]), visits[k]);
  }

  /** A proof accepted twice: some reading since the first was past its deadline, whatever the order of the readings. */
  lemma AcceptedTwice(cfg: Config, replay: Cache, visits: seq<Visit>, a: nat, b: nat, proof: Proof)
    requires a < b < |visits|
    requires AcceptedWith(cfg, replay, visits, a, proof) && AcceptedWith(cfg, replay, visits, b, proof)
    ensures visits[b].env.windowAt <= Deadline(cfg, proof)
    ensures !ReadingsBelow(Asks(cfg, visits), a, b + 1, Deadline(cfg, proof))
    ensures ReplayRuns.ReadingsInOrder(Asks(cfg, visits)) ==> Deadline(cfg, proof) <= visits[b].env.seenAt
  {
    AcceptedIffNew(cfg, replay, visits, a, proof);
    AcceptedIffNew(cfg, replay, visits, b, proof);
    PresentedInWindow(cfg, visits[b]);
    NewTwice(replay, Asks(cfg, visits), a, b);
  }

  /** Whoever else presents this jti to the replay cache behind a and before m is rejected. */
  predicate OthersRejected(cfg: Config, replay: Cache, visits: seq<Visit>, a: nat, m: nat, jti: string)
    requires m <= |visits|
  {
    forall l :: a < l < m && Presented(cfg, visits[l]).Some? && Presented(cfg, visits[l]).value.jti == jti ==>
      HandledAt(cfg, replay, visits, l).reply.Reject?
  }

  lemma RejectedAreRefused(cfg: Config, replay: Cache, visits: seq<Visit>, a: nat, m: nat, jti: string)
    requires m <= |visits| && OthersRejected(cfg, replay, visits, a, m, jti)
    ensures OnlyRefused(replay, Asks(cfg, visits), a, m, jti)
  {
    var asks := Asks(cfg, visits);
    forall l | a < l < m && asks[l].Some? && asks[l].value.jti == jti
      ensures !TakenForNew(replay, asks, l)
    {
      AcceptedIffNew(cfg, replay, visits, l, Presented(cfg, visits[l]).value);
    }
  }

  /**
   A proof that was the last to be accepted with its jti and comes back, however often it has
   been refused meanwhile and whatever the order of the readings, is accepted again exactly if
   the replay backend answers and has read the clock at or past its deadline, to test or to sweep.
   */
  lemma AcceptedAgainAnyOrderIff(cfg: Config, replay: Cache, visits: seq<Visit>, a: nat, b: nat, proof: Proof)
    requires a < b < |visits| && AcceptedWith(cfg, replay, visits, a, proof)
    requires Presented(cfg, visits[b]) == Some(proof) && OthersRejected(cfg, replay, visits, a, b, proof.jti)
    ensures AcceptedWith(cfg, replay, visits, b, proof) <==>
            && !visits[b].env.backendError
            && (|| Deadline(cfg, proof) <= visits[b].env.seenAt
                || ReplayRuns.SweptPast(replay, Asks(cfg, visits), a, b, Deadline(cfg, proof)))
    ensures visits[b].env.windowAt <= Deadline(cfg, proof)
  {
    AcceptedIffNew(cfg, replay, visits, a, proof);
    AcceptedIffNew(cfg, replay, visits, b, proof);
    PresentedInWindow(cfg, visits[b]);
    RejectedAreRefused(cfg, replay, visits, a, b, proof.jti);
    if !visits[b].env.backendError {
      NewAgainAnyOrderIff(replay, Asks(cfg, visits), a, b);
    }
  }

  /** With readings in order it is accepted again exactly if the cache tests it at or past its deadline. */
  lemma AcceptedAgainIff(cfg: Config, replay: Cache, visits: seq<Visit>, a: nat, b: nat, proof: Proof)
    requires a < b < |visits| && AcceptedWith(cfg, replay, visits, a, proof)
    requires Presented(cfg, visits[b]) == Some(proof) && OthersRejected(cfg, replay, visits, a, b, proof.jti)
    requires ReadingsInOrder(Asks(cfg, visits))
    ensures AcceptedWith(cfg, replay, visits, b, proof) <==>
            !visits[b].env.backendError && Deadline(cfg, proof) <= visits[b].env.seenAt
    ensures visits[b].env.windowAt <= Deadline(cfg, proof)
  {
    AcceptedIffNew(cfg, replay, visits, a, proof);
    AcceptedIffNew(cfg, replay, visits, b, proof);
    PresentedInWindow(cfg, visits[b]);
    RejectedAreRefused(cfg, replay, visits, a, b, proof.jti);
    if !visits[b].env.backendError {
      NewAgainIff(replay, Asks(cfg, visits), a, b);
    }
  }

  lemma AskReads(cfg: Config, v: Visit)
    ensures Ask(cfg, v).Some? ==> Ask(cfg, v).value.now == v.env.seenAt
  {
  }

  lemma PairInOrder(cfg: Config, first: Visit, again: Visit)
    requires first.env.seenAt <= again.env.seenAt
    ensures ReadingsInOrder(Asks(cfg, [first, again]))
  {
    AskReads(cfg, first);
    AskReads(cfg, again);
    var asks := Asks(cfg, [first, again]);
    assert asks == [Ask(cfg, first), Ask(cfg, again)];
  }

  /** The window is closed where the record is open: at the very deadline a proof is accepted a second time. */
  lemma AcceptedAgainAtDeadline(cfg: Config, replay: Cache, first: Visit, again: Visit, proof: Proof)
    requires Presented(cfg, first) == Some(proof) && AcceptedWith(cfg, replay, [first, again], 0, proof)
    requires Presented(cfg, again) == Some(proof) && !again.env.backendError
    requires first.env.seenAt <= again.env.seenAt == again.env.windowAt == Deadline(cfg, proof)
    ensures AcceptedWith(cfg, replay, [first, again], 1, proof)
  {
    PairInOrder(cfg, first, again);
    AcceptedAgainIff(cfg, replay, [first, again], 0, 1, proof);
  }

  /** A bound access token, and a set with a key that may have signed it. */
  const EXAMPLE_TOKEN :=
    Token(Some("sub"), Some("iss"), Some(["api"]), None, None, None, None)

  const EXAMPLE_PAYLOAD := Json.Obj(map["cnf" := Json.Obj(map["jkt" := Json.Str("jkt")])])

  const EXAMPLE_KEYS := KeyCache.KeySet([KeyCache.Key(Some("kid"), "key")])

  function ExampleDecode(part: string): Option<Json.Value> {
    if part == "p" then Some(EXAMPLE_PAYLOAD) else None
  }

  function ExampleProof(t: int, hash: string -> string): Proof {
    Proof("jkt", "GET", "https" + "://" + "host" + "/", t, "jti", hash("h.p.s"), "")
  }

  /** A middleware that requires DPoP, with the default age and skew, whose oracles know one token and one proof. */
  function ExampleConfig(t: int, hash: string -> string): Config {
    var verifier := TokenVerifier.Verifier(
                      {"ES256"},
                      raw => if raw == "h.p.s" then Some(("kid", "ES256")) else None,
                      (raw, keys, now) => if raw == "h.p.s" && keys == Some(EXAMPLE_KEYS) then Success(EXAMPLE_TOKEN)
                                          else Failure("signature"),
                      ExampleDecode);
    Config(Required, verifier, ["api"], [], claims => None, ["ES256"], Clock.MINUTE, Clock.MINUTE, false, None,
           header => if header == "proof" then Success(ExampleProof(t, hash)) else Failure("proof"),
           url => Urls.Parse(authority => Some(authority), url), hash)
  }

  /** The same request, with every clock reading at this time. */
  function ExampleVisit(now: int): Visit {
    Visit(Request("GET", ["DPoP h.p.s"], ["proof"], true, "host", "/", "", ""),
          Env(kid => KeyCache.Answer(Some(EXAMPLE_KEYS), None), now, now, now, now, now, false))
  }

  lemma ExampleUrl()
    ensures Urls.Parse(authority => Some(authority), "https" + "://" + "host" + "/").Some?
  {
    Urls.ParseRebuilt(authority => Some(authority), "https", "host", "host", "/");
    Urls.ReparsedIff("/");
  }

  lemma ExamplePayload()
    ensures Payload("h.p.s", ExampleDecode) == Some(EXAMPLE_PAYLOAD)
  {
    assert "h.p.s" == "h" + "." + ("p" + "." + "s");
    PayloadPartIff("h.p.s", "p");
  }

  lemma ExampleBound()
    ensures Confirmation(Some(EXAMPLE_PAYLOAD)) == "jkt"
  {
    ConfirmationIff(Some(EXAMPLE_PAYLOAD), "jkt");
  }

  lemma ExamplePresents(now: int)
    ensures Presents(ExampleVisit(now).r, DPoP, "h.p.s")
  {
    var word, rest := "DPoP", "h.p.s";
    assert Text.TrimSpace(rest) == rest by {
      assert Text.TrimLeft(rest) == rest;
    }
    assert ExampleVisit(now).r.authorization[0] == word + " " + rest && ' ' !in word
           && Text.EqualFold(word, SchemeText(DPoP));
  }

  function ExampleClaims(): Claims {
    ClaimsOf(EXAMPLE_TOKEN, "h.p.s", ExampleDecode)
  }

  lemma ExampleTokenGood(t: int, now: int, hash: string -> string)
    ensures TokenGood(ExampleConfig(t, hash), ExampleVisit(now).env, "h.p.s", ExampleClaims())
  {
    assert "api" in ExampleClaims().audience && "api" in ExampleConfig(t, hash).audiences;
  }

  lemma ExampleTarget(t: int, now: int, hash: string -> string)
    ensures HTUEqual(ExampleConfig(t, hash), ExampleProof(t, hash).htu, RequestHTU(ExampleVisit(now).r, false))
  {
    ExampleUrl();
    assert RequestHTU(ExampleVisit(now).r, false) == ExampleProof(t, hash).htu;
  }

  lemma ExampleProofGood(t: int, now: int, hash: string -> string)
    requires t <= now <= t + Clock.MINUTE
    ensures ProofGood(ExampleConfig(t, hash), ExampleVisit(now).r, ExampleVisit(now).env, "h.p.s", ExampleClaims(),
                      ExampleProof(t, hash))
  {
    ExamplePayload();
    ExampleBound();
    ExampleTarget(t, now, hash);
  }

  lemma ExamplePresented(t: int, now: int, hash: string -> string)
    requires t <= now <= t + Clock.MINUTE
    ensures Presented(ExampleConfig(t, hash), ExampleVisit(now)) == Some(ExampleProof(t, hash))
  {
    ExamplePresents(now);
    ExampleTokenGood(t, now, hash);
    ExampleProofGood(t, now, hash);
    PresentedIff(ExampleConfig(t, hash), ExampleVisit(now), ExampleProof(t, hash));
  }

  /** One proof, presented at its iat and again sixty seconds later, is accepted both times. */
  lemma ReplayAcceptedAtDeadline(epoch: int, t: int, hash: string -> string)
    ensures
      var cfg, visits := ExampleConfig(t, hash), [ExampleVisit(t), ExampleVisit(t + Clock.MINUTE)];
      && AcceptedWith(cfg, Empty(epoch, Clock.MINUTE), visits, 0, ExampleProof(t, hash))
      && AcceptedWith(cfg, Empty(epoch, Clock.MINUTE), visits, 1, ExampleProof(t, hash))
  {
    var cfg, c, proof := ExampleConfig(t, hash), Empty(epoch, Clock.MINUTE), ExampleProof(t, hash);
    var first, again := ExampleVisit(t), ExampleVisit(t + Clock.MINUTE);
    ExamplePresented(t, t, hash);
    ExamplePresented(t, t + Clock.MINUTE, hash);
    AcceptedIffNew(cfg, c, [first, again], 0, proof);
    assert Asks(cfg, [first, again])[..0] == [];
    AcceptedAgainAtDeadline(cfg, c, first, again, proof);
  }

  /** No expiry is recorded further ahead than the skew and the age of a proof. */
  lemma AskIsFed(cfg: Config, v: Visit)
    requires v.env.windowAt <= v.env.seenAt && Ask(cfg, v).Some?
    ensures Ask(cfg, v).value.now == v.env.seenAt
    ensures Ask(cfg, v).value.exp <= v.env.seenAt + (cfg.skew + cfg.proofMaxAge)
  {
    PresentedInWindow(cfg, v);
  }

  lemma AsksAreFed(cfg: Config, epoch: int, visits: seq<Visit>)
    requires forall k :: 0 <= k < |visits| ==> epoch <= visits[k].env.windowAt <= visits[k].env.seenAt
    ensures
      var asks := Asks(cfg, visits);
      forall k :: 0 <= k < |asks| && asks[k].Some? ==>
        epoch <= asks[k].value.now && asks[k].value.exp <= asks[k].value.now + (cfg.skew + cfg.proofMaxAge)
  {
    var asks := Asks(cfg, visits);
    forall k | 0 <= k < |asks| && asks[k].Some?
      ensures epoch <= asks[k].value.now && asks[k].value.exp <= asks[k].value.now + (cfg.skew + cfg.proofMaxAge)
    {
      AskIsFed(cfg, visits[k]);
    }
  }

  /**
   The cache of a run of requests with readings in order holds no more entries than
   there were first uses within one sweep interval, the skew and the age of a proof.
   */
  lemma ReplayCacheStaysSmall(cfg: Config, epoch: int, visits: seq<Visit>)
    requires cfg.skew > 0 && cfg.proofMaxAge > 0
    requires ReadingsInOrder(Asks(cfg, visits)) && Made(Asks(cfg, visits)) != []
    requires forall k :: 0 <= k < |visits| ==> epoch <= visits[k].env.windowAt <= visits[k].env.seenAt
    ensures
      var c := Empty(epoch, Clock.MINUTE);
      IsSmall(CacheAfter(cfg, c, visits).seen, c, Made(Asks(cfg, visits)), cfg.skew + cfg.proofMaxAge)
  {
    var c := Empty(epoch, Clock.MINUTE);
    CacheAfterAsks(cfg, c, visits);
    AsksAreFed(cfg, epoch, visits);
    CacheStaysSmall(c, Asks(cfg, visits), cfg.skew + cfg.proofMaxAge);
  }

  // ---------------------------------------------------------------- nonces

  /** The source that dpop_nonce.go provides. */
  function HmacSource(mac: string -> string, width: int): NonceSource
    requires width > 0
  {
    NonceSource((nonce, now) => Nonce.Valid(mac, width, nonce, now), now => Nonce.Current(mac, width, now))
  }

  /** A client that answers a nonce challenge within one window passes the nonce check. */
  lemma RetryPassesNonce(cfg: Config, mac: string -> string, width: int, proof: Proof, retry: Proof,
                         now: int, issueAt: int, retryAt: int, reissueAt: int)
    requires width > 0 && cfg.nonce == Some(HmacSource(mac, width)) && forall w :: Nonce.Make(mac, w) != ""
    requires 0 <= issueAt <= retryAt <= issueAt + width * Clock.SECOND
    requires CheckNonce(cfg, proof, now, issueAt).Some?
    requires retry.nonce == CheckNonce(cfg, proof, now, issueAt).value.nonce
    ensures CheckNonce(cfg, proof, now, issueAt).value.code == UseDPoPNonceCode && retry.nonce != ""
    ensures CheckNonce(cfg, retry, retryAt, reissueAt) == None
  {
    Nonce.LastsOneWindow(mac, width, issueAt, retryAt);
  }
}
