/**
 What the request pipeline promises: when it forwards, what it touches on the way, what
 it leaves in the audit log, and how it treats a proof that comes back.
 */
module MiddlewareTheorems {
  import opened Wrappers
  import opened Claims
  import opened Challenge
  import opened ReplayCache
  import opened Middleware
  import Text
  import TokenVerifier

  // ---------------------------------------------------------------- acceptance

  /** The Authorization header is one word naming the scheme, a space, and the token. */
  ghost predicate Presents(r: Request, scheme: Scheme, raw: string) {
    && |r.authorization| == 1
    && exists word, rest ::
         && r.authorization[0] == word + " " + rest && ' ' !in word
         && Text.EqualFold(word, SchemeText(scheme))
         && Text.TrimSpace(rest) == raw && raw != ""
  }

  /** The token is authentic, for this audience, with all scopes, and passes the claim validator. */
  ghost predicate TokenGood(cfg: Config, env: Env, raw: string, claims: Claims) {
    && TokenVerifier.Authentic(cfg.verifier, raw, env.keys, env.tokenAt, claims)
    && (exists a :: a in claims.audience && a in cfg.audiences)
    && (forall s :: s in cfg.requiredScopes ==> s in claims.scope)
    && cfg.claimValidator(claims) == None
  }

  /** The proof fits the request, the token and the clock, and carries a good nonce if one is asked for. */
  ghost predicate ProofGood(cfg: Config, r: Request, env: Env, raw: string, claims: Claims, proof: Proof) {
    && r.dpop != [] && r.dpop == [r.dpop[0]] && cfg.readProof(r.dpop[0]) == Success(proof)
    && proof.jkt == claims.cnfJKT != ""
    && proof.ath == cfg.hash(raw)
    && Text.EqualFold(proof.htm, r.verb)
    && HTUEqual(cfg, proof.htu, RequestHTU(r, cfg.trustForwarded))
    && env.windowAt - cfg.proofMaxAge <= proof.iat <= env.windowAt + cfg.skew
    && proof.jti != ""
    && (cfg.nonce.Some? ==> proof.nonce != "" && cfg.nonce.value.valid(proof.nonce, env.nonceAt))
  }

  /** The replay cache takes the proof for new. */
  predicate ProofNew(replay: Cache, env: Env, proof: Proof) {
    !env.backendError && !Live(replay.seen, proof.jti, env.seenAt)
  }

  /** The rule of each mode for each scheme. */
  ghost predicate SchemeGood(cfg: Config, replay: Cache, r: Request, env: Env, scheme: Scheme, raw: string,
                             claims: Claims)
  {
    match scheme
    case Bearer =>
      claims.cnfJKT == "" && cfg.mode != Required && (cfg.mode == Optional ==> r.dpop == [])
    case DPoP =>
      cfg.mode != Off && exists proof :: ProofGood(cfg, r, env, raw, claims, proof) && ProofNew(replay, env, proof)
  }

  /** What the pipeline as a whole asks of a request, in no order. */
  ghost predicate Acceptable(cfg: Config, replay: Cache, r: Request, env: Env, scheme: Scheme, raw: string,
                             claims: Claims)
  {
    Presents(r, scheme, raw) && TokenGood(cfg, env, raw, claims) && SchemeGood(cfg, replay, r, env, scheme, raw, claims)
  }

  lemma SchemesDiffer(word: string)
    ensures !(Text.EqualFold(word, "Bearer") && Text.EqualFold(word, "DPoP"))
  {
  }

  lemma ExtractIff(r: Request, scheme: Scheme, raw: string)
    ensures ExtractToken(r.authorization) == Some((scheme, raw)) <==> Presents(r, scheme, raw)
  {
    if |r.authorization| == 1 {
      var h := r.authorization[0];
      if ExtractToken(r.authorization) == Some((scheme, raw)) {
        var (word, rest) := Text.CutAt(h, ' ').value;
        Text.CutIff(h, ' ', word, rest);
        assert h == word + " " + rest;
      }
      if Presents(r, scheme, raw) {
        var word, rest :| h == word + " " + rest && ' ' !in word && Text.EqualFold(word, SchemeText(scheme))
                          && Text.TrimSpace(rest) == raw && raw != "";
        Text.CutIff(h, ' ', word, rest);
        SchemesDiffer(word);
      }
    }
  }

  lemma {:induction false} MissingIff(granted: seq<string>, required: seq<string>)
    ensures MissingScopes(granted, required) == [] <==> forall s :: s in required ==> s in granted
    ensures forall s :: s in MissingScopes(granted, required) <==> s in required && s !in granted
  {
    if required != [] {
      var n := |required| - 1;
      MissingIff(granted, required[..n]);
      assert forall s :: s in required <==> s in required[..n] || s == required[n];
    }
  }

  datatype Found = Found(scheme: Scheme, raw: string, claims: Claims)

  /** The token of a request, once it has been verified. */
  function FindToken(cfg: Config, r: Request, env: Env): Option<Found> {
    match ExtractToken(r.authorization)
    case None => None
    case Some((scheme, raw)) =>
      if scheme == DPoP && cfg.mode == Off then None
      else
        match TokenVerifier.Verify(cfg.verifier, raw, env.keys, env.tokenAt).result
        case Failure(_) => None
        case Success(claims) => Some(Found(scheme, raw, claims))
  }

  /** The request presents an authentic token under a scheme that is enabled. */
  ghost predicate Carries(cfg: Config, r: Request, env: Env, f: Found) {
    && Presents(r, f.scheme, f.raw) && !(f.scheme == DPoP && cfg.mode == Off)
    && TokenVerifier.Authentic(cfg.verifier, f.raw, env.keys, env.tokenAt, f.claims)
  }

  lemma FindTokenIff(cfg: Config, r: Request, env: Env, f: Found)
    ensures FindToken(cfg, r, env) == Some(f) <==> Carries(cfg, r, env, f)
  {
    ExtractIff(r, f.scheme, f.raw);
    TokenVerifier.VerifyIff(cfg.verifier, f.raw, env.keys, env.tokenAt, f.claims);
  }

  /** The code of a refusal before the DPoP stage. */
  lemma RefusalCode(cfg: Config, r: Request, env: Env)
    ensures
      var auth, found := Authenticate(cfg, r, env).0, FindToken(cfg, r, env);
      && (found.Some? ==> auth == CheckClaims(cfg, found.value.claims, found.value.raw, found.value.scheme))
      && (found.None? ==> auth.Refused? && auth.err.code != InsufficientScopeCode)
  {
  }

  lemma CheckClaimsIff(cfg: Config, claims: Claims, raw: string, scheme: Scheme)
    ensures
      var judged := CheckClaims(cfg, claims, raw, scheme);
      && (judged.Accepted? ==> judged == Accepted(claims, raw, scheme))
      && (judged.Accepted? <==>
            && (exists a :: a in claims.audience && a in cfg.audiences)
            && (forall s :: s in cfg.requiredScopes ==> s in claims.scope)
            && cfg.claimValidator(claims) == None)
  {
    MissingIff(claims.scope, cfg.requiredScopes);
    AudienceIff(claims.audience, cfg.audiences);
  }

  lemma AuthenticateIff(cfg: Config, r: Request, env: Env, scheme: Scheme, raw: string, claims: Claims)
    ensures Authenticate(cfg, r, env).0 == Accepted(claims, raw, scheme) <==>
            Presents(r, scheme, raw) && TokenGood(cfg, env, raw, claims) && !(scheme == DPoP && cfg.mode == Off)
  {
    RefusalCode(cfg, r, env);
    FindTokenIff(cfg, r, env, Found(scheme, raw, claims));
    CheckClaimsIff(cfg, claims, raw, scheme);
    var found := FindToken(cfg, r, env);
    if found.Some? {
      CheckClaimsIff(cfg, found.value.claims, found.value.raw, found.value.scheme);
    }
  }

  /** The audiences that RequireBearer accepts are the resource, if it is set, and those listed. */
  lemma AcceptedAudience(resource: string, audience: seq<string>, aud: seq<string>)
    ensures AudienceMatches(aud, AcceptedAudiences(resource, audience)) <==>
            (resource != "" && resource in aud) || exists a :: a in audience && a in aud
  {
    AudienceIff(aud, AcceptedAudiences(resource, audience));
  }

  lemma AudienceIff(aud: seq<string>, accepted: seq<string>)
    ensures AudienceMatches(aud, accepted) <==> exists a :: a in aud && a in accepted
  {
  }

  lemma CheckProofIff(cfg: Config, r: Request, raw: string, claims: Claims, env: Env, proof: Proof)
    ensures CheckProof(cfg, r, raw, claims, env) == Success(proof) <==> ProofGood(cfg, r, env, raw, claims, proof)
  {
  }

  lemma EnforceIff(cfg: Config, replay: Cache, r: Request, raw: string, claims: Claims, scheme: Scheme, env: Env)
    requires !(scheme == DPoP && cfg.mode == Off)
    ensures EnforceDPoP(cfg, replay, r, raw, claims, scheme, env).0.None? <==>
            SchemeGood(cfg, replay, r, env, scheme, raw, claims)
  {
    if scheme == DPoP {
      var checked := CheckProof(cfg, r, raw, claims, env);
      if checked.Success? {
        CheckProofIff(cfg, r, raw, claims, env, checked.value);
      }
      forall proof | ProofGood(cfg, r, env, raw, claims, proof)
        ensures checked == Success(proof)
      {
        CheckProofIff(cfg, r, raw, claims, env, proof);
      }
    }
  }

  /** The staged pipeline forwards exactly the acceptable requests, with the claims of their token. */
  lemma ForwardsIff(cfg: Config, replay: Cache, r: Request, env: Env, claims: Claims)
    ensures Handle(cfg, replay, r, env).reply == Forward(claims) <==>
            exists scheme, raw :: Acceptable(cfg, replay, r, env, scheme, raw, claims)
  {
    var auth := Authenticate(cfg, r, env).0;
    if auth.Accepted? {
      AuthenticateIff(cfg, r, env, auth.scheme, auth.raw, auth.claims);
      EnforceIff(cfg, replay, r, auth.raw, auth.claims, auth.scheme, env);
      assert Handle(cfg, replay, r, env).reply.Forward? <==>
             Acceptable(cfg, replay, r, env, auth.scheme, auth.raw, auth.claims);
    }
    forall scheme, raw | Acceptable(cfg, replay, r, env, scheme, raw, claims)
      ensures auth == Accepted(claims, raw, scheme)
    {
      AuthenticateIff(cfg, r, env, scheme, raw, claims);
    }
  }

  /** A token whose payload binds it to a key is not forwarded under the Bearer scheme, in any mode. */
  lemma NoDowngrade(cfg: Config, replay: Cache, r: Request, env: Env, claims: Claims, raw: string, jkt: string)
    requires Handle(cfg, replay, r, env).reply == Forward(claims) && Presents(r, Bearer, raw)
    ensures !BoundTo(claims.payload, jkt)
  {
    if jkt != "" { ConfirmationIff(claims.payload, jkt); }
    ForwardsIff(cfg, replay, r, env, claims);
    var scheme, raw' :| Acceptable(cfg, replay, r, env, scheme, raw', claims);
    ExtractIff(r, scheme, raw');
    ExtractIff(r, Bearer, raw);
  }

  predicate Forwards(cfg: Config, replay: Cache, r: Request, env: Env) {
    Handle(cfg, replay, r, env).reply.Forward?
  }

  lemma Witness(cfg: Config, replay: Cache, r: Request, env: Env)
    ensures Forwards(cfg, replay, r, env) <==>
            exists scheme, raw, claims :: Acceptable(cfg, replay, r, env, scheme, raw, claims)
  {
    var reply := Handle(cfg, replay, r, env).reply;
    if reply.Forward? {
      ForwardsIff(cfg, replay, r, env, reply.claims);
    }
    forall scheme, raw, claims | Acceptable(cfg, replay, r, env, scheme, raw, claims)
      ensures reply.Forward?
    {
      ForwardsIff(cfg, replay, r, env, claims);
    }
  }

  /** Optional accepts what Required accepts, and what Off accepts if there is no DPoP header; nothing else. */
  lemma ModesCompared(cfg: Config, replay: Cache, r: Request, env: Env)
    ensures Forwards(cfg.(mode := Optional), replay, r, env) <==>
            || Forwards(cfg.(mode := Required), replay, r, env)
            || (Forwards(cfg.(mode := Off), replay, r, env) && r.dpop == [])
  {
    var opt, req, off := cfg.(mode := Optional), cfg.(mode := Required), cfg.(mode := Off);
    Witness(opt, replay, r, env);
    Witness(req, replay, r, env);
    Witness(off, replay, r, env);
    forall scheme, raw, claims
      ensures Acceptable(opt, replay, r, env, scheme, raw, claims) <==>
              || Acceptable(req, replay, r, env, scheme, raw, claims)
              || (Acceptable(off, replay, r, env, scheme, raw, claims) && r.dpop == [])
    {
      SchemeRules(cfg, replay, r, env, scheme, raw, claims);
    }
  }

  lemma SchemeRules(cfg: Config, replay: Cache, r: Request, env: Env, scheme: Scheme, raw: string, claims: Claims)
    ensures
      var opt, req, off := cfg.(mode := Optional), cfg.(mode := Required), cfg.(mode := Off);
      SchemeGood(opt, replay, r, env, scheme, raw, claims) <==>
        || SchemeGood(req, replay, r, env, scheme, raw, claims)
        || (SchemeGood(off, replay, r, env, scheme, raw, claims) && r.dpop == [])
  {
    var opt, req := cfg.(mode := Optional), cfg.(mode := Required);
    assert forall proof :: ProofGood(opt, r, env, raw, claims, proof) <==> ProofGood(req, r, env, raw, claims, proof);
  }

  // ---------------------------------------------------------------- stages

  /** The key source is asked at most once, and only for a token that parses and names an allowed algorithm. */
  lemma KeySourceIsolated(cfg: Config, replay: Cache, r: Request, env: Env)
    ensures
      var h := Handle(cfg, replay, r, env);
      h.lookups != [] ==>
        exists scheme, raw ::
          && Presents(r, scheme, raw) && !(scheme == DPoP && cfg.mode == Off)
          && cfg.verifier.header(raw).Some? && cfg.verifier.header(raw).value.1 in cfg.verifier.algs
          && h.lookups == [cfg.verifier.header(raw).value.0]
  {
    if Handle(cfg, replay, r, env).lookups != [] {
      var (scheme, raw) := ExtractToken(r.authorization).value;
      ExtractIff(r, scheme, raw);
      TokenVerifier.LookupsIff(cfg.verifier, raw, env.keys, env.tokenAt);
      assert Presents(r, scheme, raw);
    }
  }

  /** The DPoP stage changes the replay cache only by the call for a proof that it has found good. */
  lemma StageTouches(cfg: Config, replay: Cache, r: Request, raw: string, claims: Claims, scheme: Scheme, env: Env)
    ensures
      var (err, _, replay') := EnforceDPoP(cfg, replay, r, raw, claims, scheme, env);
      var checked := CheckProof(cfg, r, raw, claims, env);
      replay' != replay ==>
        && scheme == DPoP && cfg.mode != Off && !env.backendError && checked.Success?
        && replay' == SeenStep(replay, ReplayCall(cfg, checked.value, env.seenAt)).0
        && (err.None? <==> ProofNew(replay, env, checked.value))
  {
  }

  /** The replay cache changes only by a request under DPoP that has passed every other check. */
  lemma ReplayIsolated(cfg: Config, replay: Cache, r: Request, env: Env)
    ensures
      var h := Handle(cfg, replay, r, env);
      h.replay != replay ==>
        exists raw, claims, proof ::
          && cfg.mode != Off && !env.backendError
          && Presents(r, DPoP, raw) && TokenGood(cfg, env, raw, claims) && ProofGood(cfg, r, env, raw, claims, proof)
          && h.replay == SeenStep(replay, ReplayCall(cfg, proof, env.seenAt)).0
          && (h.reply.Forward? <==> ProofNew(replay, env, proof))
  {
    if Handle(cfg, replay, r, env).replay != replay {
      var auth := Authenticate(cfg, r, env).0;
      StageTouches(cfg, replay, r, auth.raw, auth.claims, auth.scheme, env);
      AuthenticateIff(cfg, r, env, DPoP, auth.raw, auth.claims);
      var proof := CheckProof(cfg, r, auth.raw, auth.claims, env).value;
      CheckProofIff(cfg, r, auth.raw, auth.claims, env, proof);
      assert Presents(r, DPoP, auth.raw) && TokenGood(cfg, env, auth.raw, auth.claims)
             && ProofGood(cfg, r, env, auth.raw, auth.claims, proof);
    }
  }

  // ---------------------------------------------------------------- forwarding headers

  /** The request with these forwarding headers instead of its own. */
  function Forwarded(r: Request, proto: string, host: string): Request {
    r.(forwardedProto := proto, forwardedHost := host)
  }

  lemma SameToken(cfg: Config, r: Request, env: Env, proto: string, host: string)
    ensures Authenticate(cfg, Forwarded(r, proto, host), env) == Authenticate(cfg, r, env)
  {
  }

  lemma SameProof(cfg: Config, r: Request, raw: string, claims: Claims, env: Env, proto: string, host: string)
    requires !cfg.trustForwarded
    ensures CheckProof(cfg, Forwarded(r, proto, host), raw, claims, env) == CheckProof(cfg, r, raw, claims, env)
  {
    assert RequestHTU(Forwarded(r, proto, host), false) == RequestHTU(r, false);
  }

  lemma SameStage(cfg: Config, replay: Cache, r: Request, raw: string, claims: Claims, scheme: Scheme, env: Env,
                  proto: string, host: string)
    requires !cfg.trustForwarded
    ensures EnforceDPoP(cfg, replay, Forwarded(r, proto, host), raw, claims, scheme, env)
            == EnforceDPoP(cfg, replay, r, raw, claims, scheme, env)
  {
    SameProof(cfg, r, raw, claims, env, proto, host);
    assert VerifyDPoP(cfg, replay, Forwarded(r, proto, host), raw, claims, scheme, env)
           == VerifyDPoP(cfg, replay, r, raw, claims, scheme, env);
  }

  /** Unless they are trusted, forwarding headers have no influence on a request, its events or the cache. */
  lemma ForwardingIgnored(cfg: Config, replay: Cache, r: Request, env: Env, proto: string, host: string)
    requires !cfg.trustForwarded
    ensures Handle(cfg, replay, Forwarded(r, proto, host), env) == Handle(cfg, replay, r, env)
  {
    SameToken(cfg, r, env, proto, host);
    var auth := Authenticate(cfg, r, env).0;
    if auth.Accepted? {
      SameStage(cfg, replay, r, auth.raw, auth.claims, auth.scheme, env, proto, host);
    }
  }

  // ---------------------------------------------------------------- reasons to reject

  lemma ScopeRefusal(cfg: Config, claims: Claims, raw: string, scheme: Scheme)
    ensures
      var judged := CheckClaims(cfg, claims, raw, scheme);
      && (judged.Refused? && judged.err.code == InsufficientScopeCode <==>
            && AudienceMatches(claims.audience, cfg.audiences)
            && exists s :: s in cfg.requiredScopes && s !in claims.scope)
      && (judged.Refused? && judged.err.code == InsufficientScopeCode ==>
            judged.err.status == 403 && judged.err.scopes == cfg.requiredScopes)
  {
    MissingIff(claims.scope, cfg.requiredScopes);
  }

  /** A request is refused with 403 and the scopes required exactly if its token is right but for lacking one. */
  lemma InsufficientScopeIff(cfg: Config, replay: Cache, r: Request, env: Env)
    ensures
      var reply := Handle(cfg, replay, r, env).reply;
      && (reply.Reject? && reply.err.code == InsufficientScopeCode <==>
            exists f :: Carries(cfg, r, env, f) && AudienceMatches(f.claims.audience, cfg.audiences)
                        && exists s :: s in cfg.requiredScopes && s !in f.claims.scope)
      && (reply.Reject? && reply.err.code == InsufficientScopeCode ==>
            reply.err.status == 403 && reply.err.scopes == cfg.requiredScopes)
  {
    RefusalCode(cfg, r, env);
    var found := FindToken(cfg, r, env);
    if found.Some? {
      FindTokenIff(cfg, r, env, found.value);
      ScopeRefusal(cfg, found.value.claims, found.value.raw, found.value.scheme);
    }
    forall f | Carries(cfg, r, env, f)
      ensures found == Some(f)
    {
      FindTokenIff(cfg, r, env, f);
    }
    CodeOfReply(cfg, replay, r, env);
  }

  /** The DPoP stage never refuses for scopes. */
  lemma StageNeverScopes(cfg: Config, replay: Cache, r: Request, raw: string, claims: Claims, scheme: Scheme, env: Env)
    ensures
      var err := EnforceDPoP(cfg, replay, r, raw, claims, scheme, env).0;
      err.Some? ==> err.value.code != InsufficientScopeCode
  {
    ProofErrors(cfg, r, raw, claims, env);
  }

  lemma CodeOfReply(cfg: Config, replay: Cache, r: Request, env: Env)
    ensures
      var auth, reply := Authenticate(cfg, r, env).0, Handle(cfg, replay, r, env).reply;
      && (auth.Refused? ==> reply == Reject(auth.err))
      && (auth.Accepted? && reply.Reject? ==> reply.err.code != InsufficientScopeCode)
  {
    var auth := Authenticate(cfg, r, env).0;
    if auth.Accepted? {
      StageNeverScopes(cfg, replay, r, auth.raw, auth.claims, auth.scheme, env);
    }
  }

  /** A proof that is good but for its nonce. */
  ghost predicate NonceStale(cfg: Config, r: Request, env: Env, raw: string, claims: Claims, proof: Proof) {
    && ProofGood(cfg.(nonce := None), r, env, raw, claims, proof)
    && cfg.nonce.Some? && (proof.nonce == "" || !cfg.nonce.value.valid(proof.nonce, env.nonceAt))
  }

  lemma NonceFaultIff(cfg: Config, r: Request, raw: string, claims: Claims, env: Env)
    ensures
      var checked := CheckProof(cfg, r, raw, claims, env);
      && (checked.Failure? && checked.error.code == UseDPoPNonceCode <==>
            exists proof :: NonceStale(cfg, r, env, raw, claims, proof))
      && (checked.Failure? && checked.error.code == UseDPoPNonceCode ==>
            cfg.nonce.Some? && checked.error.nonce == cfg.nonce.value.current(env.issueAt))
  {
    if r.dpop != [] && cfg.readProof(r.dpop[0]).Success? {
      var proof := cfg.readProof(r.dpop[0]).value;
      assert r.dpop == [r.dpop[0]] <==> |r.dpop| == 1;
      assert CheckProofClaims(cfg, r, raw, claims, proof, env.windowAt)
             == CheckProofClaims(cfg.(nonce := None), r, raw, claims, proof, env.windowAt);
      var checked := CheckProof(cfg, r, raw, claims, env);
      if checked.Failure? && checked.error.code == UseDPoPNonceCode {
        assert NonceStale(cfg, r, env, raw, claims, proof);
      }
    }
  }

  /** The request gets to the DPoP stage under the DPoP scheme with this token. */
  ghost predicate ReachesProof(cfg: Config, r: Request, env: Env, raw: string, claims: Claims) {
    cfg.mode != Off && Presents(r, DPoP, raw) && TokenGood(cfg, env, raw, claims)
  }

  lemma ReachesProofIff(cfg: Config, r: Request, env: Env, raw: string, claims: Claims)
    ensures Authenticate(cfg, r, env).0 == Accepted(claims, raw, DPoP) <==> ReachesProof(cfg, r, env, raw, claims)
  {
    AuthenticateIff(cfg, r, env, DPoP, raw, claims);
  }

  lemma RefusalShape(cfg: Config, r: Request, env: Env)
    ensures
      var auth := Authenticate(cfg, r, env).0;
      auth.Refused? ==> auth.err.code != UseDPoPNonceCode && auth.event.kind == TokenRejected
  {
  }

  lemma GateErrors(cfg: Config, r: Request, claims: Claims)
    ensures
      var err := GateBearer(cfg, r, claims);
      err.Some? ==> err.value.code != UseDPoPNonceCode && err.value.auditKind == Default
  {
  }

  lemma BearerShape(cfg: Config, replay: Cache, r: Request, raw: string, claims: Claims, env: Env)
    ensures
      var (err, events, _) := EnforceDPoP(cfg, replay, r, raw, claims, Bearer, env);
      && (err.Some? ==> err.value.code != UseDPoPNonceCode)
      && (events != [] ==> events[0].kind != JTIReplay)
  {
    GateErrors(cfg, r, claims);
  }

  lemma ProofShape(cfg: Config, replay: Cache, r: Request, raw: string, claims: Claims, env: Env)
    requires cfg.mode != Off
    ensures
      var (err, events, _) := EnforceDPoP(cfg, replay, r, raw, claims, DPoP, env);
      var checked := CheckProof(cfg, r, raw, claims, env);
      && (checked.Failure? ==> err == Some(checked.error))
      && (checked.Success? && err.Some? ==> err.value.code != UseDPoPNonceCode)
      && events != []
      && (events[0].kind == JTIReplay <==>
            checked.Success? && !env.backendError && Live(replay.seen, checked.value.jti, env.seenAt))
  {
    ProofKinds(cfg, r, raw, claims, env);
  }

  lemma StageByScheme(cfg: Config, replay: Cache, r: Request, raw: string, claims: Claims, scheme: Scheme, env: Env)
    ensures
      var (err, _, _) := EnforceDPoP(cfg, replay, r, raw, claims, scheme, env);
      && (scheme == Bearer && err.Some? ==> err.value.code != UseDPoPNonceCode)
      && (scheme == DPoP && cfg.mode != Off ==>
            match CheckProof(cfg, r, raw, claims, env)
            case Failure(ae) => err == Some(ae)
            case Success(_) => err.Some? ==> err.value.code != UseDPoPNonceCode)
  {
    if scheme == Bearer {
      BearerShape(cfg, replay, r, raw, claims, env);
    } else if cfg.mode != Off {
      ProofShape(cfg, replay, r, raw, claims, env);
    }
  }

  lemma StageCodes(cfg: Config, replay: Cache, r: Request, env: Env)
    ensures
      var auth, h := Authenticate(cfg, r, env).0, Handle(cfg, replay, r, env);
      && (auth.Refused? ==> h.reply == Reject(auth.err) && auth.err.code != UseDPoPNonceCode)
      && (auth.Accepted? && auth.scheme == Bearer && h.reply.Reject? ==> h.reply.err.code != UseDPoPNonceCode)
      && (auth.Accepted? && auth.scheme == DPoP && cfg.mode != Off
          && CheckProof(cfg, r, auth.raw, auth.claims, env).Failure? ==>
            h.reply == Reject(CheckProof(cfg, r, auth.raw, auth.claims, env).error))
      && (auth.Accepted? && auth.scheme == DPoP && h.reply.Reject?
          && CheckProof(cfg, r, auth.raw, auth.claims, env).Success? ==>
            h.reply.err.code != UseDPoPNonceCode)
  {
    RefusalShape(cfg, r, env);
    var auth := Authenticate(cfg, r, env).0;
    if auth.Accepted? {
      StageByScheme(cfg, replay, r, auth.raw, auth.claims, auth.scheme, env);
    }
  }

  /** A nonce is demanded, and the current one given, exactly if the proof is good but for its nonce. */
  lemma NonceChallengeIff(cfg: Config, replay: Cache, r: Request, env: Env)
    ensures
      var reply := Handle(cfg, replay, r, env).reply;
      && (reply.Reject? && reply.err.code == UseDPoPNonceCode <==>
            exists raw, claims, proof ::
              ReachesProof(cfg, r, env, raw, claims) && NonceStale(cfg, r, env, raw, claims, proof))
      && (reply.Reject? && reply.err.code == UseDPoPNonceCode ==>
            cfg.nonce.Some? && reply.err.nonce == cfg.nonce.value.current(env.issueAt))
  {
    var auth := Authenticate(cfg, r, env).0;
    StageCodes(cfg, replay, r, env);
    if auth.Accepted? && auth.scheme == DPoP {
      ReachesProofIff(cfg, r, env, auth.raw, auth.claims);
      NonceFaultIff(cfg, r, auth.raw, auth.claims, env);
    }
    forall raw, claims | ReachesProof(cfg, r, env, raw, claims)
      ensures auth == Accepted(claims, raw, DPoP)
    {
      ReachesProofIff(cfg, r, env, raw, claims);
    }
  }

  lemma StageKinds(cfg: Config, replay: Cache, r: Request, env: Env)
    ensures
      var auth, h := Authenticate(cfg, r, env).0, Handle(cfg, replay, r, env);
      h.events != [] && (h.events[0].kind == JTIReplay <==>
        && auth.Accepted? && auth.scheme == DPoP && cfg.mode != Off
        && CheckProof(cfg, r, auth.raw, auth.claims, env).Success?
        && !env.backendError && Live(replay.seen, CheckProof(cfg, r, auth.raw, auth.claims, env).value.jti, env.seenAt))
  {
    RefusalShape(cfg, r, env);
    var auth := Authenticate(cfg, r, env).0;
    if auth.Accepted? {
      if auth.scheme == Bearer {
        BearerShape(cfg, replay, r, auth.raw, auth.claims, env);
      } else if cfg.mode != Off {
        ProofShape(cfg, replay, r, auth.raw, auth.claims, env);
      }
      NoEventMeansNew(cfg, replay, r, auth.raw, auth.claims, auth.scheme, env);
    }
  }

  lemma NoEventMeansNew(cfg: Config, replay: Cache, r: Request, raw: string, claims: Claims, scheme: Scheme, env: Env)
    ensures
      var (err, events, _) := EnforceDPoP(cfg, replay, r, raw, claims, scheme, env);
      && (err.Some? ==> events != [])
      && (events == [] ==> scheme == Bearer || cfg.mode == Off)
  {
  }

  lemma ProofKinds(cfg: Config, r: Request, raw: string, claims: Claims, env: Env)
    ensures
      var checked := CheckProof(cfg, r, raw, claims, env);
      checked.Failure? ==> checked.error.auditKind == Default && checked.error.auditOutcome == Unset
  {
  }

  /** A replay is reported exactly for a proof that is good in itself and recorded with an expiry ahead. */
  lemma ReplayReportedIff(cfg: Config, replay: Cache, r: Request, env: Env)
    ensures
      var h := Handle(cfg, replay, r, env);
      h.events != [] && (h.events[0].kind == JTIReplay <==>
        exists raw, claims, proof ::
          && ReachesProof(cfg, r, env, raw, claims) && ProofGood(cfg, r, env, raw, claims, proof)
          && !env.backendError && Live(replay.seen, proof.jti, env.seenAt))
  {
    var auth := Authenticate(cfg, r, env).0;
    StageKinds(cfg, replay, r, env);
    if auth.Accepted? && auth.scheme == DPoP {
      ReachesProofIff(cfg, r, env, auth.raw, auth.claims);
      var checked := CheckProof(cfg, r, auth.raw, auth.claims, env);
      if checked.Success? {
        CheckProofIff(cfg, r, auth.raw, auth.claims, env, checked.value);
      }
    }
    forall raw, claims, proof | ReachesProof(cfg, r, env, raw, claims) && ProofGood(cfg, r, env, raw, claims, proof)
      ensures auth == Accepted(claims, raw, DPoP) && CheckProof(cfg, r, raw, claims, env) == Success(proof)
    {
      ReachesProofIff(cfg, r, env, raw, claims);
      CheckProofIff(cfg, r, raw, claims, env, proof);
    }
  }

  /** The key source cannot answer for the token that the request presents. */
  ghost predicate KeysUnavailable(cfg: Config, r: Request, env: Env) {
    exists scheme, raw ::
      && Presents(r, scheme, raw) && !(scheme == DPoP && cfg.mode == Off)
      && cfg.verifier.header(raw).Some? && cfg.verifier.header(raw).value.1 in cfg.verifier.algs
      && env.keys(cfg.verifier.header(raw).value.0).err.Some?
  }

  lemma RefusalOutcome(cfg: Config, r: Request, env: Env)
    ensures
      var auth := Authenticate(cfg, r, env).0;
      if auth.Refused? then auth.event.outcome == Error <==> KeysUnavailable(cfg, r, env)
      else !KeysUnavailable(cfg, r, env)
  {
    var extracted := ExtractToken(r.authorization);
    if extracted.Some? {
      ExtractIff(r, extracted.value.0, extracted.value.1);
    }
    forall scheme, raw | Presents(r, scheme, raw)
      ensures extracted == Some((scheme, raw))
    {
      ExtractIff(r, scheme, raw);
    }
  }

  lemma StageOutcome(cfg: Config, replay: Cache, r: Request, raw: string, claims: Claims, scheme: Scheme, env: Env)
    ensures
      var (err, events, _) := EnforceDPoP(cfg, replay, r, raw, claims, scheme, env);
      events != [] ==>
        (events[0].outcome == Error <==>
           scheme == DPoP && cfg.mode != Off && env.backendError && CheckProof(cfg, r, raw, claims, env).Success?)
  {
    ProofKinds(cfg, r, raw, claims, env);
  }

  /** An event reports an error exactly if the key source failed or, for a good proof, the replay backend did. */
  lemma ErrorOutcomeIff(cfg: Config, replay: Cache, r: Request, env: Env)
    ensures
      var h := Handle(cfg, replay, r, env);
      h.events != [] && (h.events[0].outcome == Error <==>
        || KeysUnavailable(cfg, r, env)
        || (env.backendError && exists raw, claims, proof ::
              ReachesProof(cfg, r, env, raw, claims) && ProofGood(cfg, r, env, raw, claims, proof)))
  {
    var auth := Authenticate(cfg, r, env).0;
    RefusalOutcome(cfg, r, env);
    if auth.Accepted? {
      StageOutcome(cfg, replay, r, auth.raw, auth.claims, auth.scheme, env);
      NoEventMeansNew(cfg, replay, r, auth.raw, auth.claims, auth.scheme, env);
      ReachesProofIff(cfg, r, env, auth.raw, auth.claims);
      var checked := CheckProof(cfg, r, auth.raw, auth.claims, env);
      if checked.Success? {
        CheckProofIff(cfg, r, auth.raw, auth.claims, env, checked.value);
      }
    }
    forall raw, claims, proof | ReachesProof(cfg, r, env, raw, claims) && ProofGood(cfg, r, env, raw, claims, proof)
      ensures auth == Accepted(claims, raw, DPoP) && CheckProof(cfg, r, raw, claims, env) == Success(proof)
    {
      ReachesProofIff(cfg, r, env, raw, claims);
      CheckProofIff(cfg, r, raw, claims, env, proof);
    }
  }

  // ---------------------------------------------------------------- the audit log

  predicate IsRejecting(kind: AuditKind) {
    kind == TokenRejected || kind == DPoPRejected || kind == JTIReplay
  }

  /** The errors that the DPoP stage makes. */
  predicate IsProofError(ae: AuthError) {
    && ae.status == 401 && ae.code != InsufficientScopeCode
    && (ae.auditKind == Default || ae.auditKind == JTIReplay)
    && (ae.auditOutcome == Unset || ae.auditOutcome == Error)
  }

  lemma ProofErrors(cfg: Config, r: Request, raw: string, claims: Claims, env: Env)
    ensures
      var checked := CheckProof(cfg, r, raw, claims, env);
      checked.Failure? ==> IsProofError(checked.error)
  {
  }

  lemma StageErrors(cfg: Config, replay: Cache, r: Request, raw: string, claims: Claims, scheme: Scheme, env: Env)
    ensures
      var err := VerifyDPoP(cfg, replay, r, raw, claims, scheme, env).0;
      err.Some? ==> IsProofError(err.value)
  {
    if scheme == DPoP {
      ProofErrors(cfg, r, raw, claims, env);
    }
  }

  /** The events of the DPoP stage: one rejecting event, or dpop_verified exactly under the DPoP scheme. */
  lemma EnforceEvents(cfg: Config, replay: Cache, r: Request, raw: string, claims: Claims, scheme: Scheme, env: Env)
    requires !(scheme == DPoP && cfg.mode == Off)
    ensures
      var (err, events, _) := EnforceDPoP(cfg, replay, r, raw, claims, scheme, env);
      match err {
        case None => events == if scheme == DPoP then [Event(DPoPVerified, Allow, NoCode, "", Some(claims))] else []
        case Some(ae) => RejectedWith(ae, events)
      }
  {
    StageErrors(cfg, replay, r, raw, claims, scheme, env);
  }

  predicate RejectedWith(ae: AuthError, events: seq<Event>) {
    && |events| == 1 && IsRejecting(events[0].kind) && (events[0].outcome == Deny || events[0].outcome == Error)
    && events[0].error == ae.code
    && (ae.code == InsufficientScopeCode <==> ae.status == 403) && (ae.status == 401 || ae.status == 403)
  }

  lemma RefusalEvents(cfg: Config, r: Request, env: Env)
    ensures
      var auth := Authenticate(cfg, r, env).0;
      auth.Refused? ==> RejectedWith(auth.err, [auth.event])
  {
  }

  /** A request is forwarded with one validating event, or rejected with one rejecting event, never both. */
  lemma OneVerdict(cfg: Config, replay: Cache, r: Request, env: Env)
    ensures
      var h := Handle(cfg, replay, r, env);
      match h.reply {
        case Forward(claims) =>
          h.events == (if exists raw :: Presents(r, DPoP, raw)
                       then [Event(DPoPVerified, Allow, NoCode, "", Some(claims))] else [])
                      + [Event(TokenValidated, Allow, NoCode, "", Some(claims))]
        case Reject(ae) => RejectedWith(ae, h.events)
      }
  {
    var auth := Authenticate(cfg, r, env).0;
    if auth.Accepted? {
      AuthenticateIff(cfg, r, env, auth.scheme, auth.raw, auth.claims);
      EnforceEvents(cfg, replay, r, auth.raw, auth.claims, auth.scheme, env);
      PresentsOnce(r, auth.scheme, auth.raw);
    } else {
      RefusalEvents(cfg, r, env);
    }
  }

  lemma PresentsOnce(r: Request, scheme: Scheme, raw: string)
    requires Presents(r, scheme, raw)
    ensures (exists raw' :: Presents(r, DPoP, raw')) <==> scheme == DPoP
  {
    ExtractIff(r, scheme, raw);
    forall raw' | Presents(r, DPoP, raw')
      ensures scheme == DPoP
    {
      ExtractIff(r, DPoP, raw');
    }
  }

  // ---------------------------------------------------------------- whole runs

  /** One request of a run, with what it meets on its way. */
  datatype Visit = Visit(r: Request, env: Env)

  /** The replay cache after a run of requests, in the order in which they take its lock. */
  function CacheAfter(cfg: Config, replay: Cache, visits: seq<Visit>): Cache {
    if visits == [] then replay
    else
      var last := visits[|visits| - 1];
      Handle(cfg, CacheAfter(cfg, replay, visits[..|visits| - 1]), last.r, last.env).replay
  }

  function HandledAt(cfg: Config, replay: Cache, visits: seq<Visit>, k: nat): Handled
    requires k < |visits|
  {
    Handle(cfg, CacheAfter(cfg, replay, visits[..k]), visits[k].r, visits[k].env)
  }

  function Log(cfg: Config, replay: Cache, visits: seq<Visit>): seq<Event> {
    if visits == [] then []
    else Log(cfg, replay, visits[..|visits| - 1]) + HandledAt(cfg, replay, visits, |visits| - 1).events
  }

  datatype Sort = Validating | Rejecting | Proving

  predicate IsOf(ev: Event, sort: Sort) {
    match sort
    case Validating => ev.kind == TokenValidated
    case Rejecting => IsRejecting(ev.kind)
    case Proving => ev.kind == DPoPVerified
  }

  function Count(events: seq<Event>, sort: Sort): nat {
    if events == [] then 0
    else Count(events[..|events| - 1], sort) + if IsOf(events[|events| - 1], sort) then 1 else 0
  }

  /** The fate of a request that an event of this class reports. */
  ghost predicate Reports(r: Request, reply: Reply, sort: Sort) {
    match sort
    case Validating => reply.Forward?
    case Rejecting => reply.Reject?
    case Proving => reply.Forward? && exists raw :: Presents(r, DPoP, raw)
  }

  /** The number of requests of a run that have this fate. */
  ghost function Fates(cfg: Config, replay: Cache, visits: seq<Visit>, sort: Sort): nat {
    if visits == [] then 0
    else
      var n := |visits| - 1;
      Fates(cfg, replay, visits[..n], sort)
      + if Reports(visits[n].r, HandledAt(cfg, replay, visits, n).reply, sort) then 1 else 0
  }

  lemma {:induction false} CountSum(a: seq<Event>, b: seq<Event>, sort: Sort)
    ensures Count(a + b, sort) == Count(a, sort) + Count(b, sort)
  {
    if b == [] {
      assert a + b == a;
    } else {
      assert (a + b)[..|a + b| - 1] == a + b[..|b| - 1];
      CountSum(a, b[..|b| - 1], sort);
    }
  }

  lemma CountOne(e: Event, sort: Sort)
    ensures Count([e], sort) == if IsOf(e, sort) then 1 else 0
  {
    assert [e][..0] == [];
  }

  lemma OneRequestCounts(cfg: Config, replay: Cache, r: Request, env: Env, sort: Sort)
    ensures
      var h := Handle(cfg, replay, r, env);
      && Count(h.events, sort) == (if Reports(r, h.reply, sort) then 1 else 0)
      && |h.events| == 1 + if Reports(r, h.reply, Proving) then 1 else 0
  {
    OneVerdict(cfg, replay, r, env);
    var h := Handle(cfg, replay, r, env);
    var n := |h.events| - 1;
    CountOne(h.events[n], sort);
    CountSum(h.events[..n], [h.events[n]], sort);
    assert h.events == h.events[..n] + [h.events[n]];
    if n == 1 {
      CountOne(h.events[0], sort);
      assert h.events[..n] == [h.events[0]];
    }
  }

  /**
   Over any run the log accounts for every request: as many validating events as forwards,
   rejecting events as rejections and dpop_verified events as forwards under DPoP.
   */
  lemma {:induction false} AuditConserved(cfg: Config, replay: Cache, visits: seq<Visit>, sort: Sort)
    ensures Count(Log(cfg, replay, visits), sort) == Fates(cfg, replay, visits, sort)
    ensures |Log(cfg, replay, visits)| == |visits| + Fates(cfg, replay, visits, Proving)
  {
    if visits != [] {
      var n := |visits| - 1;
      AuditConserved(cfg, replay, visits[..n], sort);
      OneRequestCounts(cfg, CacheAfter(cfg, replay, visits[..n]), visits[n].r, visits[n].env, sort);
      CountSum(Log(cfg, replay, visits[..n]), HandledAt(cfg, replay, visits, n).events, sort);
    }
  }
}
