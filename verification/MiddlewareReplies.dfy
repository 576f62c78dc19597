/**
 What the request pipeline says to each kind of request that it rejects: status, challenge
 and audit event, fault by fault in the order in which faults are looked for.
 */
module MiddlewareReplies {
  import opened Wrappers
  import opened Claims
  import opened Challenge
  import opened ReplayCache
  import opened Middleware
  import opened MiddlewareTheorems
  import KeyCache
  import Text
  import TokenVerifier

  /** A challenge of this status, error code, description and scheme, with these algorithms and nothing more. */
  predicate IsChallenge(ae: AuthError, status: int, code: string, description: string, scheme: string,
                        algs: seq<string>)
  {
    && ae.status == status && CodeText(ae.code) == code && ae.description == description
    && SchemeText(ae.scheme) == scheme && ae.algs == algs
    && ae.scopes == [] && ae.nonce == "" && !ae.withBearer
  }

  /** The request is rejected with this error and one event, and leaves the replay cache as it was. */
  predicate RejectedBy(h: Handled, ae: AuthError, event: Event, replay: Cache) {
    h.reply == Reject(ae) && h.events == [event] && h.replay == replay
  }

  // ---------------------------------------------------------------- no token

  /** Without a token the schemes on offer are those of the mode. */
  lemma MissingTokenReply(cfg: Config, replay: Cache, r: Request, env: Env)
    requires forall scheme, raw :: !Presents(r, scheme, raw)
    ensures
      var h := Handle(cfg, replay, r, env);
      && h.reply.Reject? && h.lookups == [] && h.replay == replay
      && h.events == [Event(TokenRejected, Deny, NoCode, "no token", None)]
      && IsChallenge(h.reply.err.(withBearer := false), 401, "", "",
                     if cfg.mode == Off then "Bearer" else "DPoP", if cfg.mode == Off then [] else cfg.algs)
      && (h.reply.err.withBearer <==> cfg.mode == Optional)
  {
    var extracted := ExtractToken(r.authorization);
    if extracted.Some? {
      ExtractIff(r, extracted.value.0, extracted.value.1);
    }
  }

  /** A token under DPoP is not looked at when DPoP is off. */
  lemma DisabledSchemeReply(cfg: Config, replay: Cache, r: Request, env: Env, raw: string)
    requires Presents(r, DPoP, raw) && cfg.mode == Off
    ensures
      var h := Handle(cfg, replay, r, env);
      && h.reply.Reject? && h.lookups == []
      && RejectedBy(h, h.reply.err, Event(TokenRejected, Deny, NoCode, "DPoP not enabled", None), replay)
      && IsChallenge(h.reply.err, 401, "", "", "Bearer", [])
  {
    ExtractIff(r, DPoP, raw);
  }

  // ---------------------------------------------------------------- a token that is no good

  /** The token is refused as invalid, with this description to the client and this reason to the log. */
  predicate TokenRefused(auth: Authenticated, description: string, outcome: AuditOutcome, reason: string,
                         claims: Option<Claims>)
  {
    && auth.Refused? && IsChallenge(auth.err, 401, "invalid_token", description, "Bearer", [])
    && auth.event == Event(TokenRejected, outcome, InvalidTokenCode, reason, claims)
  }

  lemma RefusedReply(cfg: Config, replay: Cache, r: Request, env: Env)
    requires Authenticate(cfg, r, env).0.Refused?
    ensures
      var auth := Authenticate(cfg, r, env).0;
      RejectedBy(Handle(cfg, replay, r, env), auth.err, auth.event, replay)
  {
  }

  /** A token that cannot be verified is refused for the first fault there is. */
  predicate UnverifiedRefused(cfg: Config, env: Env, auth: Authenticated, raw: string) {
    match cfg.verifier.header(raw)
    case None => TokenRefused(auth, "malformed token", Deny, "header parse failed", None)
    case Some((kid, alg)) =>
      var keys := env.keys(kid);
      var parsed := cfg.verifier.parse(raw, keys.keySet, env.tokenAt);
      if alg !in cfg.verifier.algs then
        TokenRefused(auth, "the access token is invalid", Deny, "disallowed algorithm: " + alg, None)
      else if keys.err.Some? then
        TokenRefused(auth, "the access token is invalid", Error, "jwks: " + keys.err.value, None)
      else
        parsed.Failure? && TokenRefused(auth, "the access token is invalid", Deny, parsed.error, None)
  }

  /** The answer to each error of the verifier. */
  predicate RefusedAs(auth: Authenticated, err: TokenVerifier.VerifyError) {
    match err
    case Malformed => TokenRefused(auth, "malformed token", Deny, "header parse failed", None)
    case DisallowedAlg(alg) =>
      TokenRefused(auth, "the access token is invalid", Deny, "disallowed algorithm: " + alg, None)
    case KeySource(e) => TokenRefused(auth, "the access token is invalid", Error, "jwks: " + e, None)
    case Invalid(e) => TokenRefused(auth, "the access token is invalid", Deny, e, None)
  }

  lemma RefusedFor(cfg: Config, r: Request, env: Env, scheme: Scheme, raw: string, err: TokenVerifier.VerifyError)
    requires Presents(r, scheme, raw) && !(scheme == DPoP && cfg.mode == Off)
    requires TokenVerifier.Verify(cfg.verifier, raw, env.keys, env.tokenAt).result == Failure(err)
    ensures RefusedAs(Authenticate(cfg, r, env).0, err)
  {
    ExtractIff(r, scheme, raw);
  }

  lemma UnverifiedAs(cfg: Config, env: Env, auth: Authenticated, raw: string, err: TokenVerifier.VerifyError)
    requires TokenVerifier.Verify(cfg.verifier, raw, env.keys, env.tokenAt).result == Failure(err)
    requires RefusedAs(auth, err)
    ensures UnverifiedRefused(cfg, env, auth, raw)
  {
    TokenVerifier.VerifyErrorIs(cfg.verifier, raw, env.keys, env.tokenAt);
  }

  ghost predicate HasAudience(cfg: Config, claims: Claims) {
    exists a :: a in claims.audience && a in cfg.audiences
  }

  ghost predicate HasScopes(cfg: Config, claims: Claims) {
    forall s :: s in cfg.requiredScopes ==> s in claims.scope
  }

  /** The token is refused for its scopes, and told those required; the log is told those missing. */
  predicate ScopesRefused(cfg: Config, auth: Authenticated, claims: Claims) {
    && auth.Refused? && auth.err.scopes == cfg.requiredScopes
    && IsChallenge(auth.err.(scopes := []), 403, "insufficient_scope",
                   "the request requires higher privileges than provided by the access token", "Bearer", [])
    && auth.event == Event(TokenRejected, Deny, InsufficientScopeCode,
                           "missing scopes: " + Text.Join(MissingScopes(claims.scope, cfg.requiredScopes)),
                           Some(claims))
  }

  /** An authentic token that is unfit is refused for its audience, then its scopes, then by the claim validator. */
  ghost predicate UnfitRefused(cfg: Config, auth: Authenticated, claims: Claims) {
    if !HasAudience(cfg, claims) then
      TokenRefused(auth, "the access token is invalid", Deny, "audience mismatch", Some(claims))
    else if !HasScopes(cfg, claims) then ScopesRefused(cfg, auth, claims)
    else
      && cfg.claimValidator(claims).Some?
      && TokenRefused(auth, "the access token is invalid", Deny,
                      "claim validator: " + cfg.claimValidator(claims).value, Some(claims))
  }

  lemma AudienceFault(cfg: Config, claims: Claims, raw: string, scheme: Scheme)
    requires !HasAudience(cfg, claims)
    ensures TokenRefused(CheckClaims(cfg, claims, raw, scheme), "the access token is invalid", Deny,
                         "audience mismatch", Some(claims))
  {
    AudienceIff(claims.audience, cfg.audiences);
  }

  lemma ScopeFault(cfg: Config, claims: Claims, raw: string, scheme: Scheme)
    requires HasAudience(cfg, claims) && !HasScopes(cfg, claims)
    ensures ScopesRefused(cfg, CheckClaims(cfg, claims, raw, scheme), claims)
  {
    AudienceIff(claims.audience, cfg.audiences);
    MissingIff(claims.scope, cfg.requiredScopes);
  }

  lemma ValidatorFault(cfg: Config, claims: Claims, raw: string, scheme: Scheme)
    requires HasAudience(cfg, claims) && HasScopes(cfg, claims) && cfg.claimValidator(claims).Some?
    ensures TokenRefused(CheckClaims(cfg, claims, raw, scheme), "the access token is invalid", Deny,
                         "claim validator: " + cfg.claimValidator(claims).value, Some(claims))
  {
    AudienceIff(claims.audience, cfg.audiences);
    MissingIff(claims.scope, cfg.requiredScopes);
  }

  lemma ClaimsFault(cfg: Config, claims: Claims, raw: string, scheme: Scheme)
    requires !(HasAudience(cfg, claims) && HasScopes(cfg, claims) && cfg.claimValidator(claims).None?)
    ensures UnfitRefused(cfg, CheckClaims(cfg, claims, raw, scheme), claims)
  {
    if !HasAudience(cfg, claims) {
      AudienceFault(cfg, claims, raw, scheme);
    } else if !HasScopes(cfg, claims) {
      ScopeFault(cfg, claims, raw, scheme);
    } else {
      ValidatorFault(cfg, claims, raw, scheme);
    }
  }

  /** A token that cannot be verified is refused for the first fault there is, before anything else is looked at. */
  lemma UnverifiedReply(cfg: Config, replay: Cache, r: Request, env: Env, scheme: Scheme, raw: string)
    requires Presents(r, scheme, raw) && !(scheme == DPoP && cfg.mode == Off)
    requires forall claims :: !TokenVerifier.Authentic(cfg.verifier, raw, env.keys, env.tokenAt, claims)
    ensures
      var h := Handle(cfg, replay, r, env);
      && h.reply.Reject? && h.replay == replay && |h.events| == 1
      && UnverifiedRefused(cfg, env, Refused(h.reply.err, h.events[0]), raw)
  {
    var result := TokenVerifier.Verify(cfg.verifier, raw, env.keys, env.tokenAt).result;
    if result.Success? {
      TokenVerifier.VerifyIff(cfg.verifier, raw, env.keys, env.tokenAt, result.value);
    }
    RefusedFor(cfg, r, env, scheme, raw, result.error);
    UnverifiedAs(cfg, env, Authenticate(cfg, r, env).0, raw, result.error);
    RefusedReply(cfg, replay, r, env);
  }

  lemma UnfitToken(cfg: Config, r: Request, env: Env, f: Found)
    requires Carries(cfg, r, env, f)
    ensures Authenticate(cfg, r, env).0 == CheckClaims(cfg, f.claims, f.raw, f.scheme)
  {
    FindTokenIff(cfg, r, env, f);
    RefusalCode(cfg, r, env);
  }

  /** An authentic token is refused for its audience, then for its scopes, then by the claim validator. */
  lemma UnfitTokenReply(cfg: Config, replay: Cache, r: Request, env: Env, f: Found)
    requires Carries(cfg, r, env, f) && !TokenGood(cfg, env, f.raw, f.claims)
    ensures
      var h := Handle(cfg, replay, r, env);
      && h.reply.Reject? && h.replay == replay && |h.events| == 1
      && UnfitRefused(cfg, Refused(h.reply.err, h.events[0]), f.claims)
  {
    UnfitToken(cfg, r, env, f);
    ClaimsFault(cfg, f.claims, f.raw, f.scheme);
    RefusedReply(cfg, replay, r, env);
  }

  /** The missing scopes are told in the order in which they are required. */
  lemma {:induction false} MissingInOrder(granted: seq<string>, a: seq<string>, b: seq<string>)
    ensures MissingScopes(granted, a + b) == MissingScopes(granted, a) + MissingScopes(granted, b)
  {
    if b == [] {
      assert a + b == a;
    } else {
      assert (a + b)[..|a + b| - 1] == a + b[..|b| - 1];
      MissingInOrder(granted, a, b[..|b| - 1]);
    }
  }

  // ---------------------------------------------------------------- a good token under Bearer

  lemma BearerFault(cfg: Config, replay: Cache, r: Request, raw: string, claims: Claims, env: Env)
    ensures
      var (err, events, replay') := EnforceDPoP(cfg, replay, r, raw, claims, Bearer, env);
      && replay' == replay
      && (cfg.mode == Required || claims.cnfJKT != "" ==>
            && err.Some? && events == [Event(DPoPRejected, Deny, InvalidTokenCode,
                                             if cfg.mode == Off
                                             then "sender-constrained token presented as Bearer (DPoP off)" else "",
                                             Some(claims))]
            && IsChallenge(err.value, 401, "invalid_token", "the access token requires a DPoP proof", "DPoP", cfg.algs))
      && (cfg.mode == Optional && claims.cnfJKT == "" && r.dpop != [] ==>
            && err.Some? && events == [Event(DPoPRejected, Deny, InvalidTokenCode,
                                             "DPoP header present with Bearer scheme", Some(claims))]
            && IsChallenge(err.value, 401, "invalid_token", "the DPoP proof is invalid", "DPoP", []))
  {
  }

  /** A good token under Bearer is asked to come back with a proof where the mode or its binding demands one. */
  lemma BearerReply(cfg: Config, replay: Cache, r: Request, env: Env, raw: string, claims: Claims)
    requires Presents(r, Bearer, raw) && TokenGood(cfg, env, raw, claims)
    requires !SchemeGood(cfg, replay, r, env, Bearer, raw, claims)
    ensures
      var h := Handle(cfg, replay, r, env);
      && h.reply.Reject? && h.replay == replay
      && if cfg.mode == Required || claims.cnfJKT != "" then
           && h.events == [Event(DPoPRejected, Deny, InvalidTokenCode,
                                 if cfg.mode == Off
                                 then "sender-constrained token presented as Bearer (DPoP off)" else "", Some(claims))]
           && IsChallenge(h.reply.err, 401, "invalid_token", "the access token requires a DPoP proof", "DPoP", cfg.algs)
         else
           && cfg.mode == Optional && r.dpop != []
           && h.events == [Event(DPoPRejected, Deny, InvalidTokenCode, "DPoP header present with Bearer scheme",
                                 Some(claims))]
           && IsChallenge(h.reply.err, 401, "invalid_token", "the DPoP proof is invalid", "DPoP", [])
  {
    AuthenticateIff(cfg, r, env, Bearer, raw, claims);
    BearerFault(cfg, replay, r, raw, claims, env);
  }

  // ---------------------------------------------------------------- a good token under DPoP

  /** The proof is refused, for this reason. */
  predicate ProofRefused(ae: AuthError, reason: string) {
    && IsChallenge(ae, 401, "invalid_token", "the DPoP proof is invalid", "DPoP", [])
    && ae.reason == reason && ae.auditKind == Default && ae.auditOutcome == Unset
  }

  lemma ClaimFault(cfg: Config, r: Request, raw: string, claims: Claims, proof: Proof, now: int)
    ensures
      var err := CheckProofClaims(cfg, r, raw, claims, proof, now);
      if proof.jti == "" then err.Some? && ProofRefused(err.value, "proof missing jti")
      else if !Text.EqualFold(proof.htm, r.verb) then err.Some? && ProofRefused(err.value, "htm mismatch")
      else if !HTUEqual(cfg, proof.htu, RequestHTU(r, cfg.trustForwarded)) then
        err.Some? && ProofRefused(err.value, "htu mismatch")
      else if !(now - cfg.proofMaxAge <= proof.iat <= now + cfg.skew) then
        err.Some? && ProofRefused(err.value, "iat out of window")
      else if proof.ath != cfg.hash(raw) then err.Some? && ProofRefused(err.value, "ath mismatch")
      else if proof.jkt != claims.cnfJKT then err.Some? && ProofRefused(err.value, "cnf.jkt mismatch")
      else err.None?
  {
  }

  /** The proof is asked to come back with this nonce. */
  predicate NonceAsked(cfg: Config, ae: AuthError, nonce: string) {
    && IsChallenge(ae.(nonce := ""), 401, "use_dpop_nonce", "authorization server requires nonce in DPoP proof", "DPoP",
                   cfg.algs)
    && ae.nonce == nonce && ae.reason == "" && ae.auditKind == Default && ae.auditOutcome == Unset
  }

  /** The faults of a proof, in the order in which they are looked for. */
  lemma ProofFault(cfg: Config, r: Request, raw: string, claims: Claims, env: Env)
    ensures
      var checked := CheckProof(cfg, r, raw, claims, env);
      if claims.cnfJKT == "" then
        checked.Failure? && ProofRefused(checked.error, "access token is not DPoP-bound")
      else if |r.dpop| != 1 then
        checked.Failure? && ProofRefused(checked.error, "expected exactly one DPoP header")
      else if cfg.readProof(r.dpop[0]).Failure? then
        checked.Failure? && ProofRefused(checked.error, cfg.readProof(r.dpop[0]).error)
      else
        var proof := cfg.readProof(r.dpop[0]).value;
        var err := CheckProofClaims(cfg, r, raw, claims, proof, env.windowAt);
        && (err.Some? ==> checked == Failure(err.value))
        && (err.None? && checked.Failure? ==>
              cfg.nonce.Some? && NonceAsked(cfg, checked.error, cfg.nonce.value.current(env.issueAt)))
  {
  }

  /** A proof that is refused is refused alike to the client and the log, and never reaches the replay cache. */
  lemma ProofReply(cfg: Config, replay: Cache, r: Request, env: Env, raw: string, claims: Claims)
    requires ReachesProof(cfg, r, env, raw, claims) && CheckProof(cfg, r, raw, claims, env).Failure?
    ensures
      var ae := CheckProof(cfg, r, raw, claims, env).error;
      RejectedBy(Handle(cfg, replay, r, env), ae, Event(DPoPRejected, Deny, ae.code, ae.reason, Some(claims)), replay)
  {
    ReachesProofIff(cfg, r, env, raw, claims);
    ProofKinds(cfg, r, raw, claims, env);
    StageReply(cfg, replay, r, raw, claims, env);
  }

  lemma StageReply(cfg: Config, replay: Cache, r: Request, raw: string, claims: Claims, env: Env)
    requires cfg.mode != Off && CheckProof(cfg, r, raw, claims, env).Failure?
    ensures
      var ae := CheckProof(cfg, r, raw, claims, env).error;
      EnforceDPoP(cfg, replay, r, raw, claims, DPoP, env)
      == (Some(ae), [Event(DPoPRejected, Deny, ae.code, ae.reason, Some(claims))], replay)
  {
    ProofKinds(cfg, r, raw, claims, env);
  }

  /** A good proof is refused if the replay backend fails or knows it, which the log tells apart. */
  lemma ReplayFault(cfg: Config, replay: Cache, r: Request, raw: string, claims: Claims, env: Env)
    requires cfg.mode != Off && CheckProof(cfg, r, raw, claims, env).Success?
    requires !ProofNew(replay, env, CheckProof(cfg, r, raw, claims, env).value)
    ensures
      var (err, events, _) := EnforceDPoP(cfg, replay, r, raw, claims, DPoP, env);
      && err.Some? && IsChallenge(err.value, 401, "invalid_token", "the DPoP proof is invalid", "DPoP", [])
      && events == [if env.backendError
                    then Event(DPoPRejected, Error, InvalidTokenCode, "replay backend error", Some(claims))
                    else Event(JTIReplay, Deny, InvalidTokenCode, "jti replay", Some(claims))]
  {
  }

  lemma ReplayReply(cfg: Config, replay: Cache, r: Request, env: Env, raw: string, claims: Claims, proof: Proof)
    requires ReachesProof(cfg, r, env, raw, claims) && ProofGood(cfg, r, env, raw, claims, proof)
    requires !ProofNew(replay, env, proof)
    ensures
      var h := Handle(cfg, replay, r, env);
      && h.reply.Reject? && IsChallenge(h.reply.err, 401, "invalid_token", "the DPoP proof is invalid", "DPoP", [])
      && h.events == [if env.backendError
                      then Event(DPoPRejected, Error, InvalidTokenCode, "replay backend error", Some(claims))
                      else Event(JTIReplay, Deny, InvalidTokenCode, "jti replay", Some(claims))]
  {
    ReachesProofIff(cfg, r, env, raw, claims);
    CheckProofIff(cfg, r, raw, claims, env, proof);
    ReplayFault(cfg, replay, r, raw, claims, env);
  }
}
