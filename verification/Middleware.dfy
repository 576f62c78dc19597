/**
 The request pipeline (bearer.go, dpop.go): token, audience, scopes and claim validator,
 then the DPoP stage, whose last step alone touches the replay cache.
 */
module Middleware {
  import opened Wrappers
  import opened Claims
  import opened Challenge
  import opened ReplayCache
  import KeyCache
  import Text
  import TokenVerifier
  import Urls

  datatype Mode = Off | Optional | Required

  /** A proof whose signature and header have been checked. */
  datatype Proof = Proof(jkt: string, htm: string, htu: string, iat: int, jti: string, ath: string, nonce: string)

  /** A source of server nonces, at a clock reading. */
  datatype NonceSource = NonceSource(valid: (string, int) -> bool, current: int -> string)

  datatype Config = Config(
    mode: Mode,
    verifier: TokenVerifier.Verifier,
    audiences: seq<string>,
    requiredScopes: seq<string>,
    claimValidator: Claims -> Option<string>,
    algs: seq<string>,
    proofMaxAge: int,
    skew: int,
    trustForwarded: bool,
    nonce: Option<NonceSource>,
    readProof: string -> Result<Proof, string>,
    parseUrl: string -> Option<Urls.Url>,
    hash: string -> string)

  datatype Request = Request(
    verb: string,
    authorization: seq<string>,
    dpop: seq<string>,
    tls: bool,
    host: string,
    path: string,
    forwardedProto: string,
    forwardedHost: string)

  /**
   What a request meets on its way: the answers of the key source, the clock at each place
   where it is read, and the failure of a replay backend, if it fails.
   */
  datatype Env = Env(
    keys: string -> KeyCache.Answer,
    tokenAt: int,
    windowAt: int,
    nonceAt: int,
    issueAt: int,
    seenAt: int,
    backendError: bool)

  datatype Event = Event(kind: AuditKind, outcome: AuditOutcome, error: Code, reason: string, claims: Option<Claims>)

  datatype Reply = Forward(claims: Claims) | Reject(err: AuthError)

  datatype Handled = Handled(reply: Reply, events: seq<Event>, lookups: seq<string>, replay: Cache)

  // ---------------------------------------------------------------- the access token

  function ExtractToken(authorization: seq<string>): Option<(Scheme, string)> {
    if |authorization| != 1 then None
    else
      match Text.CutAt(authorization[0], ' ')
      case None => None
      case Some((word, rest)) =>
        var token := Text.TrimSpace(rest);
        if token == "" then None
        else if Text.EqualFold(word, "Bearer") then Some((Bearer, token))
        else if Text.EqualFold(word, "DPoP") then Some((DPoP, token))
        else None
  }

  function NoTokenError(cfg: Config): AuthError {
    match cfg.mode
    case Required => Challenge.DPoPRequired(cfg.algs)
    case Optional => NoTokenDPoPOptional(cfg.algs)
    case Off => NoToken()
  }

  predicate AudienceMatches(aud: seq<string>, accepted: seq<string>) {
    exists i :: 0 <= i < |aud| && aud[i] in accepted
  }

  /** The accepted audiences of a middleware for this resource and these audiences. */
  function AcceptedAudiences(resource: string, audience: seq<string>): seq<string> {
    if resource != "" then [resource] + audience else audience
  }

  /** The required scopes that have not been granted, in order. */
  function MissingScopes(granted: seq<string>, required: seq<string>): seq<string> {
    if required == [] then []
    else
      var front := MissingScopes(granted, required[..|required| - 1]);
      if required[|required| - 1] in granted then front else front + [required[|required| - 1]]
  }

  datatype Authenticated = Accepted(claims: Claims, raw: string, scheme: Scheme) | Refused(err: AuthError, event: Event)

  function Rejection(error: Code, reason: string, claims: Option<Claims>): Event {
    Event(TokenRejected, Deny, error, reason, claims)
  }

  const INVALID := "the access token is invalid"

  function Authenticate(cfg: Config, r: Request, env: Env): (Authenticated, seq<string>) {
    match ExtractToken(r.authorization)
    case None => (Refused(NoTokenError(cfg), Rejection(NoCode, "no token", None)), [])
    case Some((scheme, raw)) =>
      if scheme == DPoP && cfg.mode == Off then
        (Refused(NoToken(), Rejection(NoCode, "DPoP not enabled", None)), [])
      else
        var verified := TokenVerifier.Verify(cfg.verifier, raw, env.keys, env.tokenAt);
        var judged :=
          match verified.result
          case Failure(Malformed) =>
            Refused(InvalidToken("malformed token"), Rejection(InvalidTokenCode, "header parse failed", None))
          case Failure(KeySource(err)) =>
            Refused(InvalidToken(INVALID), Rejection(InvalidTokenCode, "jwks: " + err, None).(outcome := Error))
          case Failure(DisallowedAlg(alg)) =>
            Refused(InvalidToken(INVALID), Rejection(InvalidTokenCode, "disallowed algorithm: " + alg, None))
          case Failure(Invalid(err)) =>
            Refused(InvalidToken(INVALID), Rejection(InvalidTokenCode, err, None))
          case Success(claims) => CheckClaims(cfg, claims, raw, scheme);
        (judged, verified.lookups)
  }

  function CheckClaims(cfg: Config, claims: Claims, raw: string, scheme: Scheme): Authenticated {
    var missing := MissingScopes(claims.scope, cfg.requiredScopes);
    if !AudienceMatches(claims.audience, cfg.audiences) then
      Refused(InvalidToken(INVALID), Rejection(InvalidTokenCode, "audience mismatch", Some(claims)))
    else if missing != [] then
      Refused(InsufficientScope(cfg.requiredScopes),
              Rejection(InsufficientScopeCode, "missing scopes: " + Text.Join(missing), Some(claims)))
    else
      match cfg.claimValidator(claims)
      case Some(err) =>
        Refused(InvalidToken(INVALID), Rejection(InvalidTokenCode, "claim validator: " + err, Some(claims)))
      case None => Accepted(claims, raw, scheme)
  }

  // ---------------------------------------------------------------- the DPoP stage

  function GateBearer(cfg: Config, r: Request, claims: Claims): Option<AuthError> {
    if cfg.mode == Required then Some(WrongScheme(cfg.algs))
    else if claims.cnfJKT != "" then Some(WrongScheme(cfg.algs))
    else if r.dpop != [] then Some(InvalidDPoPProof("DPoP header present with Bearer scheme"))
    else None
  }

  function RequestHTU(r: Request, trustForwarded: bool): string {
    var own := if r.tls then "https" else "http";
    var scheme := if trustForwarded && r.forwardedProto != "" then r.forwardedProto else own;
    var host := if trustForwarded && r.forwardedHost != "" then r.forwardedHost else r.host;
    scheme + "://" + host + r.path
  }

  predicate HTUEqual(cfg: Config, a: string, b: string) {
    var pa, pb := cfg.parseUrl(a), cfg.parseUrl(b);
    && pa.Some? && pb.Some?
    && Text.EqualFold(pa.value.scheme, pb.value.scheme)
    && Text.EqualFold(pa.value.host, pb.value.host)
    && pa.value.path == pb.value.path
  }

  function CheckProofClaims(cfg: Config, r: Request, raw: string, claims: Claims, proof: Proof, now: int)
    : Option<AuthError>
  {
    if proof.jti == "" then Some(InvalidDPoPProof("proof missing jti"))
    else if !Text.EqualFold(proof.htm, r.verb) then Some(InvalidDPoPProof("htm mismatch"))
    else if !HTUEqual(cfg, proof.htu, RequestHTU(r, cfg.trustForwarded)) then Some(InvalidDPoPProof("htu mismatch"))
    else if proof.iat < now - cfg.proofMaxAge || proof.iat > now + cfg.skew then
      Some(InvalidDPoPProof("iat out of window"))
    else if proof.ath != cfg.hash(raw) then Some(InvalidDPoPProof("ath mismatch"))
    else if proof.jkt != claims.cnfJKT then Some(InvalidDPoPProof("cnf.jkt mismatch"))
    else None
  }

  function CheckNonce(cfg: Config, proof: Proof, now: int, issueAt: int): Option<AuthError> {
    match cfg.nonce
    case None => None
    case Some(source) =>
      if proof.nonce == "" || !source.valid(proof.nonce, now)
      then Some(UseDPoPNonce(cfg.algs).(nonce := source.current(issueAt)))
      else None
  }

  /** The call that checkReplay makes to the replay cache. */
  function ReplayCall(cfg: Config, proof: Proof, now: int): Call {
    Call(now, proof.jti, proof.iat + cfg.proofMaxAge)
  }

  function CheckReplay(cfg: Config, replay: Cache, proof: Proof, env: Env): (Option<AuthError>, Cache) {
    if env.backendError then (Some(InvalidDPoPProof("replay backend error").(auditOutcome := Error)), replay)
    else
      var (replay', seen) := SeenStep(replay, ReplayCall(cfg, proof, env.seenAt));
      (if seen then Some(InvalidDPoPProof("jti replay").(auditKind := JTIReplay)) else None, replay')
  }

  /** The checks on the proof that come before the replay cache. */
  function CheckProof(cfg: Config, r: Request, raw: string, claims: Claims, env: Env): Result<Proof, AuthError> {
    if claims.cnfJKT == "" then Failure(InvalidDPoPProof("access token is not DPoP-bound"))
    else if |r.dpop| != 1 then Failure(InvalidDPoPProof("expected exactly one DPoP header"))
    else
      match cfg.readProof(r.dpop[0])
      case Failure(err) => Failure(InvalidDPoPProof(err))
      case Success(proof) =>
        match CheckProofClaims(cfg, r, raw, claims, proof, env.windowAt)
        case Some(ae) => Failure(ae)
        case None =>
          match CheckNonce(cfg, proof, env.nonceAt, env.issueAt)
          case Some(ae) => Failure(ae)
          case None => Success(proof)
  }

  function VerifyDPoP(cfg: Config, replay: Cache, r: Request, raw: string, claims: Claims, scheme: Scheme, env: Env)
    : (Option<AuthError>, Cache)
  {
    if scheme != DPoP then (GateBearer(cfg, r, claims), replay)
    else
      match CheckProof(cfg, r, raw, claims, env)
      case Failure(ae) => (Some(ae), replay)
      case Success(proof) => CheckReplay(cfg, replay, proof, env)
  }

  /** The audit event of a rejection in the DPoP stage. */
  function DPoPRejection(ae: AuthError, claims: Claims): Event {
    Event(if ae.auditKind != Default then ae.auditKind else DPoPRejected,
          if ae.auditOutcome != Unset then ae.auditOutcome else Deny,
          ae.code, ae.reason, Some(claims))
  }

  function EnforceDPoP(cfg: Config, replay: Cache, r: Request, raw: string, claims: Claims, scheme: Scheme, env: Env)
    : (Option<AuthError>, seq<Event>, Cache)
  {
    if cfg.mode == Off then
      if claims.cnfJKT != "" then
        var ae := WrongScheme(cfg.algs);
        var reason := "sender-constrained token presented as Bearer (DPoP off)";
        (Some(ae), [DPoPRejection(ae.(reason := reason), claims)], replay)
      else (None, [], replay)
    else
      var (err, replay') := VerifyDPoP(cfg, replay, r, raw, claims, scheme, env);
      if err.Some? then (err, [DPoPRejection(err.value, claims)], replay')
      else (None, if scheme == DPoP then [Event(DPoPVerified, Allow, NoCode, "", Some(claims))] else [], replay')
  }

  function Handle(cfg: Config, replay: Cache, r: Request, env: Env): Handled {
    var (auth, lookups) := Authenticate(cfg, r, env);
    match auth
    case Refused(ae, event) => Handled(Reject(ae), [event], lookups, replay)
    case Accepted(claims, raw, scheme) =>
      var (err, events, replay') := EnforceDPoP(cfg, replay, r, raw, claims, scheme, env);
      if err.Some? then Handled(Reject(err.value), events, lookups, replay')
      else Handled(Forward(claims), events + [Event(TokenValidated, Allow, NoCode, "", Some(claims))], lookups, replay')
  }

  // ---------------------------------------------------------------- the object

  /** The middleware with what it writes to: the replay cache, the key source and the audit log. */
  class BearerMiddleware {
    const cfg: Config
    const replay: MemReplay
    var events: seq<Event>
    var lookups: seq<string>

    constructor (cfg: Config, replay: MemReplay)
      ensures this.cfg == cfg && this.replay == replay && events == [] && lookups == []
    {
      this.cfg, this.replay := cfg, replay;
      events, lookups := [], [];
    }

    method Emit(ev: Event, claims: Option<Claims>)
      modifies `events
      ensures events == old(events) + [ev.(claims := claims)]
    {
      events := events + [ev.(claims := claims)];
    }

    /** Writes the audit event, with outcome deny unless it says otherwise. */
    method EmitDenied(ev: Event, claims: Option<Claims>)
      modifies `events
      ensures events == old(events) +
                        [ev.(outcome := if ev.outcome == Unset then Deny else ev.outcome, claims := claims)]
    {
      var denied := ev;
      if denied.outcome == Unset {
        denied := denied.(outcome := Deny);
      }
      Emit(denied, claims);
    }

    static method FindMissing(granted: seq<string>, required: seq<string>) returns (missing: seq<string>)
      ensures missing == MissingScopes(granted, required)
    {
      missing := [];
      for i := 0 to |required|
        invariant missing == MissingScopes(granted, required[..i])
      {
        assert required[..i + 1][..i] == required[..i];
        if required[i] !in granted {
          missing := missing + [required[i]];
        }
      }
      assert required[..|required|] == required;
    }

    /** checkReplay, which records the jti; the cache object stands for any backend that may also fail. */
    method RecordReplay(proof: Proof, env: Env) returns (err: Option<AuthError>)
      modifies replay
      ensures (err, replay.View()) == CheckReplay(cfg, old(replay.View()), proof, env)
    {
      if env.backendError {
        return Some(InvalidDPoPProof("replay backend error").(auditOutcome := Error));
      }
      var seen := replay.Seen(env.seenAt, proof.jti, proof.iat + cfg.proofMaxAge);
      if seen {
        return Some(InvalidDPoPProof("jti replay").(auditKind := JTIReplay));
      }
      return None;
    }

    method CheckDPoP(r: Request, raw: string, claims: Claims, scheme: Scheme, env: Env) returns (err: Option<AuthError>)
      modifies replay
      ensures (err, replay.View()) == VerifyDPoP(cfg, old(replay.View()), r, raw, claims, scheme, env)
    {
      if scheme != DPoP {
        return GateBearer(cfg, r, claims);
      }
      match CheckProof(cfg, r, raw, claims, env)
      case Failure(ae) => return Some(ae);
      case Success(proof) => err := RecordReplay(proof, env);
    }

    method Enforce(r: Request, raw: string, claims: Claims, scheme: Scheme, env: Env) returns (err: Option<AuthError>)
      modifies `events, replay
      ensures
        var (err', events', replay') := EnforceDPoP(cfg, old(replay.View()), r, raw, claims, scheme, env);
        err == err' && events == old(events) + events' && replay.View() == replay'
    {
      if cfg.mode == Off {
        if claims.cnfJKT != "" {
          var ae := WrongScheme(cfg.algs);
          var reason := "sender-constrained token presented as Bearer (DPoP off)";
          EmitDenied(Event(DPoPRejected, Unset, ae.code, reason, None), Some(claims));
          return Some(ae);
        }
        return None;
      }
      err := CheckDPoP(r, raw, claims, scheme, env);
      if err.Some? {
        var ae := err.value;
        var kind := if ae.auditKind != Default then ae.auditKind else DPoPRejected;
        EmitDenied(Event(kind, ae.auditOutcome, ae.code, ae.reason, None), Some(claims));
        return;
      }
      if scheme == DPoP {
        Emit(Event(DPoPVerified, Allow, NoCode, "", None), Some(claims));
      }
    }

    method Serve(r: Request, env: Env) returns (reply: Reply)
      modifies this, replay
      ensures
        var h := Handle(cfg, old(replay.View()), r, env);
        && reply == h.reply && replay.View() == h.replay
        && events == old(events) + h.events && lookups == old(lookups) + h.lookups
    {
      var (auth, asked) := Authenticate(cfg, r, env);
      lookups := lookups + asked;
      match auth
      case Refused(ae, event) =>
        EmitDenied(event, event.claims);
        return Reject(ae);
      case Accepted(claims, raw, scheme) =>
        var err := Enforce(r, raw, claims, scheme, env);
        if err.Some? {
          return Reject(err.value);
        }
        Emit(Event(TokenValidated, Allow, NoCode, "", None), Some(claims));
        return Forward(claims);
    }
  }
}
