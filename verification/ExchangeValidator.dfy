/**
 The server side of a token exchange (exchange_validator.go): the checks on form and
 tokens, the may_act rule, and the act chain of delegation.
 */
module ExchangeValidator {
  import opened Wrappers
  import opened Claims
  import opened ExchangeForm
  import ExchangeWire
  import Json
  import KeyCache
  import Middleware
  import TokenVerifier

  type Error = ExchangeWire.ExchangeError

  /** The grant handed to the policy, and then to the caller. */
  datatype Grant = Grant(
    subject: Claims,
    actor: Option<Claims>,
    isDelegation: bool,
    requestedAudience: seq<string>,
    requestedScope: seq<string>,
    requestedResource: seq<string>,
    requestedTokenType: string,
    act: Option<map<string, Json.Value>>,
    confirmation: string)

  /** The decision of a policy, and the grant as it has left it; an error may be of any type. */
  datatype Decision = Approve(grant: Grant) | Refuse(err: Option<Error>)

  datatype Config = Config(
    verifier: TokenVerifier.Verifier,
    audiences: seq<string>,
    policy: Option<Grant -> Decision>)

  /** The answers of the key source and the clock, for the subject token and for the actor token. */
  datatype Env = Env(keys: string -> KeyCache.Answer, subjectAt: int, actorAt: int)

  datatype Event = Event(allowed: bool, subject: string, issuer: string, audience: seq<string>, scope: seq<string>,
                         error: string, reason: string)

  function Fault(code: string, description: string): Error {
    ExchangeWire.ExchangeError(code, description, "", 0)
  }

  // ---------------------------------------------------------------- may_act and act

  /** Whether this actor may act for the subject; the empty actor stands for none. */
  predicate MayActAllows(payload: Option<Json.Value>, actorSub: string) {
    match Json.Members(payload)
    case None => true
    case Some(members) =>
      if "may_act" !in members then true
      else
        match Json.Members(Some(members["may_act"]))
        case None => false
        case Some(mayAct) =>
          var sub := Json.AsString(Json.Member(mayAct, "sub"));
          sub.Some? && sub.value != "" && sub.value == actorSub
  }

  /** The act claim that a token already carries, if it is a non-empty object. */
  function ActOf(payload: Option<Json.Value>): Option<map<string, Json.Value>> {
    match Json.Members(payload)
    case None => None
    case Some(members) =>
      match Json.Members(if "act" in members then Some(members["act"]) else Some(Json.Null))
      case None => None
      case Some(act) => if act == map[] then None else Some(act)
  }

  function ActChain(actorSub: string, payload: Option<Json.Value>): map<string, Json.Value> {
    var act := map["sub" := Json.Str(actorSub)];
    match ActOf(payload)
    case None => act
    case Some(inner) => act["act" := Json.Obj(inner)]
  }

  // ---------------------------------------------------------------- validation

  /** The checks on the form alone. */
  function FormFault(asked: Asked): Option<Error> {
    if asked.grantType != TOKEN_EXCHANGE then Some(Fault("unsupported_grant_type", ""))
    else if asked.subjectToken == "" || asked.subjectTokenType == "" then
      Some(Fault("invalid_request", "subject_token and subject_token_type are required"))
    else if asked.actorToken != "" && asked.actorTokenType == "" then
      Some(Fault("invalid_request", "actor_token_type is required with actor_token"))
    else None
  }

  /** Verifies one token and its audience. */
  function CheckToken(cfg: Config, raw: string, keys: string -> KeyCache.Answer, now: int, name: string)
    : Result<Claims, Error>
  {
    match TokenVerifier.Verify(cfg.verifier, raw, keys, now).result
    case Failure(_) => Failure(Fault("invalid_grant", name + " invalid"))
    case Success(claims) =>
      if cfg.audiences != [] && !Middleware.AudienceMatches(claims.audience, cfg.audiences)
      then Failure(Fault("invalid_grant", name + " audience not accepted"))
      else Success(claims)
  }

  function Impersonation(asked: Asked, subject: Claims): Grant {
    Grant(subject, None, false, asked.audience, asked.scope, asked.resource, asked.requestedTokenType, None,
          subject.cnfJKT)
  }

  function Delegation(asked: Asked, subject: Claims, actor: Claims): Grant {
    Impersonation(asked, subject).(
      actor := Some(actor), isDelegation := true, act := Some(ActChain(actor.subject, subject.payload)))
  }

  /** The grant as the policy gets to see it, or the error before that. */
  function AtPolicy(cfg: Config, asked: Asked, env: Env): Result<Grant, Error> {
    match FormFault(asked)
    case Some(fault) => Failure(fault)
    case None =>
      match CheckToken(cfg, asked.subjectToken, env.keys, env.subjectAt, "subject_token")
      case Failure(fault) => Failure(fault)
      case Success(subject) =>
        if asked.actorToken == "" then
          if MayActAllows(subject.payload, "") then Success(Impersonation(asked, subject))
          else Failure(Fault("invalid_grant", "subject requires a permitted actor"))
        else
          match CheckToken(cfg, asked.actorToken, env.keys, env.actorAt, "actor_token")
          case Failure(fault) => Failure(fault)
          case Success(actor) =>
            if MayActAllows(subject.payload, actor.subject) then Success(Delegation(asked, subject, actor))
            else Failure(Fault("invalid_grant", "actor not permitted (may_act)"))
  }

  /** The outcome of a request whose form parses, or form == None if it does not. */
  function Validated(cfg: Config, form: Option<Form>, env: Env): Result<Grant, Error> {
    match form
    case None => Failure(Fault("invalid_request", "unparseable form"))
    case Some(f) =>
      match AtPolicy(cfg, Read(f), env)
      case Failure(fault) => Failure(fault)
      case Success(grant) =>
        if cfg.policy.None? then Success(grant)
        else
          match cfg.policy.value(grant)
          case Approve(narrowed) => Success(narrowed)
          case Refuse(Some(err)) => Failure(err)
          case Refuse(None) => Failure(Fault("invalid_target", "policy denied"))
  }

  /** The one audit event of a request. */
  function EventOf(cfg: Config, form: Option<Form>, env: Env): Event {
    match Validated(cfg, form, env)
    case Failure(err) => Event(false, "", "", [], [], err.code, err.description)
    case Success(grant) =>
      var subject := AtPolicy(cfg, Read(form.value), env).value.subject;
      Event(true, subject.subject, subject.issuer, grant.requestedAudience, grant.requestedScope, "", "")
  }

  /** The validator with its audit log. */
  class Validator {
    const cfg: Config
    var events: seq<Event>

    constructor (cfg: Config)
      ensures this.cfg == cfg && events == []
    {
      this.cfg, events := cfg, [];
    }

    method Deny(err: Error) returns (result: Result<Grant, Error>)
      modifies this
      ensures result == Failure(err)
      ensures events == old(events) + [Event(false, "", "", [], [], err.code, err.description)]
    {
      events := events + [Event(false, "", "", [], [], err.code, err.description)];
      return Failure(err);
    }

    /** The token checks and the grant, filled in field by field. */
    method BuildGrant(asked: Asked, env: Env) returns (result: Result<Grant, Error>)
      requires FormFault(asked).None?
      ensures result == AtPolicy(cfg, asked, env)
    {
      var checked := CheckToken(cfg, asked.subjectToken, env.keys, env.subjectAt, "subject_token");
      if checked.Failure? {
        return Failure(checked.error);
      }
      var subject := checked.value;
      var grant := Grant(subject, None, false, asked.audience, asked.scope, asked.resource, asked.requestedTokenType,
                         None, subject.cnfJKT);
      if asked.actorToken != "" {
        var checkedActor := CheckToken(cfg, asked.actorToken, env.keys, env.actorAt, "actor_token");
        if checkedActor.Failure? {
          return Failure(checkedActor.error);
        }
        var actor := checkedActor.value;
        if !MayActAllows(subject.payload, actor.subject) {
          return Failure(Fault("invalid_grant", "actor not permitted (may_act)"));
        }
        grant := grant.(actor := Some(actor));
        grant := grant.(isDelegation := true);
        grant := grant.(act := Some(ActChain(actor.subject, subject.payload)));
      } else if !MayActAllows(subject.payload, "") {
        return Failure(Fault("invalid_grant", "subject requires a permitted actor"));
      }
      return Success(grant);
    }

    method Validate(form: Option<Form>, env: Env) returns (result: Result<Grant, Error>)
      modifies this
      ensures result == Validated(cfg, form, env)
      ensures events == old(events) + [EventOf(cfg, form, env)]
    {
      if form.None? {
        result := Deny(Fault("invalid_request", "unparseable form"));
        return;
      }
      var asked := Read(form.value);
      var fault := FormFault(asked);
      if fault.Some? {
        result := Deny(fault.value);
        return;
      }
      var built := BuildGrant(asked, env);
      if built.Failure? {
        result := Deny(built.error);
        return;
      }
      var grant, subject := built.value, built.value.subject;
      if cfg.policy.Some? {
        match cfg.policy.value(grant)
        case Refuse(Some(err)) =>
          result := Deny(err);
          return;
        case Refuse(None) =>
          result := Deny(Fault("invalid_target", "policy denied"));
          return;
        case Approve(narrowed) =>
          grant := narrowed;
      }
      events := events + [Event(true, subject.subject, subject.issuer, grant.requestedAudience, grant.requestedScope,
                                "", "")];
      return Success(grant);
    }
  }

  // ---------------------------------------------------------------- soundness of a grant

  /** The token is authentic and, if audiences are configured, for one of them. */
  ghost predicate TokenGood(cfg: Config, raw: string, keys: string -> KeyCache.Answer, now: int, claims: Claims) {
    && TokenVerifier.Authentic(cfg.verifier, raw, keys, now, claims)
    && (cfg.audiences != [] ==> exists a :: a in claims.audience && a in cfg.audiences)
  }

  /** The token names the actors that may act for its subject: may_act is present, be it null. */
  predicate Restricted(payload: Option<Json.Value>) {
    Json.Members(payload).Some? && "may_act" in Json.Members(payload).value
  }

  /** The one actor that a restricted token permits. */
  predicate Permits(payload: Option<Json.Value>, actorSub: string) {
    && Restricted(payload) && actorSub != ""
    && var mayAct := Json.Members(payload).value["may_act"];
       mayAct.Obj? && "sub" in mayAct.members && mayAct.members["sub"] == Json.Str(actorSub)
  }

  lemma MayActIff(payload: Option<Json.Value>, actorSub: string)
    ensures MayActAllows(payload, actorSub) <==> (Restricted(payload) ==> Permits(payload, actorSub))
  {
  }

  lemma CheckTokenIff(cfg: Config, raw: string, keys: string -> KeyCache.Answer, now: int, name: string, claims: Claims)
    ensures CheckToken(cfg, raw, keys, now, name) == Success(claims) <==> TokenGood(cfg, raw, keys, now, claims)
  {
    TokenVerifier.VerifyIff(cfg.verifier, raw, keys, now, claims);
  }

  /** What holds of a grant at entry to the policy, in terms of the request and its tokens. */
  ghost predicate Sound(cfg: Config, asked: Asked, env: Env, grant: Grant) {
    && asked.grantType == TOKEN_EXCHANGE && asked.subjectToken != "" && asked.subjectTokenType != ""
    && (asked.actorToken != "" ==> asked.actorTokenType != "")
    && TokenGood(cfg, asked.subjectToken, env.keys, env.subjectAt, grant.subject)
    && (grant.isDelegation <==> asked.actorToken != "")
    && (grant.actor.Some? <==> asked.actorToken != "")
    && (grant.act.Some? <==> asked.actorToken != "")
    && (grant.actor.Some? ==> TokenGood(cfg, asked.actorToken, env.keys, env.actorAt, grant.actor.value))
    && (grant.actor.Some? ==> grant.act == Some(ActChain(grant.actor.value.subject, grant.subject.payload)))
    && (Restricted(grant.subject.payload) ==>
          grant.actor.Some? && Permits(grant.subject.payload, grant.actor.value.subject))
    && grant.requestedAudience == asked.audience && grant.requestedScope == asked.scope
    && grant.requestedResource == asked.resource && grant.requestedTokenType == asked.requestedTokenType
    && grant.confirmation == grant.subject.cnfJKT
  }

  /** A request gets to the policy with a grant exactly if the grant is sound. */
  lemma GrantSoundIff(cfg: Config, asked: Asked, env: Env, grant: Grant)
    ensures AtPolicy(cfg, asked, env) == Success(grant) <==> Sound(cfg, asked, env, grant)
  {
    var subject := grant.subject;
    CheckTokenIff(cfg, asked.subjectToken, env.keys, env.subjectAt, "subject_token", subject);
    MayActIff(subject.payload, "");
    if grant.actor.Some? {
      CheckTokenIff(cfg, asked.actorToken, env.keys, env.actorAt, "actor_token", grant.actor.value);
      MayActIff(subject.payload, grant.actor.value.subject);
    }
  }

  /** The policy, if there is one, makes this grant of the one it gets to see. */
  predicate Approved(cfg: Config, seen: Grant, grant: Grant) {
    if cfg.policy.None? then grant == seen else cfg.policy.value(seen) == Approve(grant)
  }

  /** A request is granted exactly what the policy approves of for its sound grant. */
  lemma ValidatedIff(cfg: Config, form: Option<Form>, env: Env, grant: Grant)
    ensures Validated(cfg, form, env) == Success(grant) <==>
            form.Some? && exists seen :: Sound(cfg, Read(form.value), env, seen) && Approved(cfg, seen, grant)
  {
    if form.Some? {
      var at := AtPolicy(cfg, Read(form.value), env);
      if at.Success? {
        GrantSoundIff(cfg, Read(form.value), env, at.value);
      }
      forall seen | Sound(cfg, Read(form.value), env, seen)
        ensures at == Success(seen)
      {
        GrantSoundIff(cfg, Read(form.value), env, seen);
      }
    }
  }

  /** A policy that refuses a sound grant is obeyed: its own error is the answer, or that it denied. */
  lemma PolicyRefuses(cfg: Config, form: Form, env: Env, seen: Grant)
    requires Sound(cfg, Read(form), env, seen) && cfg.policy.Some? && cfg.policy.value(seen).Refuse?
    ensures
      var refusal := cfg.policy.value(seen).err;
      Validated(cfg, Some(form), env) ==
      Failure(if refusal.Some? then refusal.value
              else ExchangeWire.ExchangeError("invalid_target", "policy denied", "", 0))
  {
    GrantSoundIff(cfg, Read(form), env, seen);
  }

  /** Without a sound grant no policy is asked: the answer is the same whatever it would say. */
  lemma PolicyNotAsked(cfg: Config, form: Option<Form>, env: Env)
    requires form.Some? ==> forall seen :: !Sound(cfg, Read(form.value), env, seen)
    ensures
      var result := Validated(cfg, form, env);
      && result.Failure?
      && result == Validated(cfg.(policy := None), form, env)
      && (form.None? ==> result.error == ExchangeWire.ExchangeError("invalid_request", "unparseable form", "", 0))
      && (form.Some? ==> AtPolicy(cfg, Read(form.value), env) == Failure(result.error))
  {
    if form.Some? {
      var at := AtPolicy(cfg, Read(form.value), env);
      if at.Success? {
        GrantSoundIff(cfg, Read(form.value), env, at.value);
      }
      SamePolicyInput(cfg, Read(form.value), env);
    }
  }

  lemma SamePolicyInput(cfg: Config, asked: Asked, env: Env)
    ensures AtPolicy(cfg.(policy := None), asked, env) == AtPolicy(cfg, asked, env)
  {
  }

  /**
   The event allows exactly a granted request, with the verified subject and what the policy
   has left of the request; a denial carries the code and description of the answer.
   */
  lemma EventIff(cfg: Config, form: Option<Form>, env: Env)
    ensures
      var result, event := Validated(cfg, form, env), EventOf(cfg, form, env);
      && (event.allowed <==> result.Success?)
      && (result.Failure? ==>
            event == Event(false, "", "", [], [], result.error.code, result.error.description))
      && (result.Success? ==>
            form.Some? && exists seen ::
              && Sound(cfg, Read(form.value), env, seen) && Approved(cfg, seen, result.value)
              && event == Event(true, seen.subject.subject, seen.subject.issuer, result.value.requestedAudience,
                                result.value.requestedScope, "", ""))
  {
    if Validated(cfg, form, env).Success? {
      var seen := AtPolicy(cfg, Read(form.value), env).value;
      GrantSoundIff(cfg, Read(form.value), env, seen);
      assert Approved(cfg, seen, Validated(cfg, form, env).value);
    }
  }

  /** The form is for a token exchange and has what one needs. */
  predicate WellAsked(asked: Asked) {
    asked.subjectToken != "" && asked.subjectTokenType != "" && (asked.actorToken != "" ==> asked.actorTokenType != "")
  }

  /** The code of a request that does not get to the policy says which of its parts is at fault. */
  lemma RejectionCodeIff(cfg: Config, asked: Asked, env: Env)
    requires AtPolicy(cfg, asked, env).Failure?
    ensures
      var code := AtPolicy(cfg, asked, env).error.code;
      && (code == "unsupported_grant_type" <==> asked.grantType != TOKEN_EXCHANGE)
      && (code == "invalid_request" <==> asked.grantType == TOKEN_EXCHANGE && !WellAsked(asked))
      && (code == "invalid_grant" <==> asked.grantType == TOKEN_EXCHANGE && WellAsked(asked))
  {
    assert |"unsupported_grant_type"| == 22 && |"invalid_request"| == 15 && |"invalid_grant"| == 13;
  }

  /** The token of this name is the reason for an error before the policy. */
  ghost predicate TokenFault(cfg: Config, raw: string, keys: string -> KeyCache.Answer, now: int, name: string,
                             description: string)
  {
    if exists claims :: TokenVerifier.Authentic(cfg.verifier, raw, keys, now, claims)
    then (forall claims :: !TokenGood(cfg, raw, keys, now, claims)) && description == name + " audience not accepted"
    else description == name + " invalid"
  }

  lemma TokenFaultIff(cfg: Config, raw: string, keys: string -> KeyCache.Answer, now: int, name: string)
    ensures
      var checked := CheckToken(cfg, raw, keys, now, name);
      && (checked.Success? <==> exists claims :: TokenGood(cfg, raw, keys, now, claims))
      && (checked.Failure? ==> TokenFault(cfg, raw, keys, now, name, checked.error.description))
  {
    var verified := TokenVerifier.Verify(cfg.verifier, raw, keys, now).result;
    forall claims
      ensures verified == Success(claims) <==> TokenVerifier.Authentic(cfg.verifier, raw, keys, now, claims)
      ensures CheckToken(cfg, raw, keys, now, name) == Success(claims) <==> TokenGood(cfg, raw, keys, now, claims)
    {
      TokenVerifier.VerifyIff(cfg.verifier, raw, keys, now, claims);
      CheckTokenIff(cfg, raw, keys, now, name, claims);
    }
  }

  /** For a form that has what it needs: the subject token is judged first, then the actor token, then may_act. */
  lemma RejectionDescription(cfg: Config, asked: Asked, env: Env)
    requires AtPolicy(cfg, asked, env).Failure? && asked.grantType == TOKEN_EXCHANGE && WellAsked(asked)
    ensures
      var description := AtPolicy(cfg, asked, env).error.description;
      var subject := CheckToken(cfg, asked.subjectToken, env.keys, env.subjectAt, "subject_token");
      var actor := CheckToken(cfg, asked.actorToken, env.keys, env.actorAt, "actor_token");
      if subject.Failure? then
        TokenFault(cfg, asked.subjectToken, env.keys, env.subjectAt, "subject_token", description)
      else if asked.actorToken == "" then
        Restricted(subject.value.payload) && description == "subject requires a permitted actor"
      else if actor.Failure? then
        TokenFault(cfg, asked.actorToken, env.keys, env.actorAt, "actor_token", description)
      else
        && Restricted(subject.value.payload) && !Permits(subject.value.payload, actor.value.subject)
        && description == "actor not permitted (may_act)"
  {
    TokenFaultIff(cfg, asked.subjectToken, env.keys, env.subjectAt, "subject_token");
    TokenFaultIff(cfg, asked.actorToken, env.keys, env.actorAt, "actor_token");
  }

  /** What a client sends passes the checks on the form, exactly if it would send it at all. */
  lemma ClientFormsPass(req: ExchangeRequest, auth: SecretAuth)
    ensures FormFault(Read(Authenticated(auth, FormOf(req)))).None? <==>
            req.subjectToken != "" && (req.actorToken != "" ==> req.actorTokenType != "")
  {
    RequestRoundTrip(req, auth);
  }
}
