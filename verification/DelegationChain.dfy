/**
 The act claim over runs of exchanges in which every token minted from a grant carries
 the grant's act, and is the subject token of the next exchange.
 */
module DelegationChain {
  import opened Wrappers
  import opened Claims
  import opened ExchangeForm
  import opened ExchangeValidator
  import Json

  /** The subjects named by an act claim, outermost first. */
  function Flatten(act: Json.Value): seq<string> {
    match act
    case Obj(m) =>
      (if "sub" in m && m["sub"].Str? then [m["sub"].s] else [])
      + (if "act" in m then Flatten(m["act"]) else [])
    case _ => []
  }

  /** The number of actors nested in an act claim. */
  function Depth(act: Json.Value): nat {
    match act
    case Obj(m) => if m == map[] then 0 else 1 + if "act" in m then Depth(m["act"]) else 0
    case _ => 0
  }

  function ActValue(payload: Option<Json.Value>): Json.Value {
    match ActOf(payload)
    case None => Json.Null
    case Some(act) => Json.Obj(act)
  }

  /** The actors that a token names, newest first. */
  function Chain(payload: Option<Json.Value>): seq<string> {
    Flatten(ActValue(payload))
  }

  /** The new actor is outermost; the chain there was is nested unchanged, one level deeper. */
  lemma ChainGrows(actorSub: string, payload: Option<Json.Value>)
    ensures
      var act := Json.Obj(ActChain(actorSub, payload));
      && Flatten(act) == [actorSub] + Chain(payload)
      && Depth(act) == 1 + Depth(ActValue(payload))
      && act.members["sub"] == Json.Str(actorSub)
      && (ActOf(payload).Some? <==> "act" in act.members)
      && (ActOf(payload).Some? ==> act.members["act"] == Json.Obj(ActOf(payload).value))
  {
    assert "sub" != "act" by { assert "sub"[0] != "act"[0]; }
    var m := ActChain(actorSub, payload);
    assert m != map[] by { assert "sub" in m; }
  }

  /** One exchange: the request, the grant at entry to the policy, and the payload of the token minted from it. */
  datatype Hop = Hop(asked: Asked, env: Env, grant: Grant, minted: map<string, Json.Value>)

  /** The minted token carries the act of its grant, and none if the grant has none. */
  predicate Embeds(hop: Hop) {
    if hop.grant.act.Some? then "act" in hop.minted && hop.minted["act"] == Json.Obj(hop.grant.act.value)
    else "act" !in hop.minted
  }

  predicate IsRun(cfg: Config, hops: seq<Hop>) {
    && (forall k :: 0 <= k < |hops| ==>
          AtPolicy(cfg, hops[k].asked, hops[k].env) == Success(hops[k].grant) && Embeds(hops[k]))
    && (forall k :: 0 < k < |hops| ==> hops[k].grant.subject.payload == Some(Json.Obj(hops[k - 1].minted)))
  }

  /** The actors of a run since its last impersonation, newest first, on top of those there were before it. */
  function Actors(before: seq<string>, hops: seq<Hop>): seq<string> {
    if hops == [] then before
    else
      match hops[|hops| - 1].grant.actor
      case None => []
      case Some(actor) => [actor.subject] + Actors(before, hops[..|hops| - 1])
  }

  lemma MintedChain(cfg: Config, hop: Hop)
    requires AtPolicy(cfg, hop.asked, hop.env) == Success(hop.grant) && Embeds(hop)
    ensures Chain(Some(Json.Obj(hop.minted))) ==
            match hop.grant.actor {
              case None => []
              case Some(actor) => [actor.subject] + Chain(hop.grant.subject.payload)
            }
  {
    GrantSoundIff(cfg, hop.asked, hop.env, hop.grant);
    if hop.grant.actor.Some? {
      ChainGrows(hop.grant.actor.value.subject, hop.grant.subject.payload);
      assert "sub" in hop.grant.act.value;
    }
  }

  /** However long the run, the token at its end names the actors since the last impersonation, newest first. */
  lemma {:induction false} ChainOfRun(cfg: Config, hops: seq<Hop>)
    requires hops != [] && IsRun(cfg, hops)
    ensures Chain(Some(Json.Obj(hops[|hops| - 1].minted))) == Actors(Chain(hops[0].grant.subject.payload), hops)
  {
    var n := |hops| - 1;
    MintedChain(cfg, hops[n]);
    if n > 0 {
      ChainOfRun(cfg, hops[..n]);
    } else {
      assert hops[..0] == [];
    }
  }
}
