/**
 Any number of callers of setForKID over one shared key cache, as a transition
 system. A step is one critical section, the fetch, the close of a channel or the
 receive from it; any caller that is not blocked may take the next step.
 */
module KeyCacheProtocol {
  import opened Wrappers
  import opened KeyCache

  /** How a caller got its answer; seen is the number of publications made when it read the fields. */
  datatype Via = FastPath(seen: nat) | Leader(chan: nat) | Joiner(chan: nat, seen: nat)

  /** Where a caller is: Start is before the staleness check, Missed before the refresh decision. */
  datatype Pc =
    | Start
    | Missed
    | Waiting(chan: nat)
    | Woken(chan: nat)
    | Fetching(chan: nat)
    | Returned(chan: nat, outcome: Outcome)
    | Closing(chan: nat, outcome: Outcome)
    | Done(via: Via, answer: Answer)

  /**
   A caller, the step and the clock reading of its own check, and the fetch that had
   by then returned without being published, if any.
   */
  datatype Caller = Caller(kid: string, pc: Pc, checkedAt: nat, now: int, pending: Option<nat>)

  datatype Publication = Publication(chan: nat, outcome: Outcome, publishedAt: nat, now: int)

  /**
   The guarded fields and the closed channels, with the history of the run: the fields
   at its start, the leader of each channel, the step at which each fetch returned, and
   the publications in order.
   */
  datatype World = World(
    ttl: int,
    boot: Shared,
    shared: Shared,
    closed: set<nat>,
    step: nat,
    leaders: seq<nat>,
    returned: map<nat, nat>,
    published: map<nat, nat>,
    log: seq<Publication>)

  datatype System = System(world: World, callers: seq<Caller>)

  /** The caller that moves, the clock reading it takes and the outcome if it fetches. */
  datatype Move = Move(caller: nat, now: int, outcome: Outcome)

  predicate Runnable(w: World, me: Caller) {
    match me.pc
    case Done(_, _) => false
    case Waiting(c) => c in w.closed
    case _ => true
  }

  predicate Enabled(s: System, i: nat) {
    i < |s.callers| && Runnable(s.world, s.callers[i])
  }

  function Tick(w: World): World {
    w.(step := w.step + 1)
  }

  function Claim(w: World, i: nat): World {
    Tick(w).(shared := w.shared.(fetching := Some(|w.leaders|)), leaders := w.leaders + [i])
  }

  function Return(w: World, c: nat): World {
    Tick(w).(returned := w.returned[c := w.step])
  }

  function Publish(w: World, c: nat, outcome: Outcome, now: int): World {
    Tick(w).(
      shared := PublishSection(w.shared, outcome, now),
      published := w.published[c := |w.log|],
      log := w.log + [Publication(c, outcome, w.step, now)])
  }

  function Close(w: World, c: nat): World {
    Tick(w).(closed := w.closed + {c})
  }

  function Check(w: World, me: Caller, now: int): Caller {
    var pending := if w.shared.fetching.Some? && w.shared.fetching.value in w.returned
                   then w.shared.fetching else None;
    var pc := match CheckSection(w.shared, w.ttl, me.kid, now)
              case Hit(keySet) => Done(FastPath(|w.log|), Answer(Some(keySet), None))
              case Miss => Missed;
    Caller(me.kid, pc, w.step, now, pending)
  }

  /** The step of one caller: what it does to the world and where it gets to. */
  function Step(w: World, me: Caller, m: Move): (World, Caller) {
    match me.pc
    case Start => (Tick(w), Check(w, me, m.now))
    case Missed =>
      (match DecideSection(w.shared, |w.leaders|).1
       case Join(c) => (Tick(w), me.(pc := Waiting(c)))
       case Lead(c) => (Claim(w, m.caller), me.(pc := Fetching(c))))
    case Fetching(c) => (Return(w, c), me.(pc := Returned(c, m.outcome)))
    case Returned(c, outcome) => (Publish(w, c, outcome, m.now), me.(pc := Closing(c, outcome)))
    case Closing(c, outcome) => (Close(w, c), me.(pc := Done(Leader(c), LeaderAnswer(outcome))))
    case Waiting(c) => (Tick(w), me.(pc := Woken(c)))
    case Woken(c) => (Tick(w), me.(pc := Done(Joiner(c, |w.log|), RereadSection(w.shared))))
    case Done(_, _) => (w, me)
  }

  function Apply(s: System, m: Move): System
    requires Enabled(s, m.caller)
  {
    var (world, me) := Step(s.world, s.callers[m.caller], m);
    System(world, s.callers[m.caller := me])
  }

  predicate Legal(s: System, moves: seq<Move>)
    decreases |moves|
  {
    moves == [] || (Enabled(s, moves[0].caller) && Legal(Apply(s, moves[0]), moves[1..]))
  }

  function Exec(s: System, moves: seq<Move>): System
    requires Legal(s, moves)
    decreases |moves|
  {
    if moves == [] then s else Exec(Apply(s, moves[0]), moves[1..])
  }

  /** Any number of callers about to start, over a cache that may already hold a set. */
  predicate Initial(s: System) {
    && s.world.shared == s.world.boot
    && s.world.shared.fetching.None?
    && s.world.closed == {} && s.world.leaders == [] && s.world.returned == map[]
    && s.world.published == map[] && s.world.log == []
    && forall i :: 0 <= i < |s.callers| ==> s.callers[i].pc.Start?
  }

  // ---------------------------------------------------------------- the invariant

  predicate InFlight(pc: Pc, c: nat) {
    (pc.Fetching? || pc.Returned?) && pc.chan == c
  }

  predicate Leads(pc: Pc, c: nat) {
    InFlight(pc, c) || (pc.Closing? && pc.chan == c) || (pc.Done? && pc.via == Leader(c))
  }

  /** The guarded fields after these publications, when no fetch is in flight. */
  function Settled(boot: Shared, log: seq<Publication>): Shared {
    if log == [] then boot
    else
      var last := log[|log| - 1];
      PublishSection(Settled(boot, log[..|log| - 1]), last.outcome, last.now)
  }

  /** Channel c has been published, and at a step after t. */
  predicate PublishedAfter(w: World, c: nat, t: nat) {
    c in w.published && w.published[c] < |w.log| && w.log[w.published[c]].publishedAt > t
  }

  /** The guarded fields are what the publications have made of them. */
  predicate FieldsInv(w: World) {
    w.boot.fetching.None? && w.shared.(fetching := None) == Settled(w.boot, w.log)
  }

  /** A channel is claimed, its fetch returns, is published, and the channel is closed, in that order. */
  ghost predicate ChannelsInv(w: World) {
    && w.closed <= w.published.Keys <= w.returned.Keys
    && (w.shared.fetching.Some? ==> w.shared.fetching.value < |w.leaders| && w.shared.fetching.value !in w.published)
    && (forall c: nat :: c in w.returned ==>
          c < |w.leaders| && w.returned[c] < w.step && (c in w.published || w.shared.fetching == Some(c)))
  }

  /** The log holds each publication once, in the order of its steps. */
  ghost predicate LogInv(w: World) {
    && (forall c: nat :: c in w.published ==>
          w.published[c] < |w.log| && w.log[w.published[c]].chan == c)
    && (forall k :: 0 <= k < |w.log| ==>
          && w.log[k].chan in w.published && w.published[w.log[k].chan] == k
          && w.log[k].publishedAt < w.step)
    && (forall j, k :: 0 <= j < k < |w.log| ==> w.log[j].publishedAt < w.log[k].publishedAt)
  }

  ghost predicate WorldInv(w: World) {
    FieldsInv(w) && ChannelsInv(w) && LogInv(w)
  }

  /** What holds of caller i when it has reached its program counter. */
  ghost predicate PcInv(w: World, i: nat, me: Caller) {
    match me.pc
    case Start => true
    case Missed => true
    case Fetching(c) =>
      c < |w.leaders| && w.leaders[c] == i && w.shared.fetching == Some(c) && c !in w.returned
    case Returned(c, outcome) =>
      && c < |w.leaders| && w.leaders[c] == i && w.shared.fetching == Some(c) && c in w.returned && c !in w.published
      && w.returned[c] > me.checkedAt
    case Closing(c, outcome) =>
      && c < |w.leaders| && w.leaders[c] == i && c !in w.closed && c in w.returned && w.returned[c] > me.checkedAt
      && PublishedAfter(w, c, me.checkedAt) && w.log[w.published[c]].outcome == outcome
    case Waiting(c) =>
      c < |w.leaders| && (w.shared.fetching == Some(c) || PublishedAfter(w, c, me.checkedAt))
    case Woken(c) =>
      c in w.closed && PublishedAfter(w, c, me.checkedAt)
    case Done(Leader(c), answer) =>
      && c < |w.leaders| && w.leaders[c] == i && c in w.closed && c in w.returned && w.returned[c] > me.checkedAt
      && PublishedAfter(w, c, me.checkedAt) && answer == LeaderAnswer(w.log[w.published[c]].outcome)
    case Done(Joiner(c, seen), answer) =>
      && PublishedAfter(w, c, me.checkedAt)
      && w.published[c] < seen <= |w.log|
      && answer == JoinerAnswer(w.log[seen - 1].outcome)
    case Done(FastPath(seen), answer) =>
      && seen <= |w.log|
      && CheckSection(Settled(w.boot, w.log[..seen]), w.ttl, me.kid, me.now).Hit?
      && answer == Answer(Settled(w.boot, w.log[..seen]).keySet, None)
  }

  /** A caller's pending fetch is the one that returned before its check and is published after it, if ever. */
  ghost predicate PendingInv(w: World, me: Caller) {
    !me.pc.Start? ==>
      && me.checkedAt < w.step
      && (me.pending.Some? ==> me.pending.value in w.returned)
      && forall c: nat :: c in w.returned ==>
        (me.pending == Some(c) <==>
          w.returned[c] < me.checkedAt && (c in w.published ==> PublishedAfter(w, c, me.checkedAt)))
  }

  ghost predicate CallerInv(w: World, i: nat, me: Caller) {
    PcInv(w, i, me) && PendingInv(w, me)
  }

  /** Every channel has a leader that has not forgotten it, and fetching names the one in flight. */
  ghost predicate LeadersInv(s: System) {
    && (forall c :: 0 <= c < |s.world.leaders| ==>
          s.world.leaders[c] < |s.callers| && Leads(s.callers[s.world.leaders[c]].pc, c))
    && (s.world.shared.fetching.Some? ==>
          var c := s.world.shared.fetching.value;
          c < |s.world.leaders| && InFlight(s.callers[s.world.leaders[c]].pc, c))
  }

  ghost predicate Inv(s: System) {
    && WorldInv(s.world)
    && LeadersInv(s)
    && forall i :: 0 <= i < |s.callers| ==> CallerInv(s.world, i, s.callers[i])
  }

  lemma InitialInv(s: System)
    requires Initial(s)
    ensures Inv(s)
  {
  }

  lemma SettledAppend(boot: Shared, log: seq<Publication>, p: Publication)
    ensures Settled(boot, log + [p]) == PublishSection(Settled(boot, log), p.outcome, p.now)
  {
    assert (log + [p])[..|log|] == log;
  }

  lemma ClaimKept(w: World, i: nat)
    requires WorldInv(w) && w.shared.fetching.None?
    ensures WorldInv(Claim(w, i)) && Extends(w, Claim(w, i), i)
  {
  }

  lemma ReturnKept(w: World, i: nat, c: nat)
    requires WorldInv(w) && c < |w.leaders| && w.leaders[c] == i
    requires w.shared.fetching == Some(c) && c !in w.returned
    ensures WorldInv(Return(w, c)) && Extends(w, Return(w, c), i)
  {
  }

  lemma PublishKeepsLog(w: World, c: nat, outcome: Outcome, now: int)
    requires LogInv(w) && c !in w.published
    ensures LogInv(Publish(w, c, outcome, now))
  {
  }

  lemma PublishKept(w: World, c: nat, outcome: Outcome, now: int)
    requires WorldInv(w) && w.shared.fetching == Some(c) && c in w.returned && c !in w.published
    ensures WorldInv(Publish(w, c, outcome, now))
  {
    SettledAppend(w.boot, w.log, Publication(c, outcome, w.step, now));
    PublishKeepsLog(w, c, outcome, now);
  }

  lemma PublishExtends(w: World, i: nat, c: nat, outcome: Outcome, now: int)
    requires WorldInv(w) && c < |w.leaders| && w.leaders[c] == i
    requires w.shared.fetching == Some(c) && c in w.returned && c !in w.published
    ensures Extends(w, Publish(w, c, outcome, now), i)
  {
  }

  lemma CloseKept(w: World, i: nat, c: nat)
    requires WorldInv(w) && c < |w.leaders| && w.leaders[c] == i && c in w.published
    ensures WorldInv(Close(w, c)) && Extends(w, Close(w, c), i)
  {
  }

  /** The world moves on by a step of caller i, which touches only the channels that i leads. */
  ghost predicate Extends(w: World, w': World, i: nat) {
    && w'.ttl == w.ttl && w'.boot == w.boot && w.step < w'.step
    && w.leaders <= w'.leaders && w.log <= w'.log && w.closed <= w'.closed
    && (forall c: nat :: c in w.published ==> c in w'.published && w'.published[c] == w.published[c])
    && (forall c: nat :: c in w.returned ==> c in w'.returned && w'.returned[c] == w.returned[c])
    && (forall c: nat :: c in w'.returned && c !in w.returned ==> w'.returned[c] == w.step)
    && (forall c: nat :: c in w'.published && c !in w.published ==>
          w'.published[c] < |w'.log| && w'.log[w'.published[c]].publishedAt == w.step)
    && (w.shared.fetching.Some? ==>
          w'.shared.fetching == w.shared.fetching || w.shared.fetching.value in w'.published)
    && forall c: nat :: c < |w.leaders| && w.leaders[c] != i ==>
      && (c in w'.returned <==> c in w.returned)
      && (c in w'.published <==> c in w.published)
      && (c in w'.closed <==> c in w.closed)
      && (w.shared.fetching == Some(c) ==> w'.shared.fetching == Some(c))
  }

  lemma TickKept(w: World, i: nat)
    requires WorldInv(w)
    ensures WorldInv(Tick(w)) && Extends(w, Tick(w), i)
  {
  }

  /** A world that a step of caller i may lead to. */
  ghost predicate Follows(w: World, w': World, i: nat) {
    WorldInv(w') && Extends(w, w', i)
  }

  lemma StepKept(w: World, me: Caller, m: Move)
    requires WorldInv(w) && PcInv(w, m.caller, me) && Runnable(w, me)
    ensures Follows(w, Step(w, me, m).0, m.caller)
  {
    var w' := Step(w, me, m).0;
    match me.pc
    case Missed =>
      if w.shared.fetching.None? {
        ClaimKept(w, m.caller);
        assert Follows(w, Claim(w, m.caller), m.caller) && w' == Claim(w, m.caller);
      } else {
        TickKept(w, m.caller);
        assert Follows(w, Tick(w), m.caller) && w' == Tick(w);
      }
    case Fetching(c) =>
      ReturnKept(w, m.caller, c);
      assert Follows(w, Return(w, c), m.caller) && w' == Return(w, c);
    case Returned(c, outcome) =>
      PublishKept(w, c, outcome, m.now);
      PublishExtends(w, m.caller, c, outcome, m.now);
      assert Follows(w, Publish(w, c, outcome, m.now), m.caller) && w' == Publish(w, c, outcome, m.now);
    case Closing(c, outcome) =>
      CloseKept(w, m.caller, c);
      assert Follows(w, Close(w, c), m.caller) && w' == Close(w, c);
    case _ =>
      TickKept(w, m.caller);
      assert Follows(w, Tick(w), m.caller) && w' == Tick(w);
  }

  lemma OtherKeepsPc(w: World, w': World, i: nat, j: nat, other: Caller)
    requires WorldInv(w) && Extends(w, w', i) && j != i && PcInv(w, j, other) && PendingInv(w, other)
    ensures PcInv(w', j, other)
  {
    if other.pc.Done? && other.pc.via.FastPath? {
      assert w'.log[..other.pc.via.seen] == w.log[..other.pc.via.seen];
    }
  }

  lemma OtherKeepsPending(w: World, w': World, i: nat, other: Caller)
    requires WorldInv(w) && Extends(w, w', i) && PendingInv(w, other)
    ensures PendingInv(w', other)
  {
  }

  lemma CheckKept(w: World, i: nat, me: Caller, now: int)
    requires WorldInv(w)
    ensures CallerInv(Tick(w), i, Check(w, me, now))
  {
    assert w.log[..|w.log|] == w.log;
  }

  lemma RereadKept(w: World, i: nat, me: Caller)
    requires WorldInv(w) && PcInv(w, i, me) && me.pc.Woken?
    ensures PcInv(Tick(w), i, me.(pc := Done(Joiner(me.pc.chan, |w.log|), RereadSection(w.shared))))
  {
  }

  lemma MoverKeepsPending(w: World, w': World, i: nat, me: Caller, pc: Pc)
    requires WorldInv(w) && Extends(w, w', i) && PendingInv(w, me) && !me.pc.Start?
    ensures PendingInv(w', me.(pc := pc))
  {
    OtherKeepsPending(w, w', i, me);
  }

  lemma MoverKeepsPc(w: World, me: Caller, m: Move)
    requires WorldInv(w) && CallerInv(w, m.caller, me) && Runnable(w, me) && !me.pc.Start? && !me.pc.Woken?
    ensures PcInv(Step(w, me, m).0, m.caller, Step(w, me, m).1)
  {
  }

  lemma MoverKept(w: World, me: Caller, m: Move)
    requires WorldInv(w) && CallerInv(w, m.caller, me) && Runnable(w, me)
    ensures CallerInv(Step(w, me, m).0, m.caller, Step(w, me, m).1)
  {
    if me.pc.Start? {
      CheckKept(w, m.caller, me, m.now);
    } else {
      StepKept(w, me, m);
      var (w', me') := Step(w, me, m);
      MoverKeepsPending(w, w', m.caller, me, me'.pc);
      if me.pc.Woken? { RereadKept(w, m.caller, me); } else { MoverKeepsPc(w, me, m); }
    }
  }

  lemma MoverLeads(w: World, me: Caller, m: Move)
    requires PcInv(w, m.caller, me) && Runnable(w, me)
    ensures
      var (w', me') := Step(w, me, m);
      && (forall c: nat :: Leads(me.pc, c) ==> Leads(me'.pc, c))
      && (w'.leaders == w.leaders || (w'.leaders == w.leaders + [m.caller] && Leads(me'.pc, |w.leaders|)))
      && (w'.shared.fetching.Some? ==>
            var c := w'.shared.fetching.value;
            if w'.shared.fetching == w.shared.fetching then InFlight(me.pc, c) ==> InFlight(me'.pc, c)
            else c == |w.leaders| < |w'.leaders| && InFlight(me'.pc, c))
  {
  }

  lemma LeadersKept(s: System, m: Move)
    requires Inv(s) && Enabled(s, m.caller)
    ensures LeadersInv(Apply(s, m))
  {
    MoverLeads(s.world, s.callers[m.caller], m);
  }

  lemma StepKeepsInv(s: System, m: Move)
    requires Inv(s) && Enabled(s, m.caller)
    ensures Inv(Apply(s, m))
  {
    var w, i, me := s.world, m.caller, s.callers[m.caller];
    var (w', me') := Step(w, me, m);
    StepKept(w, me, m);
    MoverKept(w, me, m);
    LeadersKept(s, m);
    forall j | 0 <= j < |s.callers| && j != i
      ensures CallerInv(w', j, s.callers[j])
    {
      OtherKeepsPc(w, w', i, j, s.callers[j]);
      OtherKeepsPending(w, w', i, s.callers[j]);
    }
  }

  /** Every state of every run, whoever moves when, satisfies the invariant. */
  lemma {:induction false} RunKeepsInv(s: System, moves: seq<Move>)
    requires Inv(s) && Legal(s, moves)
    ensures Inv(Exec(s, moves))
    decreases |moves|
  {
    if moves != [] {
      StepKeepsInv(s, moves[0]);
      RunKeepsInv(Apply(s, moves[0]), moves[1..]);
    }
  }
}
