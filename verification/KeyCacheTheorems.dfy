/**
 What the key cache promises its callers, over every interleaving of any number of
 them: each theorem speaks of the state that an arbitrary legal run ends in.
 */
module KeyCacheTheorems {
  import opened Wrappers
  import opened KeyCache
  import opened KeyCacheProtocol
  import Clock

  lemma ReachableInv(s: System, moves: seq<Move>)
    requires Initial(s) && Legal(s, moves)
    ensures Inv(Exec(s, moves))
  {
    InitialInv(s);
    RunKeepsInv(s, moves);
  }

  // ---------------------------------------------------------------- single flight

  predicate Unpublished(pc: Pc) {
    pc.Fetching? || pc.Returned?
  }

  /** The leader of channel c that has still to close it. */
  predicate WillClose(pc: Pc, c: nat) {
    InFlight(pc, c) || (pc.Closing? && pc.chan == c)
  }

  /** At most one caller fetches; fetching is set exactly while it has not published; nobody waits for nothing. */
  lemma SingleFlight(s0: System, moves: seq<Move>)
    requires Initial(s0) && Legal(s0, moves)
    ensures
      var s := Exec(s0, moves);
      && (forall i, j | 0 <= i < |s.callers| && 0 <= j < |s.callers| ::
            Unpublished(s.callers[i].pc) && Unpublished(s.callers[j].pc) ==> i == j)
      && (s.world.shared.fetching.Some? <==> exists i :: 0 <= i < |s.callers| && Unpublished(s.callers[i].pc))
      && (forall i :: 0 <= i < |s.callers| && Unpublished(s.callers[i].pc) ==>
            s.world.shared.fetching == Some(s.callers[i].pc.chan))
      && (forall i :: 0 <= i < |s.callers| && s.callers[i].pc.Waiting? ==>
            var c := s.callers[i].pc.chan;
            c in s.world.closed || (exists j :: 0 <= j < |s.callers| && WillClose(s.callers[j].pc, c)))
  {
    ReachableInv(s0, moves);
    var s := Exec(s0, moves);
    OneInFlight(s);
    forall i | 0 <= i < |s.callers| && s.callers[i].pc.Waiting? && s.callers[i].pc.chan !in s.world.closed
      ensures exists j :: 0 <= j < |s.callers| && WillClose(s.callers[j].pc, s.callers[i].pc.chan)
    {
      WaiterHasLeader(s, i);
    }
  }

  lemma OneInFlight(s: System)
    requires Inv(s)
    ensures forall i, j | 0 <= i < |s.callers| && 0 <= j < |s.callers| ::
              Unpublished(s.callers[i].pc) && Unpublished(s.callers[j].pc) ==> i == j
    ensures s.world.shared.fetching.Some? <==> exists i :: 0 <= i < |s.callers| && Unpublished(s.callers[i].pc)
    ensures forall i :: 0 <= i < |s.callers| && Unpublished(s.callers[i].pc) ==>
              s.world.shared.fetching == Some(s.callers[i].pc.chan)
  {
    forall i | 0 <= i < |s.callers| && Unpublished(s.callers[i].pc)
      ensures s.world.shared.fetching == Some(s.callers[i].pc.chan) && s.world.leaders[s.callers[i].pc.chan] == i
    {
      assert CallerInv(s.world, i, s.callers[i]);
    }
    if s.world.shared.fetching.Some? {
      assert Unpublished(s.callers[s.world.leaders[s.world.shared.fetching.value]].pc);
    }
  }

  /** The leader of an open channel is still at work, so it can move. */
  lemma WaiterHasLeader(s: System, i: nat)
    requires Inv(s) && i < |s.callers| && s.callers[i].pc.Waiting? && s.callers[i].pc.chan !in s.world.closed
    ensures
      var c := s.callers[i].pc.chan;
      && c < |s.world.leaders| && s.world.leaders[c] < |s.callers|
      && WillClose(s.callers[s.world.leaders[c]].pc, c)
  {
    assert CallerInv(s.world, i, s.callers[i]);
    var j := s.world.leaders[s.callers[i].pc.chan];
    assert CallerInv(s.world, j, s.callers[j]);
  }

  /** While any caller is unfinished, some caller can move. */
  lemma NoDeadlock(s0: System, moves: seq<Move>, i: nat)
    requires Initial(s0) && Legal(s0, moves)
    requires i < |s0.callers| && i < |Exec(s0, moves).callers| && !Exec(s0, moves).callers[i].pc.Done?
    ensures exists j :: Enabled(Exec(s0, moves), j)
  {
    ReachableInv(s0, moves);
    var s := Exec(s0, moves);
    if s.callers[i].pc.Waiting? && s.callers[i].pc.chan !in s.world.closed {
      WaiterHasLeader(s, i);
      assert Enabled(s, s.world.leaders[s.callers[i].pc.chan]);
    } else {
      assert Enabled(s, i);
    }
  }

  // ---------------------------------------------------------------- termination

  /** The steps a caller may still take. */
  function Rank(pc: Pc): nat {
    match pc
    case Start => 5
    case Missed => 4
    case Fetching(_) => 3
    case Returned(_, _) => 2
    case Closing(_, _) => 1
    case Waiting(_) => 2
    case Woken(_) => 1
    case Done(_, _) => 0
  }

  function Remaining(callers: seq<Caller>): nat {
    if callers == [] then 0 else Rank(callers[0].pc) + Remaining(callers[1..])
  }

  lemma {:induction false} RemainingUpdate(callers: seq<Caller>, i: nat, me: Caller)
    requires i < |callers|
    ensures Remaining(callers[i := me]) == Remaining(callers) - Rank(callers[i].pc) + Rank(me.pc)
  {
    if i == 0 {
      assert callers[i := me][1..] == callers[1..];
    } else {
      assert callers[i := me][1..] == callers[1..][i - 1 := me];
      RemainingUpdate(callers[1..], i - 1, me);
    }
  }

  lemma {:induction false} RemainingAtMost(callers: seq<Caller>)
    ensures Remaining(callers) <= 5 * |callers|
  {
    if callers != [] {
      RemainingAtMost(callers[1..]);
    }
  }

  lemma StepsCount(s: System, m: Move)
    requires Enabled(s, m.caller)
    ensures Remaining(Apply(s, m).callers) < Remaining(s.callers)
  {
    RemainingUpdate(s.callers, m.caller, Step(s.world, s.callers[m.caller], m).1);
  }

  /** The steps taken and the steps remaining never exceed the steps there were. */
  lemma {:induction false} RunsShrink(s: System, moves: seq<Move>)
    requires Legal(s, moves)
    ensures |moves| + Remaining(Exec(s, moves).callers) <= Remaining(s.callers)
    ensures |Exec(s, moves).callers| == |s.callers|
    decreases |moves|
  {
    if moves != [] {
      StepsCount(s, moves[0]);
      RunsShrink(Apply(s, moves[0]), moves[1..]);
    }
  }

  /** N callers take at most 5N steps, and a run that cannot go on has answered all of them. */
  lemma Terminates(s0: System, moves: seq<Move>)
    requires Initial(s0) && Legal(s0, moves)
    ensures |moves| <= 5 * |s0.callers|
    ensures
      var s := Exec(s0, moves);
      (forall j :: !Enabled(s, j)) <==> (forall i :: 0 <= i < |s.callers| ==> s.callers[i].pc.Done?)
  {
    RunsShrink(s0, moves);
    RemainingAtMost(s0.callers);
    var s := Exec(s0, moves);
    if forall j :: !Enabled(s, j) {
      forall i | 0 <= i < |s.callers|
        ensures s.callers[i].pc.Done?
      {
        if !s.callers[i].pc.Done? {
          NoDeadlock(s0, moves, i);
        }
      }
    }
  }

  // ---------------------------------------------------------------- number of fetches

  predicate Distinct(xs: seq<nat>) {
    forall i, j :: 0 <= i < j < |xs| ==> xs[i] != xs[j]
  }

  lemma {:induction false} Pigeonhole(xs: seq<nat>, n: nat)
    requires Distinct(xs) && forall i :: 0 <= i < |xs| ==> xs[i] < n
    ensures |xs| <= n
  {
    if xs != [] {
      assert xs[0] < n;
      if k :| 0 <= k < |xs| && xs[k] == n - 1 {
        Pigeonhole(xs[..k] + xs[k + 1..], n - 1);
      } else {
        Pigeonhole(xs, n - 1);
      }
    }
  }

  /** N callers cause at most N fetches, since each channel is the fetch of another caller. */
  lemma AtMostOneFetchEach(s0: System, moves: seq<Move>)
    requires Initial(s0) && Legal(s0, moves)
    ensures
      var s := Exec(s0, moves);
      && Distinct(s.world.leaders)
      && (forall c :: 0 <= c < |s.world.leaders| ==>
            s.world.leaders[c] < |s.callers| && Leads(s.callers[s.world.leaders[c]].pc, c))
      && (forall c :: c in s.world.returned ==> c < |s.world.leaders|)
      && |s.world.leaders| <= |s0.callers|
  {
    ReachableInv(s0, moves);
    RunsShrink(s0, moves);
    Pigeonhole(Exec(s0, moves).world.leaders, |s0.callers|);
  }

  /** A move starts a fetch exactly if its caller decides while nobody else fetches. */
  lemma FetchStartsIff(s0: System, moves: seq<Move>, m: Move)
    requires Initial(s0) && Legal(s0, moves) && Enabled(Exec(s0, moves), m.caller)
    ensures
      var s, s' := Exec(s0, moves), Apply(Exec(s0, moves), m);
      && (s'.world.leaders != s.world.leaders <==>
            s.callers[m.caller].pc.Missed? && forall i :: 0 <= i < |s.callers| ==> !Unpublished(s.callers[i].pc))
      && (s'.world.leaders == s.world.leaders || s'.world.leaders == s.world.leaders + [m.caller])
  {
    SingleFlight(s0, moves);
  }

  /** Move k is by a caller that decides when a fetch has been published and none is in flight. */
  predicate DecidesLate(s: System, moves: seq<Move>, k: nat)
    requires k < |moves|
  {
    && Legal(s, moves[..k])
    && var r := Exec(s, moves[..k]);
       && moves[k].caller < |r.callers| && r.callers[moves[k].caller].pc.Missed?
       && r.world.shared.fetching.None? && r.world.log != []
  }

  /** Every fetch that was started has been published or is in flight. */
  predicate Balanced(w: World) {
    |w.leaders| == |w.log| + if w.shared.fetching.Some? then 1 else 0
  }

  lemma StepBalanced(s: System, m: Move)
    requires Inv(s) && Enabled(s, m.caller) && Balanced(s.world)
    ensures Balanced(Apply(s, m).world)
    ensures
      var before, after := |s.world.leaders|, |Apply(s, m).world.leaders|;
      && before <= after <= before + 1
      && (before < 2 <= after ==> DecidesLate(s, [m], 0))
      && (DecidesLate(s, [m], 0) ==> after >= 2)
  {
    assert CallerInv(s.world, m.caller, s.callers[m.caller]);
    assert [m][..0] == [];
  }

  lemma DecidesLateShift(s: System, moves: seq<Move>, k: nat)
    requires moves != [] && k < |moves| && Enabled(s, moves[0].caller)
    ensures k == 0 ==> (DecidesLate(s, moves, k) <==> DecidesLate(s, [moves[0]], 0))
    ensures k > 0 ==> (DecidesLate(s, moves, k) <==> DecidesLate(Apply(s, moves[0]), moves[1..], k - 1))
  {
    if k > 0 {
      assert moves[..k][1..] == moves[1..][..k - 1];
    } else {
      assert moves[..0] == [] && [moves[0]][..0] == [];
    }
  }

  predicate SomeDecidesLate(s: System, moves: seq<Move>) {
    exists k :: 0 <= k < |moves| && DecidesLate(s, moves, k)
  }

  lemma FirstOrLater(s: System, moves: seq<Move>)
    requires moves != [] && Enabled(s, moves[0].caller)
    ensures SomeDecidesLate(s, moves) <==>
            DecidesLate(s, [moves[0]], 0) || SomeDecidesLate(Apply(s, moves[0]), moves[1..])
  {
    var s', rest := Apply(s, moves[0]), moves[1..];
    DecidesLateShift(s, moves, 0);
    if k :| 0 <= k < |moves| && DecidesLate(s, moves, k) {
      DecidesLateShift(s, moves, k);
      assert k > 0 ==> DecidesLate(s', rest, k - 1);
    }
    if k :| 0 <= k < |rest| && DecidesLate(s', rest, k) {
      DecidesLateShift(s, moves, k + 1);
      assert DecidesLate(s, moves, k + 1);
    }
  }

  /** The number of fetches of a run, told from its start and its moves. */
  predicate TwoFetchesIffLate(s: System, moves: seq<Move>)
    requires Legal(s, moves)
  {
    |Exec(s, moves).world.leaders| >= 2 <==> |s.world.leaders| >= 2 || SomeDecidesLate(s, moves)
  }

  lemma LateFetchesStep(s: System, moves: seq<Move>)
    requires Inv(s) && Balanced(s.world) && moves != [] && Legal(s, moves)
    requires TwoFetchesIffLate(Apply(s, moves[0]), moves[1..])
    ensures TwoFetchesIffLate(s, moves)
  {
    StepBalanced(s, moves[0]);
    FirstOrLater(s, moves);
  }

  lemma {:induction false} LateFetches(s: System, moves: seq<Move>)
    requires Inv(s) && Balanced(s.world) && Legal(s, moves)
    ensures TwoFetchesIffLate(s, moves)
    decreases |moves|
  {
    if moves != [] {
      StepKeepsInv(s, moves[0]);
      StepBalanced(s, moves[0]);
      LateFetches(Apply(s, moves[0]), moves[1..]);
      LateFetchesStep(s, moves);
    }
  }

  /** Callers that missed share one fetch unless one of them decides after it has been published. */
  lemma SecondFetchIff(s0: System, moves: seq<Move>)
    requires Initial(s0) && Legal(s0, moves)
    ensures |Exec(s0, moves).world.leaders| >= 2 <==>
            exists k :: 0 <= k < |moves| && DecidesLate(s0, moves, k)
  {
    InitialInv(s0);
    LateFetches(s0, moves);
    assert SomeDecidesLate(s0, moves) <==> exists k :: 0 <= k < |moves| && DecidesLate(s0, moves, k);
  }

  // ---------------------------------------------------------------- answers

  /** The last publication in the log that did not fail, if there is one. */
  function LastGood(log: seq<Publication>): (k: int)
    ensures -1 <= k < |log|
    ensures k >= 0 ==> log[k].outcome.Fetched?
    ensures forall l :: k < l < |log| ==> log[l].outcome.Failed?
  {
    if log == [] then -1
    else if log[|log| - 1].outcome.Fetched? then |log| - 1
    else LastGood(log[..|log| - 1])
  }

  /** Failed fetches leave no trace but lastErr. */
  lemma {:induction false} SettledIs(boot: Shared, log: seq<Publication>)
    ensures
      var r, k := Settled(boot, log), LastGood(log);
      && (k >= 0 ==> r.keySet == Some(log[k].outcome.keySet) && r.fetchedAt == log[k].now)
      && (k < 0 ==> r.keySet == boot.keySet && r.fetchedAt == boot.fetchedAt)
      && (log != [] ==> r.lastErr == match log[|log| - 1].outcome { case Fetched(_) => None case Failed(e) => Some(e) })
  {
    if log != [] {
      SettledIs(boot, log[..|log| - 1]);
    }
  }

  /** The cached set and its time are those of the last fetch that did not fail, or of the start. */
  lemma CacheAgreement(s0: System, moves: seq<Move>)
    requires Initial(s0) && Legal(s0, moves)
    ensures
      var w := Exec(s0, moves).world;
      && (LastGood(w.log) >= 0 ==>
            var p := w.log[LastGood(w.log)];
            w.shared.keySet == Some(p.outcome.keySet) && w.shared.fetchedAt == p.now)
      && (LastGood(w.log) < 0 ==> w.shared.keySet == w.boot.keySet && w.shared.fetchedAt == w.boot.fetchedAt)
      && (w.log != [] && w.shared.lastErr.None? ==>
            var p := w.log[|w.log| - 1];
            p.outcome.Fetched? && w.shared.keySet == Some(p.outcome.keySet) && w.shared.fetchedAt == p.now)
  {
    ReachableInv(s0, moves);
    SettledIs(Exec(s0, moves).world.boot, Exec(s0, moves).world.log);
  }

  /** A fast-path answer holds the kid, is the last good set at the check, and was at most ttl old there. */
  lemma FastPathIsFresh(s0: System, moves: seq<Move>, i: nat)
    requires Initial(s0) && Legal(s0, moves) && i < |Exec(s0, moves).callers|
    requires
      var pc := Exec(s0, moves).callers[i].pc;
      pc.Done? && pc.via.FastPath?
    ensures
      var w, me := Exec(s0, moves).world, Exec(s0, moves).callers[i];
      var seen, answer := me.pc.via.seen, me.pc.answer;
      && answer.err.None? && answer.keySet.Some? && HasKid(answer.keySet.value, me.kid)
      && seen <= |w.log|
      && var k := LastGood(w.log[..seen]);
         if k >= 0
         then answer.keySet.value == w.log[k].outcome.keySet && Clock.Sub(me.now, w.log[k].now) <= w.ttl
         else answer.keySet == w.boot.keySet && Clock.Sub(me.now, w.boot.fetchedAt) <= w.ttl
  {
    ReachableInv(s0, moves);
    var s := Exec(s0, moves);
    assert CallerInv(s.world, i, s.callers[i]);
    SettledIs(s.world.boot, s.world.log[..s.callers[i].pc.via.seen]);
  }

  /** A kid in the last good set, no older than ttl, is served from it without a fetch. */
  lemma FreshKidIsServed(s0: System, moves: seq<Move>, m: Move)
    requires Initial(s0) && Legal(s0, moves)
    requires m.caller < |Exec(s0, moves).callers| && Exec(s0, moves).callers[m.caller].pc.Start?
    requires
      var w, k := Exec(s0, moves).world, LastGood(Exec(s0, moves).world.log);
      && k >= 0 && HasKid(w.log[k].outcome.keySet, Exec(s0, moves).callers[m.caller].kid)
      && Clock.Sub(m.now, w.log[k].now) <= w.ttl
    ensures
      var s, s' := Exec(s0, moves), Apply(Exec(s0, moves), m);
      && s'.callers[m.caller].pc ==
         Done(FastPath(|s.world.log|), Answer(Some(s.world.log[LastGood(s.world.log)].outcome.keySet), None))
      && s'.world.leaders == s.world.leaders && s'.world.shared == s.world.shared
  {
    CacheAgreement(s0, moves);
  }

  predicate ThroughRefresh(me: Caller) {
    me.pc.Done? && !me.pc.via.FastPath?
  }

  /** The publication behind an answer: the leader's own, or the last that the joiner could see. */
  function Source(w: World, me: Caller): nat
    requires ThroughRefresh(me)
  {
    match me.pc.via
    case Leader(c) => if c in w.published then w.published[c] else 0
    case Joiner(_, seen) => if seen > 0 then seen - 1 else 0
  }

  /**
   An answer through refresh is the outcome of a fetch published after the caller's own
   check, with the error of that fetch if it failed, and never both nil or both set. A
   joiner never sees a publication older than the one it waited for.
   */
  lemma NoStaleLeak(s0: System, moves: seq<Move>, i: nat)
    requires Initial(s0) && Legal(s0, moves) && i < |Exec(s0, moves).callers|
    requires ThroughRefresh(Exec(s0, moves).callers[i])
    ensures
      var w, me := Exec(s0, moves).world, Exec(s0, moves).callers[i];
      var k := Source(w, me);
      && k < |w.log| && w.log[k].publishedAt > me.checkedAt
      && (match w.log[k].outcome
          case Fetched(keySet) => me.pc.answer == Answer(Some(keySet), None)
          case Failed(err) =>
            me.pc.answer
            == Answer(None, Some(if me.pc.via.Leader? then err else "aoa: jwks refresh failed: " + err)))
      && (me.pc.via.Leader? ==> w.log[k].chan == me.pc.via.chan)
      && (me.pc.via.Joiner? ==>
            exists j :: 0 <= j <= k && w.log[j].chan == me.pc.via.chan && w.log[j].publishedAt > me.checkedAt)
  {
    ReachableInv(s0, moves);
    var s := Exec(s0, moves);
    assert CallerInv(s.world, i, s.callers[i]);
    if s.callers[i].pc.via.Joiner? {
      assert s.world.log[s.world.published[s.callers[i].pc.via.chan]].chan == s.callers[i].pc.via.chan;
    }
  }

  /** What a woken joiner reads is the last publication, and there is one. */
  lemma LatestRead(w: World, i: nat, me: Caller)
    requires WorldInv(w) && PcInv(w, i, me) && me.pc.Woken?
    ensures w.log != [] && RereadSection(w.shared) == JoinerAnswer(w.log[|w.log| - 1].outcome)
    ensures
      var c := me.pc.chan;
      && c in w.published && w.published[c] < |w.log| && w.log[w.published[c]].chan == c
      && (w.log[|w.log| - 1].chan == c <==> w.published[c] == |w.log| - 1)
  {
    SettledIs(w.boot, w.log);
  }

  /**
   A joiner that locks again gets the latest outcome published by then, which is that of the
   fetch it joined exactly if no other has been published since.
   */
  lemma JoinerSeesLatest(s0: System, moves: seq<Move>, m: Move)
    requires Initial(s0) && Legal(s0, moves) && Enabled(Exec(s0, moves), m.caller)
    requires Exec(s0, moves).callers[m.caller].pc.Woken?
    ensures
      var w, c := Exec(s0, moves).world, Exec(s0, moves).callers[m.caller].pc.chan;
      && w.log != []
      && Apply(Exec(s0, moves), m).callers[m.caller].pc
         == Done(Joiner(c, |w.log|),
                 match w.log[|w.log| - 1].outcome
                 case Fetched(keySet) => Answer(Some(keySet), None)
                 case Failed(err) => Answer(None, Some("aoa: jwks refresh failed: " + err)))
      && c in w.published && w.published[c] < |w.log| && w.log[w.published[c]].chan == c
      && (w.log[|w.log| - 1].chan == c <==> w.published[c] == |w.log| - 1)
  {
    ReachableInv(s0, moves);
    var s := Exec(s0, moves);
    assert CallerInv(s.world, m.caller, s.callers[m.caller]);
    LatestRead(s.world, m.caller, s.callers[m.caller]);
  }

  /**
   The fetch behind an answer may have returned before the caller's check, but only if its
   leader had it in hand, unpublished, at that check; never so for a leader.
   */
  lemma ReturnedBeforeCheckIff(s0: System, moves: seq<Move>, i: nat)
    requires Initial(s0) && Legal(s0, moves) && i < |Exec(s0, moves).callers|
    requires ThroughRefresh(Exec(s0, moves).callers[i])
    ensures
      var w, me := Exec(s0, moves).world, Exec(s0, moves).callers[i];
      && Source(w, me) < |w.log|
      && var c := w.log[Source(w, me)].chan;
         && c in w.returned
         && (w.returned[c] < me.checkedAt <==> me.pending == Some(c))
         && (me.pc.via.Leader? ==> w.returned[c] > me.checkedAt)
  {
    NoStaleLeak(s0, moves, i);
    ReachableInv(s0, moves);
    var s := Exec(s0, moves);
    assert CallerInv(s.world, i, s.callers[i]);
  }

  // ---------------------------------------------------------------- what is not promised

  function TwoCallers(): System {
    var boot := Shared(None, 0, None, None);
    var caller := Caller("kid", Start, 0, 0, None);
    System(World(5 * Clock.MINUTE, boot, boot, {}, 0, [], map[], map[], []), [caller, caller])
  }

  /** Caller i moves; the clock stands still and every fetch gives the same set. */
  function Turn(i: nat): Move {
    Move(i, 0, Fetched(KeySet([Key(Some("kid"), "k")])))
  }

  function Turns(order: seq<nat>): seq<Move> {
    seq(|order|, i requires 0 <= i < |order| => Turn(order[i]))
  }

  lemma FirstTurn(s: System, order: seq<nat>)
    requires order != [] && Enabled(s, order[0]) && Legal(Apply(s, Turn(order[0])), Turns(order[1..]))
    ensures Legal(s, Turns(order))
    ensures Exec(s, Turns(order)) == Exec(Apply(s, Turn(order[0])), Turns(order[1..]))
  {
    assert Turns(order)[1..] == Turns(order[1..]);
  }

  /** Two callers that both miss before either decides can each lead a fetch. */
  lemma MissersMayFetchTwice()
    ensures Initial(TwoCallers())
    ensures Legal(TwoCallers(), Turns([0, 1, 0, 0, 0, 1]))
    ensures |Exec(TwoCallers(), Turns([0, 1, 0, 0, 0, 1])).world.leaders| == 2
  {
    var s0 := TwoCallers();
    var s1 := Apply(s0, Turn(0));
    var s2 := Apply(s1, Turn(1));
    var s3 := Apply(s2, Turn(0));
    var s4 := Apply(s3, Turn(0));
    var s5 := Apply(s4, Turn(0));
    var s6 := Apply(s5, Turn(1));
    FirstTurn(s5, [1]);
    FirstTurn(s4, [0, 1]);
    FirstTurn(s3, [0, 0, 1]);
    FirstTurn(s2, [0, 0, 0, 1]);
    FirstTurn(s1, [1, 0, 0, 0, 1]);
    FirstTurn(s0, [0, 1, 0, 0, 0, 1]);
  }

  /** The leader publishes and closes, then the joiner wakes and reads. */
  lemma LateHalf(s: System)
    requires |s.callers| == 2 && s.callers[0].pc == Returned(0, Turn(0).outcome) && s.callers[1].pc == Waiting(0)
    requires s.world.log == []
    ensures Legal(s, Turns([0, 0, 1, 1]))
    ensures
      var r := Exec(s, Turns([0, 0, 1, 1]));
      && |r.callers| == 2 && r.world.returned == s.world.returned
      && r.callers[1] == s.callers[1].(pc := Done(Joiner(0, 1), LeaderAnswer(Turn(0).outcome)))
  {
    var s1 := Apply(s, Turn(0));
    var s2 := Apply(s1, Turn(0));
    var s3 := Apply(s2, Turn(1));
    var s4 := Apply(s3, Turn(1));
    FirstTurn(s3, [1]);
    FirstTurn(s2, [1, 1]);
    FirstTurn(s1, [0, 1, 1]);
    FirstTurn(s, [0, 0, 1, 1]);
  }

  /** One run after another is a run. */
  lemma {:induction false} TurnsAppend(s: System, order: seq<nat>, rest: seq<nat>)
    requires Legal(s, Turns(order)) && Legal(Exec(s, Turns(order)), Turns(rest))
    ensures Legal(s, Turns(order + rest))
    ensures Exec(s, Turns(order + rest)) == Exec(Exec(s, Turns(order)), Turns(rest))
    decreases |order|
  {
    if order == [] {
      assert order + rest == rest;
    } else {
      assert Turns(order)[1..] == Turns(order[1..]) && (order + rest)[1..] == order[1..] + rest;
      TurnsAppend(Apply(s, Turn(order[0])), order[1..], rest);
      FirstTurn(s, order + rest);
    }
  }

  /** The first caller leads, and its fetch returns. */
  lemma LeaderReturns()
    ensures Legal(TwoCallers(), Turns([0, 0, 0]))
    ensures
      var s := Exec(TwoCallers(), Turns([0, 0, 0]));
      && |s.callers| == 2 && s.callers[0].pc == Returned(0, Turn(0).outcome) && s.callers[1].pc == Start
      && s.world.log == [] && s.world.returned == map[0 := 2] && s.world.step == 3
      && s.world.shared.fetching == Some(0) && s.world.shared.keySet == None
  {
    var s0 := TwoCallers();
    var s1 := Apply(s0, Turn(0));
    var s2 := Apply(s1, Turn(0));
    FirstTurn(s2, [0]);
    FirstTurn(s1, [0, 0]);
    FirstTurn(s0, [0, 0, 0]);
  }

  /** The other caller checks and joins. */
  lemma OtherJoins(s: System)
    requires |s.callers| == 2 && s.callers[1].pc == Start
    requires s.world.shared.fetching == Some(0) && s.world.shared.keySet == None
    ensures Legal(s, Turns([1, 1]))
    ensures
      var r := Exec(s, Turns([1, 1]));
      && |r.callers| == 2 && r.callers[0] == s.callers[0] && r.callers[1].pc == Waiting(0)
      && r.callers[1].checkedAt == s.world.step
      && r.world.log == s.world.log && r.world.returned == s.world.returned
  {
    var s1 := Apply(s, Turn(1));
    FirstTurn(s1, [1]);
    FirstTurn(s, [1, 1]);
  }

  /** A joiner can be handed a fetch that had returned before its own check, published only since. */
  lemma FetchMayReturnBeforeCheck()
    ensures
      var order := [0, 0, 0] + [1, 1] + [0, 0, 1, 1];
      && Initial(TwoCallers()) && Legal(TwoCallers(), Turns(order))
      && var s := Exec(TwoCallers(), Turns(order));
         && |s.callers| == 2 && ThroughRefresh(s.callers[1]) && s.callers[1].pc.answer.keySet.Some?
         && s.callers[1].pc.via == Joiner(0, 1)
         && 0 in s.world.returned && s.world.returned[0] < s.callers[1].checkedAt
  {
    LeaderReturns();
    var s3 := Exec(TwoCallers(), Turns([0, 0, 0]));
    OtherJoins(s3);
    TurnsAppend(TwoCallers(), [0, 0, 0], [1, 1]);
    LateHalf(Exec(s3, Turns([1, 1])));
    TurnsAppend(TwoCallers(), [0, 0, 0] + [1, 1], [0, 0, 1, 1]);
  }
}
