/**
 The in-memory replay cache (dpop_replay.go): a map from a proof's jti to its expiry,
 swept lazily. A call takes its clock reading before it takes the lock, so a run is a
 sequence of calls in lock order whose readings need not be in order.
 */
module ReplayCache {
  import Clock

  datatype Cache = Cache(seen: map<string, int>, lastSweep: int, sweepEvery: int)

  datatype Call = Call(now: int, jti: string, exp: int)

  function Unexpired(seen: map<string, int>, now: int): map<string, int> {
    map jti | jti in seen && seen[jti] > now :: seen[jti]
  }

  predicate SweepDue(c: Cache, now: int) {
    Clock.Sub(now, c.lastSweep) >= c.sweepEvery
  }

  function Swept(c: Cache, now: int): Cache {
    if SweepDue(c, now) then c.(seen := Unexpired(c.seen, now), lastSweep := now) else c
  }

  /** The unexpired-entry test of Seen, on a map that may or may not have been swept. */
  predicate Live(seen: map<string, int>, jti: string, now: int) {
    jti in seen && seen[jti] > now
  }

  /** One call of Seen, with the lock held: the cache after it, and whether it reports a replay. */
  function SeenStep(c: Cache, call: Call): (Cache, bool) {
    var swept := Swept(c, call.now);
    if Live(swept.seen, call.jti, call.now) then (swept, true)
    else (swept.(seen := swept.seen[call.jti := call.exp]), false)
  }

  /** The cache after a run of calls. */
  function After(c: Cache, calls: seq<Call>): Cache {
    if calls == [] then c else SeenStep(After(c, calls[..|calls| - 1]), calls[|calls| - 1]).0
  }

  /** What call k of a run answers: true for a replay. */
  predicate Replayed(c: Cache, calls: seq<Call>, k: nat)
    requires k < |calls|
  {
    SeenStep(After(c, calls[..k]), calls[k]).1
  }

  /** The object, with its lock held during each method. */
  class MemReplay {
    var seen: map<string, int>
    const sweepEvery: int
    var lastSweep: int

    function View(): Cache
      reads this
    {
      Cache(seen, lastSweep, sweepEvery)
    }

    constructor (epoch: int)
      ensures View() == Cache(map[], epoch, Clock.MINUTE) && sweepEvery == 60_000_000_000
    {
      seen, sweepEvery, lastSweep := map[], Clock.MINUTE, epoch;
    }

    /** Removes the entries that have expired, one key at a time. */
    static method DeleteExpired(entries: map<string, int>, now: int) returns (kept: map<string, int>)
      ensures kept == Unexpired(entries, now)
    {
      kept := entries;
      var todo := entries.Keys;
      while todo != {}
        invariant todo <= entries.Keys
        invariant kept == map jti | jti in entries && (jti in todo || entries[jti] > now) :: entries[jti]
      {
        var jti :| jti in todo;
        if !(entries[jti] > now) {
          kept := kept - {jti};
        }
        todo := todo - {jti};
      }
    }

    method Sweep(now: int)
      modifies this
      ensures View() == Swept(old(View()), now)
    {
      if Clock.Sub(now, lastSweep) < sweepEvery {
        return;
      }
      seen := DeleteExpired(seen, now);
      lastSweep := now;
    }

    method Seen(now: int, jti: string, exp: int) returns (replay: bool)
      modifies this
      ensures (View(), replay) == SeenStep(old(View()), Call(now, jti, exp))
    {
      Sweep(now);
      if jti in seen && seen[jti] > now {
        return true;
      }
      seen := seen[jti := exp];
      return false;
    }
  }

  // ---------------------------------------------------------------- one call

  /** A sweep is due exactly when the interval has passed, saturated differences or not. */
  lemma SweepDueIff(c: Cache, now: int)
    requires 0 <= c.sweepEvery && Clock.IsDuration(c.sweepEvery)
    ensures SweepDue(c, now) <==> now - c.lastSweep >= c.sweepEvery
  {
  }

  /**
   Within the interval a call drops nothing and leaves lastSweep alone. Past it, exactly the
   unexpired entries stay, and the interval starts anew. Either way the one entry that it
   may write is its own.
   */
  lemma CallSweeps(c: Cache, call: Call)
    requires 0 <= c.sweepEvery && Clock.IsDuration(c.sweepEvery)
    ensures
      var c' := SeenStep(c, call).0;
      && c'.sweepEvery == c.sweepEvery
      && (call.now - c.lastSweep < c.sweepEvery ==>
            c'.lastSweep == c.lastSweep && forall jti :: jti in c.seen ==> jti in c'.seen)
      && (call.now - c.lastSweep >= c.sweepEvery ==>
            c'.lastSweep == call.now
            && forall jti :: jti != call.jti ==> (jti in c'.seen <==> jti in c.seen && c.seen[jti] > call.now))
      && (forall jti :: jti != call.jti && jti in c'.seen ==> jti in c.seen && c'.seen[jti] == c.seen[jti])
  {
    SweepDueIff(c, call.now);
  }

  // ---------------------------------------------------------------- retention, for any readings

  /** An entry is dropped or overwritten only by a call whose reading is at or past its expiry. */
  lemma EntryRetained(c: Cache, call: Call, jti: string)
    requires jti in c.seen && call.now < c.seen[jti]
    ensures jti in SeenStep(c, call).0.seen && SeenStep(c, call).0.seen[jti] == c.seen[jti]
    ensures call.jti == jti ==> SeenStep(c, call).1
  {
  }

  /** The entry that call k recorded stays as it was while all later readings are below its expiry. */
  lemma {:induction false} Retained(c: Cache, calls: seq<Call>, k: nat, m: nat)
    requires k < m <= |calls| && !Replayed(c, calls, k)
    requires forall l :: k < l < m ==> calls[l].now < calls[k].exp
    ensures
      var seen := After(c, calls[..m]).seen;
      calls[k].jti in seen && seen[calls[k].jti] == calls[k].exp
    decreases m
  {
    assert calls[..m][..m - 1] == calls[..m - 1];
    if k + 1 < m {
      Retained(c, calls, k, m - 1);
      EntryRetained(After(c, calls[..m - 1]), calls[m - 1], calls[k].jti);
    }
  }

  /** Of any number of interleaved calls with one jti, exactly the first is told that it is new. */
  lemma SingleWinner(c: Cache, calls: seq<Call>, first: nat)
    requires first < |calls| && !Live(c.seen, calls[first].jti, calls[first].now)
    requires forall l :: 0 <= l < first ==> calls[l].jti != calls[first].jti
    requires forall l :: first < l < |calls| ==> calls[l].now < calls[first].exp
    ensures forall l :: 0 <= l < |calls| && calls[l].jti == calls[first].jti ==>
              (!Replayed(c, calls, l) <==> l == first)
  {
    NotRecorded(c, calls[..first], calls[first].jti, calls[first].now);
    assert !Replayed(c, calls, first);
    forall l | first < l < |calls| && calls[l].jti == calls[first].jti
      ensures Replayed(c, calls, l)
    {
      Retained(c, calls, first, l);
      EntryRetained(After(c, calls[..l]), calls[l], calls[first].jti);
    }
  }

  lemma {:induction false} NotRecorded(c: Cache, calls: seq<Call>, jti: string, now: int)
    requires !Live(c.seen, jti, now)
    requires forall l :: 0 <= l < |calls| ==> calls[l].jti != jti
    ensures !Live(After(c, calls).seen, jti, now)
  {
    if calls != [] {
      NotRecorded(c, calls[..|calls| - 1], jti, now);
    }
  }

  // ---------------------------------------------------------------- the unswept history

  /** The calls of a run that recorded their jti, in order. */
  function History(c: Cache, calls: seq<Call>): seq<Call> {
    if calls == [] then []
    else
      var before := History(c, calls[..|calls| - 1]);
      if Replayed(c, calls, |calls| - 1) then before else before + [calls[|calls| - 1]]
  }

  /** The contract of a replay cache: the jti has been recorded with an expiry not yet reached. */
  predicate Contract(history: seq<Call>, jti: string, now: int) {
    exists k :: 0 <= k < |history| && history[k].jti == jti && history[k].exp > now
  }

  /** The same run on a map that is never swept. */
  function UnsweptAfter(seen: map<string, int>, calls: seq<Call>): map<string, int> {
    if calls == [] then seen
    else
      var before, call := UnsweptAfter(seen, calls[..|calls| - 1]), calls[|calls| - 1];
      if Live(before, call.jti, call.now) then before else before[call.jti := call.exp]
  }

  predicate UnsweptReplayed(seen: map<string, int>, calls: seq<Call>, k: nat)
    requires k < |calls|
  {
    Live(UnsweptAfter(seen, calls[..k]), calls[k].jti, calls[k].now)
  }

  predicate InOrder(calls: seq<Call>) {
    forall j, k :: 0 <= j < k < |calls| ==> calls[j].now <= calls[k].now
  }

  function Empty(lastSweep: int, sweepEvery: int): Cache {
    Cache(map[], lastSweep, sweepEvery)
  }

  /** No reader whose clock is at now or later can tell the three stores apart. */
  ghost predicate Agree(seen: map<string, int>, unswept: map<string, int>, history: seq<Call>, now: int) {
    forall jti, t :: t >= now ==>
      && (Live(seen, jti, t) <==> Live(unswept, jti, t))
      && (Live(seen, jti, t) <==> Contract(history, jti, t))
  }

  lemma {:induction false} StoresAgree(c: Cache, calls: seq<Call>, now: int)
    requires c.seen == map[] && InOrder(calls)
    requires forall k :: 0 <= k < |calls| ==> calls[k].now <= now
    ensures Agree(After(c, calls).seen, UnsweptAfter(map[], calls), History(c, calls), now)
  {
    if calls != [] {
      var front, call := calls[..|calls| - 1], calls[|calls| - 1];
      StoresAgree(c, front, call.now);
      AgreeStep(After(c, front), UnsweptAfter(map[], front), History(c, front), call, now);
    }
  }

  lemma AgreeStep(c: Cache, unswept: map<string, int>, history: seq<Call>, call: Call, now: int)
    requires Agree(c.seen, unswept, history, call.now) && call.now <= now
    ensures
      var (c', replay) := SeenStep(c, call);
      var unswept' := if Live(unswept, call.jti, call.now) then unswept else unswept[call.jti := call.exp];
      && (replay <==> Live(unswept, call.jti, call.now))
      && (replay <==> Contract(history, call.jti, call.now))
      && Agree(c'.seen, unswept', if replay then history else history + [call], now)
  {
    var (c', replay) := SeenStep(c, call);
    if !replay {
      var history' := history + [call];
      assert history'[|history|] == call;
      forall jti, t | t >= now
        ensures Contract(history', jti, t) <==> Contract(history, jti, t) || (jti == call.jti && call.exp > t)
      {
        if Contract(history, jti, t) {
          var k :| 0 <= k < |history| && history[k].jti == jti && history[k].exp > t;
          assert history'[k] == history[k];
        }
      }
      forall t | t >= now
        ensures !Live(c.seen, call.jti, t) && !Live(unswept, call.jti, t) && !Contract(history, call.jti, t)
      {
        assert Live(c.seen, call.jti, t) ==> Live(c.seen, call.jti, call.now);
      }
      var unswept' := unswept[call.jti := call.exp];
      forall jti, t | t >= now
        ensures Live(c'.seen, jti, t) <==> Live(unswept', jti, t)
        ensures Live(c'.seen, jti, t) <==> Contract(history', jti, t)
      {
        assert Live(c.seen, jti, t) <==> Live(unswept, jti, t);
        assert Live(c.seen, jti, t) <==> Contract(history, jti, t);
      }
    }
  }

  /** Sweeping is invisible: with readings in order, every call answers as the unswept map and as the contract. */
  lemma SweepTransparent(lastSweep: int, sweepEvery: int, calls: seq<Call>, k: nat)
    requires InOrder(calls) && k < |calls|
    ensures Replayed(Empty(lastSweep, sweepEvery), calls, k) <==> UnsweptReplayed(map[], calls, k)
    ensures Replayed(Empty(lastSweep, sweepEvery), calls, k) <==>
            Contract(History(Empty(lastSweep, sweepEvery), calls[..k]), calls[k].jti, calls[k].now)
  {
    var c := Empty(lastSweep, sweepEvery);
    StoresAgree(c, calls[..k], calls[k].now);
    AgreeStep(After(c, calls[..k]), UnsweptAfter(map[], calls[..k]), History(c, calls[..k]), calls[k], calls[k].now);
  }

  // ---------------------------------------------------------------- readings out of order

  /** Call s of a run sweeps the cache, with a reading at or past this expiry. */
  predicate SweepsPast(c: Cache, calls: seq<Call>, s: nat, exp: int)
    requires s < |calls|
  {
    SweepDue(After(c, calls[..s]), calls[s].now) && calls[s].now >= exp
  }

  /** Some call between r and m swept the cache with a reading at or past the expiry that r recorded. */
  predicate SweptPast(c: Cache, calls: seq<Call>, r: nat, m: nat)
    requires r < m <= |calls|
  {
    exists s :: r < s < m && SweepsPast(c, calls, s, calls[r].exp)
  }

  /** What one call does to the entry for a jti, if it does not record that jti anew. */
  lemma EntryStep(c: Cache, call: Call, jti: string)
    requires call.jti == jti ==> SeenStep(c, call).1
    ensures jti in SeenStep(c, call).0.seen <==> jti in c.seen && !(SweepDue(c, call.now) && call.now >= c.seen[jti])
    ensures jti in SeenStep(c, call).0.seen ==> SeenStep(c, call).0.seen[jti] == c.seen[jti]
  {
  }

  lemma SweptPastNext(c: Cache, calls: seq<Call>, r: nat, m: nat)
    requires r + 1 < m <= |calls|
    ensures SweptPast(c, calls, r, m) <==>
            SweptPast(c, calls, r, m - 1) || SweepsPast(c, calls, m - 1, calls[r].exp)
  {
  }

  lemma {:induction false} EntryUnlessSwept(c: Cache, calls: seq<Call>, r: nat, m: nat)
    requires r < m <= |calls| && !Replayed(c, calls, r)
    requires forall l :: r < l < m && calls[l].jti == calls[r].jti ==> Replayed(c, calls, l)
    ensures
      var seen := After(c, calls[..m]).seen;
      && (calls[r].jti in seen <==> !SweptPast(c, calls, r, m))
      && (calls[r].jti in seen ==> seen[calls[r].jti] == calls[r].exp)
    decreases m
  {
    assert calls[..m][..m - 1] == calls[..m - 1];
    if r + 1 < m {
      EntryUnlessSwept(c, calls, r, m - 1);
      EntryStep(After(c, calls[..m - 1]), calls[m - 1], calls[r].jti);
      SweptPastNext(c, calls, r, m);
    } else {
      assert After(c, calls[..m]) == SeenStep(After(c, calls[..r]), calls[r]).0;
    }
  }

  /**
   With readings in any order, a jti last recorded by call r is reported as a replay by a
   later call exactly if it has not expired and no sweep in between read the clock past it.
   */
  lemma ReplayedIff(c: Cache, calls: seq<Call>, r: nat, k: nat)
    requires r < k < |calls| && calls[r].jti == calls[k].jti && !Replayed(c, calls, r)
    requires forall l :: r < l < k && calls[l].jti == calls[r].jti ==> Replayed(c, calls, l)
    ensures Replayed(c, calls, k) <==> calls[r].exp > calls[k].now && !SweptPast(c, calls, r, k)
  {
    EntryUnlessSwept(c, calls, r, k);
  }

  /** Calls at t, 100 and 80 seconds later, of which the last two got the lock in the other order. */
  function LateSweep(t: int): seq<Call> {
    [Call(t, "j", t + 90 * Clock.SECOND), Call(t + 100 * Clock.SECOND, "x", t + 160 * Clock.SECOND),
     Call(t + 80 * Clock.SECOND, "j", t + 90 * Clock.SECOND)]
  }

  /** With readings out of order, a jti recorded and unexpired can be taken for new. */
  lemma OutOfOrderForgets(epoch: int, t: int)
    requires epoch <= t
    ensures
      var c, calls := Empty(epoch, Clock.MINUTE), LateSweep(t);
      && Contract(History(c, calls[..2]), "j", t + 80 * Clock.SECOND)
      && !Replayed(c, calls, 2)
  {
    var c, calls := Empty(epoch, Clock.MINUTE), LateSweep(t);
    assert calls[..1][..0] == [] && calls[..2][..1] == calls[..1];
    assert calls[..2][0] == calls[..1][0] == calls[0] && calls[..2][1] == calls[1];
    assert After(c, []) == c && History(c, []) == [];
    var c1 := SeenStep(c, calls[0]).0;
    assert After(c, calls[..1]) == c1 && c1.seen == map["j" := t + 90 * Clock.SECOND];
    assert !Replayed(c, calls[..1], 0);
    assert History(c, calls[..1]) == [calls[0]];
    assert "j" !in After(c, calls[..2]).seen;
    assert History(c, calls[..2])[0] == calls[0];
  }

  // ---------------------------------------------------------------- size

  /** Callers record no expiry further ahead than this. */
  predicate Fed(calls: seq<Call>, window: int) {
    forall k :: 0 <= k < |calls| ==> calls[k].exp <= calls[k].now + window
  }

  /** Call k recorded this entry of the cache. */
  predicate Recorded(c: Cache, calls: seq<Call>, k: nat, jti: string, exp: int)
    requires k < |calls|
  {
    calls[k].jti == jti && calls[k].exp == exp && !Replayed(c, calls, k)
  }

  /** Call k recorded this entry, and it has not been due for removal at the last sweep. */
  predicate Holds(c: Cache, calls: seq<Call>, k: nat, jti: string, exp: int, lastSweep: int)
    requires k < |calls|
  {
    Recorded(c, calls, k, jti, exp) && (calls[k].now >= lastSweep || exp > lastSweep)
  }

  /** The last sweep is recent, and every entry was recorded since, or had not expired at it. */
  ghost predicate SinceSweep(c: Cache, calls: seq<Call>, t: int) {
    var c' := After(c, calls);
    && c'.sweepEvery == c.sweepEvery
    && c'.lastSweep <= t
    && (calls != [] ==> t == c'.lastSweep || t < c'.lastSweep + c.sweepEvery)
    && forall jti :: jti in c'.seen ==>
      exists k :: 0 <= k < |calls| && Holds(c, calls, k, jti, c'.seen[jti], c'.lastSweep)
  }

  lemma EntryHolds(c: Cache, calls: seq<Call>, t: int, jti: string)
    requires calls != [] && SinceSweep(c, calls[..|calls| - 1], t) && t <= calls[|calls| - 1].now
    requires jti in After(c, calls).seen
    ensures exists k :: 0 <= k < |calls|
                        && Holds(c, calls, k, jti, After(c, calls).seen[jti], After(c, calls).lastSweep)
  {
    var n := |calls| - 1;
    var front := calls[..n];
    if calls[n].jti == jti && !Replayed(c, calls, n) {
      assert Holds(c, calls, n, jti, calls[n].exp, After(c, calls).lastSweep);
    } else {
      var before, after := After(c, front), After(c, calls);
      EntryStep(before, calls[n], jti);
      var k :| 0 <= k < |front| && Holds(c, front, k, jti, before.seen[jti], before.lastSweep);
      PrefixRecorded(c, calls, n, k);
      assert Holds(c, calls, k, jti, after.seen[jti], after.lastSweep);
    }
  }

  lemma PrefixRecorded(c: Cache, calls: seq<Call>, n: nat, k: nat)
    requires k < n <= |calls|
    ensures calls[..n][k] == calls[k] && (Replayed(c, calls[..n], k) <==> Replayed(c, calls, k))
  {
    assert calls[..n][..k] == calls[..k];
  }

  lemma {:induction false} SinceSweepAlways(c: Cache, calls: seq<Call>, t: int)
    requires c.seen == map[] && InOrder(calls) && Clock.IsDuration(c.sweepEvery)
    requires forall k :: 0 <= k < |calls| ==> c.lastSweep <= calls[k].now
    requires if calls == [] then t == c.lastSweep else t == calls[|calls| - 1].now
    ensures SinceSweep(c, calls, t)
  {
    if calls != [] {
      var n := |calls| - 1;
      SinceSweepAlways(c, calls[..n], if n == 0 then c.lastSweep else calls[n - 1].now);
      forall jti | jti in After(c, calls).seen
        ensures exists k :: 0 <= k < |calls|
                        && Holds(c, calls, k, jti, After(c, calls).seen[jti], After(c, calls).lastSweep)
      {
        EntryHolds(c, calls, if n == 0 then c.lastSweep else calls[n - 1].now, jti);
      }
    }
  }

  /** The calls of a run that recorded their jti with a reading after this time. */
  function RecordedAfter(c: Cache, calls: seq<Call>, t: int): set<nat> {
    set k: nat | k < |calls| && !Replayed(c, calls, k) && calls[k].now > t
  }

  /** The bound below which SizeBound finds no recording. */
  function Since(c: Cache, calls: seq<Call>, window: int): int
    requires calls != []
  {
    calls[|calls| - 1].now - (c.sweepEvery + window)
  }

  lemma EntryIsRecent(c: Cache, calls: seq<Call>, window: int, jti: string)
    requires c.seen == map[] && 0 <= c.sweepEvery && Clock.IsDuration(c.sweepEvery) && window > 0
    requires calls != [] && InOrder(calls) && Fed(calls, window)
    requires forall k :: 0 <= k < |calls| ==> c.lastSweep <= calls[k].now
    requires jti in After(c, calls).seen
    ensures exists k :: k in RecordedAfter(c, calls, Since(c, calls, window)) && calls[k].jti == jti
  {
    SinceSweepAlways(c, calls, calls[|calls| - 1].now);
    var c' := After(c, calls);
    var k :| 0 <= k < |calls| && Holds(c, calls, k, jti, c'.seen[jti], c'.lastSweep);
    assert k in RecordedAfter(c, calls, Since(c, calls, window));
  }

  /** These entries are all for recordings of the run within a sweep interval and the window, and no more than those. */
  ghost predicate IsSmall(seen: map<string, int>, c: Cache, calls: seq<Call>, window: int)
    requires calls != []
  {
    var recent := RecordedAfter(c, calls, Since(c, calls, window));
    && (forall jti :: jti in seen ==> exists k :: k in recent && calls[k].jti == jti)
    && |seen| <= |recent|
  }

  /**
   Fed in order with expiries at most window ahead, the cache holds after a call at time t
   only what was recorded after t - (sweepEvery + window), so no more entries than calls
   that recorded their jti since then.
   */
  lemma SizeBound(c: Cache, calls: seq<Call>, window: int)
    requires c.seen == map[] && 0 <= c.sweepEvery && Clock.IsDuration(c.sweepEvery) && window > 0
    requires calls != [] && InOrder(calls) && Fed(calls, window)
    requires forall k :: 0 <= k < |calls| ==> c.lastSweep <= calls[k].now
    ensures IsSmall(After(c, calls).seen, c, calls, window)
  {
    var recent := RecordedAfter(c, calls, Since(c, calls, window));
    var names := map k | k in recent :: calls[k].jti;
    forall jti | jti in After(c, calls).seen
      ensures jti in names.Values && exists k :: k in recent && calls[k].jti == jti
    {
      EntryIsRecent(c, calls, window, jti);
      var k :| k in recent && calls[k].jti == jti;
      assert names[k] == jti;
    }
    assert names.Keys == recent;
    Covered(After(c, calls).seen.Keys, names);
  }

  /** A map has no more values than keys. */
  lemma {:induction false} Covered(values: set<string>, names: map<nat, string>)
    requires values <= names.Values
    ensures |values| <= |names.Keys|
    decreases names.Keys
  {
    if values != {} {
      var v :| v in values;
      var k :| k in names && names[k] == v;
      var rest := names - {k};
      forall u | u in values - {v}
        ensures u in rest.Values
      {
        var l :| l in names && names[l] == u;
        assert rest[l] == u;
      }
      Covered(values - {v}, rest);
      assert rest.Keys == names.Keys - {k};
    }
  }
}
