/**
 Runs of requests of which only some reach the replay cache: each request puts at most
 one call to it.
 */
module ReplayRuns {
  import opened Wrappers
  import opened ReplayCache
  import Clock

  function AskStep(c: Cache, ask: Option<Call>): Cache {
    if ask.None? then c else SeenStep(c, ask.value).0
  }

  function AfterAsks(c: Cache, asks: seq<Option<Call>>): Cache {
    if asks == [] then c else AskStep(AfterAsks(c, asks[..|asks| - 1]), asks[|asks| - 1])
  }

  /** Request k asks, and is told that its jti is new. */
  predicate TakenForNew(c: Cache, asks: seq<Option<Call>>, k: nat)
    requires k < |asks|
  {
    asks[k].Some? && !SeenStep(AfterAsks(c, asks[..k]), asks[k].value).1
  }

  predicate ReadingsInOrder(asks: seq<Option<Call>>) {
    forall j, k :: 0 <= j < k < |asks| && asks[j].Some? && asks[k].Some? ==> asks[j].value.now <= asks[k].value.now
  }

  /** The readings of the calls behind a and before m are all below t. */
  predicate ReadingsBelow(asks: seq<Option<Call>>, a: nat, m: nat, t: int)
    requires m <= |asks|
  {
    forall l :: a < l < m && asks[l].Some? ==> asks[l].value.now < t
  }

  lemma AfterNext(c: Cache, asks: seq<Option<Call>>, m: nat)
    requires m < |asks|
    ensures AfterAsks(c, asks[..m + 1]) == AskStep(AfterAsks(c, asks[..m]), asks[m])
  {
    assert asks[..m + 1][..m] == asks[..m];
  }

  /** A record stays as it was while all later readings are before its expiry. */
  lemma {:induction false} RecordKept(c: Cache, asks: seq<Option<Call>>, a: nat, m: nat)
    requires a < m <= |asks| && TakenForNew(c, asks, a) && ReadingsBelow(asks, a, m, asks[a].value.exp)
    ensures
      var seen, call := AfterAsks(c, asks[..m]).seen, asks[a].value;
      call.jti in seen && seen[call.jti] == call.exp
    decreases m
  {
    AfterNext(c, asks, m - 1);
    if a + 1 < m {
      RecordKept(c, asks, a, m - 1);
      if asks[m - 1].Some? {
        EntryRetained(AfterAsks(c, asks[..m - 1]), asks[m - 1].value, asks[a].value.jti);
      }
    }
  }

  /** Whoever else presents this jti behind a and before m is told of a replay. */
  predicate OnlyRefused(c: Cache, asks: seq<Option<Call>>, a: nat, m: nat, jti: string)
    requires m <= |asks|
  {
    forall l :: a < l < m && asks[l].Some? && asks[l].value.jti == jti ==> !TakenForNew(c, asks, l)
  }

  /** Request s sweeps the cache, with a reading at or past this expiry. */
  predicate SweepsPast(c: Cache, asks: seq<Option<Call>>, s: nat, exp: int)
    requires s < |asks|
  {
    asks[s].Some? && SweepDue(AfterAsks(c, asks[..s]), asks[s].value.now) && asks[s].value.now >= exp
  }

  /** Some request behind a and before m sweeps the cache with a reading at or past this expiry. */
  predicate SweptPast(c: Cache, asks: seq<Option<Call>>, a: nat, m: nat, exp: int)
    requires m <= |asks|
  {
    exists s :: a < s < m && SweepsPast(c, asks, s, exp)
  }

  lemma SweptPastNext(c: Cache, asks: seq<Option<Call>>, a: nat, m: nat, exp: int)
    requires a + 1 < m <= |asks|
    ensures SweptPast(c, asks, a, m, exp) <==> SweptPast(c, asks, a, m - 1, exp) || SweepsPast(c, asks, m - 1, exp)
  {
  }

  /** With readings in any order, a record is there exactly if no sweep since has gone past its expiry. */
  lemma {:induction false} RecordUnlessSwept(c: Cache, asks: seq<Option<Call>>, a: nat, m: nat)
    requires a < m <= |asks| && TakenForNew(c, asks, a) && OnlyRefused(c, asks, a, m, asks[a].value.jti)
    ensures
      var seen, call := AfterAsks(c, asks[..m]).seen, asks[a].value;
      && (call.jti in seen <==> !SweptPast(c, asks, a, m, call.exp))
      && (call.jti in seen ==> seen[call.jti] == call.exp)
    decreases m
  {
    AfterNext(c, asks, m - 1);
    if a + 1 < m {
      RecordUnlessSwept(c, asks, a, m - 1);
      if asks[m - 1].Some? {
        EntryStep(AfterAsks(c, asks[..m - 1]), asks[m - 1].value, asks[a].value.jti);
      }
      SweptPastNext(c, asks, a, m, asks[a].value.exp);
    }
  }

  /** The same jti taken for new twice: some reading since was at or past the first expiry. */
  lemma NewTwice(c: Cache, asks: seq<Option<Call>>, a: nat, b: nat)
    requires a < b < |asks| && TakenForNew(c, asks, a) && TakenForNew(c, asks, b)
    requires asks[a].value.jti == asks[b].value.jti
    ensures !ReadingsBelow(asks, a, b + 1, asks[a].value.exp)
    ensures ReadingsInOrder(asks) ==> asks[b].value.now >= asks[a].value.exp
  {
    if ReadingsBelow(asks, a, b + 1, asks[a].value.exp) {
      RecordKept(c, asks, a, b);
    }
  }

  /**
   With readings in any order, a jti last taken for new by a is taken for new again by b
   exactly if b reads the clock at or past its expiry, or a sweep in between has.
   */
  lemma NewAgainAnyOrderIff(c: Cache, asks: seq<Option<Call>>, a: nat, b: nat)
    requires a < b < |asks| && TakenForNew(c, asks, a) && asks[b].Some?
    requires asks[a].value.jti == asks[b].value.jti && OnlyRefused(c, asks, a, b, asks[a].value.jti)
    ensures
      var exp := asks[a].value.exp;
      TakenForNew(c, asks, b) <==> asks[b].value.now >= exp || SweptPast(c, asks, a, b, exp)
  {
    RecordUnlessSwept(c, asks, a, b);
  }

  /** With readings in order, exactly from its expiry on. */
  lemma NewAgainIff(c: Cache, asks: seq<Option<Call>>, a: nat, b: nat)
    requires a < b < |asks| && TakenForNew(c, asks, a) && asks[b].Some? && ReadingsInOrder(asks)
    requires asks[a].value.jti == asks[b].value.jti && OnlyRefused(c, asks, a, b, asks[a].value.jti)
    ensures TakenForNew(c, asks, b) <==> asks[b].value.now >= asks[a].value.exp
  {
    NewAgainAnyOrderIff(c, asks, a, b);
  }

  /** The calls that were made. */
  function Made(asks: seq<Option<Call>>): seq<Call> {
    if asks == [] then []
    else
      var front, last := Made(asks[..|asks| - 1]), asks[|asks| - 1];
      if last.Some? then front + [last.value] else front
  }

  lemma {:induction false} AfterMade(c: Cache, asks: seq<Option<Call>>)
    ensures AfterAsks(c, asks) == After(c, Made(asks))
  {
    if asks != [] {
      var n := |asks| - 1;
      AfterMade(c, asks[..n]);
      if asks[n].Some? {
        assert Made(asks)[..|Made(asks[..n])|] == Made(asks[..n]);
      }
    }
  }

  lemma {:induction false} MadeFrom(asks: seq<Option<Call>>, call: Call)
    requires call in Made(asks)
    ensures Some(call) in asks
  {
    var n := |asks| - 1;
    if call in Made(asks[..n]) {
      MadeFrom(asks[..n], call);
    }
  }

  lemma {:induction false} MadeInOrder(asks: seq<Option<Call>>)
    requires ReadingsInOrder(asks)
    ensures InOrder(Made(asks))
  {
    if asks != [] {
      var n := |asks| - 1;
      var front := Made(asks[..n]);
      MadeInOrder(asks[..n]);
      if asks[n].Some? {
        forall j | 0 <= j < |front|
          ensures front[j].now <= asks[n].value.now
        {
          MadeFrom(asks[..n], front[j]);
          var k :| 0 <= k < n && asks[..n][k] == Some(front[j]);
          assert asks[k] == Some(front[j]);
        }
      }
    }
  }

  /** The size bound of the cache, for a run of requests whose expiries are at most window ahead. */
  lemma CacheStaysSmall(c: Cache, asks: seq<Option<Call>>, window: int)
    requires c.seen == map[] && 0 <= c.sweepEvery && Clock.IsDuration(c.sweepEvery) && window > 0
    requires ReadingsInOrder(asks) && Made(asks) != []
    requires forall k :: 0 <= k < |asks| && asks[k].Some? ==>
               c.lastSweep <= asks[k].value.now && asks[k].value.exp <= asks[k].value.now + window
    ensures IsSmall(AfterAsks(c, asks).seen, c, Made(asks), window)
  {
    var calls := Made(asks);
    AfterMade(c, asks);
    MadeInOrder(asks);
    forall j | 0 <= j < |calls|
      ensures c.lastSweep <= calls[j].now && calls[j].exp <= calls[j].now + window
    {
      MadeFrom(asks, calls[j]);
    }
    SizeBound(c, calls, window);
  }
}
