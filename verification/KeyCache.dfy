/**
 The remote JWKS cache (jwks.go): its four shared fields, and the four critical
 sections in which callers read and write them.
 */
module KeyCache {
  import opened Wrappers
  import Clock

  /** A key of a set; a JWK need not carry a key id. */
  datatype Key = Key(kid: Option<string>, material: string)

  datatype KeySet = KeySet(keys: seq<Key>)

  predicate HasKid(keySet: KeySet, kid: string) {
    exists i :: 0 <= i < |keySet.keys| && keySet.keys[i].kid == Some(kid)
  }

  /** What one HTTP fetch and parse of the key document comes back with. */
  datatype Outcome = Fetched(keySet: KeySet) | Failed(err: string)

  /** The pair (set, error) a caller gets; either half may be nil. */
  datatype Answer = Answer(keySet: Option<KeySet>, err: Option<string>)

  /** The fields guarded by the mutex. A channel is named by a number. */
  datatype Shared = Shared(
    keySet: Option<KeySet>,
    fetchedAt: int,
    fetching: Option<nat>,
    lastErr: Option<string>)

  datatype Lookup = Hit(keySet: KeySet) | Miss

  datatype Decision = Join(chan: nat) | Lead(chan: nat)

  /** The first critical section of setForKID: is there a fresh set with this kid? */
  function CheckSection(s: Shared, ttl: int, kid: string, now: int): Lookup {
    if s.keySet.Some? && HasKid(s.keySet.value, kid) && Clock.Sub(now, s.fetchedAt) <= ttl
    then Hit(s.keySet.value)
    else Miss
  }

  /** The first critical section of refresh: join the fetch in flight, or claim a new one. */
  function DecideSection(s: Shared, newChan: nat): (Shared, Decision) {
    if s.fetching.Some?
    then (s, Join(s.fetching.value))
    else (s.(fetching := Some(newChan)), Lead(newChan))
  }

  /** The leader's second critical section: publish the outcome of its fetch. */
  function PublishSection(s: Shared, outcome: Outcome, now: int): Shared {
    match outcome
    case Fetched(keySet) => Shared(Some(keySet), now, None, None)
    case Failed(err) => Shared(s.keySet, s.fetchedAt, None, Some(err))
  }

  /** The joiner's second critical section: what it reads once the channel is closed. */
  function RereadSection(s: Shared): Answer {
    if s.lastErr.Some?
    then Answer(None, Some(JoinerError(s.lastErr.value)))
    else Answer(s.keySet, None)
  }

  function JoinerError(err: string): string {
    "aoa: jwks refresh failed: " + err
  }

  /** What a leader returns for its own fetch. */
  function LeaderAnswer(outcome: Outcome): Answer {
    match outcome
    case Fetched(keySet) => Answer(Some(keySet), None)
    case Failed(err) => Answer(None, Some(err))
  }

  /** What a joiner returns when the last publication it can see is this outcome. */
  function JoinerAnswer(outcome: Outcome): Answer {
    match outcome
    case Fetched(keySet) => Answer(Some(keySet), None)
    case Failed(err) => Answer(None, Some(JoinerError(err)))
  }

  /** The object itself. Each method is one critical section, run with the mutex held. */
  class RemoteKeySource {
    const ttl: int
    var keySet: Option<KeySet>
    var fetchedAt: int
    var fetching: Option<nat>
    var lastErr: Option<string>
    var nextChan: nat

    function View(): Shared
      reads this
    {
      Shared(keySet, fetchedAt, fetching, lastErr)
    }

    constructor (ttl: int)
      ensures this.ttl == ttl
      ensures View().keySet == None && View().fetching == None && View().lastErr == None
    {
      this.ttl := ttl;
      keySet, fetchedAt, fetching, lastErr, nextChan := None, 0, None, None, 0;
    }

    method Check(kid: string, now: int) returns (found: Lookup)
      ensures found == CheckSection(View(), ttl, kid, now)
    {
      var cur := keySet;
      var stale := cur.None? || Clock.Sub(now, fetchedAt) > ttl;
      var present := false;
      if cur.Some? {
        present := HasKid(cur.value, kid);
      }
      if cur.Some? && present && !stale {
        return Hit(cur.value);
      }
      return Miss;
    }

    method Decide() returns (decision: Decision)
      modifies this
      ensures (View(), decision) == DecideSection(old(View()), old(nextChan))
      ensures nextChan == old(nextChan) + if decision.Lead? then 1 else 0
    {
      if fetching.Some? {
        return Join(fetching.value);
      }
      var done := nextChan;
      nextChan := nextChan + 1;
      fetching := Some(done);
      return Lead(done);
    }

    method Publish(outcome: Outcome, now: int)
      modifies this
      ensures View() == PublishSection(old(View()), outcome, now)
      ensures nextChan == old(nextChan)
    {
      if outcome.Fetched? {
        keySet := Some(outcome.keySet);
        fetchedAt := now;
      }
      lastErr := if outcome.Failed? then Some(outcome.err) else None;
      fetching := None;
    }

    method Reread() returns (answer: Answer)
      ensures answer == RereadSection(View())
    {
      var current, err := keySet, lastErr;
      if err.Some? {
        return Answer(None, Some(JoinerError(err.value)));
      }
      return Answer(current, None);
    }
  }
}
