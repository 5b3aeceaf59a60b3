/** DailySpread's pending follow-up queue as a value: the feed id -> due time map
    read back from configuration, the stale-entry pruning rule, and the status the
    preview page shows for an RSSHub feed. */
module Followups {
  import opened Common

  /** An entry whose due time is this many intervals in the past is stale. */
  const STALE_INTERVALS := 2

  /** Every entry has a positive feed id and a positive due time. */
  predicate WellFormed(q: map<int, int>)
  {
    forall id :: id in q ==> id > 0 && q[id] > 0
  }

  /** The entries sanitizePendingFollowups keeps from what configuration returned
      (null gives the empty queue); keys and values are already cast to int. */
  function Sanitized(raw: Option<map<int, int>>): map<int, int>
  {
    match raw
    case None => map[]
    case Some(m) => map id | id in m && id > 0 && m[id] > 0 :: m[id]
  }

  /** sanitizePendingFollowups: keeps exactly the entries whose id and due time are
      both positive, with their due times. */
  method SanitizePendingFollowups(raw: Option<map<int, int>>) returns (q: map<int, int>)
    ensures WellFormed(q)
    ensures q == Sanitized(raw)
  {
    if raw.None? {
      return map[];
    }
    var m := raw.value;
    q := map[];
    var rest := m.Keys;
    while rest != {}
      invariant rest <= m.Keys
      invariant q == map id | id in m && id !in rest && id > 0 && m[id] > 0 :: m[id]
      decreases rest
    {
      HasMember(rest);
      var k :| k in rest;
      if k > 0 && m[k] > 0 {
        q := q[k := m[k]];
      }
      rest := rest - {k};
    }
  }

  lemma EmptyWhenNoMember(s: set<int>)
    requires forall x :: x !in s
    ensures s == {}
  {
    assert forall x :: x in s <==> x in {};
  }

  /** A non-empty set of ids has a member to pick. */
  lemma HasMember(s: set<int>)
    requires s != {}
    ensures exists x :: x in s
  {
    if forall x :: x !in s {
      EmptyWhenNoMember(s);
      assert false;
    }
  }

  /** A queue written back to configuration reads back unchanged when well formed. */
  lemma SanitizedRoundTrip(q: map<int, int>)
    requires WellFormed(q)
    ensures Sanitized(Some(q)) == q
  {
    assert Sanitized(Some(q)).Keys == q.Keys;
  }

  /** time() - 2 * intervalSeconds */
  function PruneThreshold(now: int, interval: int): int
  {
    now - STALE_INTERVALS * interval
  }

  /** What pruneOutdatedFollowups leaves: the entries due at or after the threshold. */
  function Pruned(q: map<int, int>, threshold: int): (r: map<int, int>)
    ensures forall id :: id in r ==> id in q && r[id] == q[id] && r[id] >= threshold
    ensures forall id :: id in q && q[id] >= threshold ==> id in r
    ensures WellFormed(q) ==> WellFormed(r)
  {
    map id | id in q && q[id] >= threshold :: q[id]
  }

  /** The feeds whose follow-up pruning drops. */
  function StaleIds(q: map<int, int>, threshold: int): set<int>
  {
    set id | id in q && q[id] < threshold
  }

  /** Pruning removes exactly the stale entries: the queue shrinks by their number. */
  lemma PrunedCount(q: map<int, int>, threshold: int)
    ensures |q| == |Pruned(q, threshold)| + |StaleIds(q, threshold)|
  {
    var kept := Pruned(q, threshold);
    var stale := StaleIds(q, threshold);
    assert q.Keys == kept.Keys + stale;
    assert kept.Keys !! stale;
  }

  /** The status getTimingPreview shows for an RSSHub feed; the date text is left out. */
  datatype FollowupStatus = Completed | ReadyNow | QueuedFor(dueAt: int)

  /** describeRssHubStatus */
  function DescribeRssHubStatus(q: map<int, int>, feedId: int, now: int): FollowupStatus
  {
    if feedId !in q then Completed
    else if q[feedId] <= now then ReadyNow
    else QueuedFor(q[feedId])
  }
}
