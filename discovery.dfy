/** DailySpread's discovery pass as a value: the foreach of
    discoverAndScheduleRssHubFollowups over the listed feeds, which backfills a
    follow-up for every eligible feed that has none. */
module Discovery {
  import opened Common
  import opened Stats
  import opened Policy
  import Followups

  /** The state the pass threads through the feeds: the queue, the statistics and
      the two tallies it reports. */
  datatype Pass = Pass(pending: map<int, int>, stats: StatsLog, scheduled: nat, skipped: nat)

  /** One iteration: ineligible feeds are passed over, a feed already queued is
      skipped, any other gets its follow-up (scheduleFollowup counts and logs). */
  function Visit(s: Settings, now: int, p: Pass, feed: Feed): Pass
    requires s.Valid()
  {
    if !Eligible(s, feed) then p
    else if feed.id in p.pending then p.(skipped := p.skipped + 1)
    else Pass(p.pending[feed.id := FollowupTime(s, feed, now)], p.stats.Count(RsshubQueued, now),
              p.scheduled + 1, p.skipped)
  }

  /** One visit keeps every queued entry, and adds at most the visited feed's own, due
      at its follow-up time, and only when the feed is eligible; an eligible feed is
      queued afterwards. */
  lemma VisitChanges(s: Settings, now: int, p: Pass, feed: Feed)
    requires s.Valid()
    ensures var r := Visit(s, now, p, feed);
      && (forall id :: id in p.pending ==> id in r.pending && r.pending[id] == p.pending[id])
      && (forall id :: id in r.pending && id !in p.pending ==>
            id == feed.id && Eligible(s, feed) && r.pending[id] == FollowupTime(s, feed, now))
      && (Eligible(s, feed) ==> feed.id in r.pending)
  {
  }

  /** The whole loop over feeds, in order, starting from `start`. */
  function Discover(s: Settings, now: int, start: Pass, feeds: seq<Feed>): Pass
    requires s.Valid()
    decreases |feeds|
  {
    if feeds == [] then start
    else Visit(s, now, Discover(s, now, start, feeds[..|feeds| - 1]), feeds[|feeds| - 1])
  }

  /** The pass over one more feed is one more Visit. */
  lemma DiscoverStep(s: Settings, now: int, start: Pass, feeds: seq<Feed>, i: nat)
    requires s.Valid() && i < |feeds|
    ensures Discover(s, now, start, feeds[..i + 1]) == Visit(s, now, Discover(s, now, start, feeds[..i]), feeds[i])
  {
    assert feeds[..i + 1][..i] == feeds[..i];
  }

  /** The number of eligible feeds in the listing (a feed listed twice counts twice). */
  function EligibleCount(s: Settings, feeds: seq<Feed>): nat
    decreases |feeds|
  {
    if feeds == [] then 0
    else EligibleCount(s, feeds[..|feeds| - 1]) + (if Eligible(s, feeds[|feeds| - 1]) then 1 else 0)
  }

  /** Discovery never changes or removes an entry that was already queued. */
  lemma {:induction false} DiscoverKeepsExisting(s: Settings, now: int, start: Pass, feeds: seq<Feed>)
    requires s.Valid()
    ensures var r := Discover(s, now, start, feeds);
      forall id :: id in start.pending ==> id in r.pending && r.pending[id] == start.pending[id]
    decreases |feeds|
  {
    if feeds != [] {
      DiscoverKeepsExisting(s, now, start, feeds[..|feeds| - 1]);
      VisitChanges(s, now, Discover(s, now, start, feeds[..|feeds| - 1]), feeds[|feeds| - 1]);
    }
  }

  /** After the pass every eligible feed of the listing has a queued follow-up. */
  lemma {:induction false} DiscoverCoversEligible(s: Settings, now: int, start: Pass, feeds: seq<Feed>)
    requires s.Valid()
    ensures var r := Discover(s, now, start, feeds);
      forall i :: 0 <= i < |feeds| && Eligible(s, feeds[i]) ==> feeds[i].id in r.pending
    decreases |feeds|
  {
    if feeds != [] {
      var init := feeds[..|feeds| - 1];
      DiscoverCoversEligible(s, now, start, init);
      var p := Discover(s, now, start, init);
      VisitChanges(s, now, p, feeds[|feeds| - 1]);
      forall i | 0 <= i < |feeds| - 1
        ensures feeds[i] == init[i]
      {
      }
    }
  }

  /** Every entry the pass adds belongs to an eligible listed feed, and is due at that
      feed's next refresh plus the delay. */
  lemma {:induction false} DiscoverAddsOnlyEligible(s: Settings, now: int, start: Pass, feeds: seq<Feed>)
    requires s.Valid()
    ensures var r := Discover(s, now, start, feeds);
      forall id :: id in r.pending && id !in start.pending ==>
        exists i :: 0 <= i < |feeds| && feeds[i].id == id && Eligible(s, feeds[i])
                    && r.pending[id] == FollowupTime(s, feeds[i], now)
    decreases |feeds|
  {
    if feeds != [] {
      var init := feeds[..|feeds| - 1];
      var last := feeds[|feeds| - 1];
      DiscoverAddsOnlyEligible(s, now, start, init);
      var p := Discover(s, now, start, init);
      var r := Visit(s, now, p, last);
      VisitChanges(s, now, p, last);
      forall id | id in r.pending && id !in start.pending
        ensures exists i :: 0 <= i < |feeds| && feeds[i].id == id && Eligible(s, feeds[i])
                            && r.pending[id] == FollowupTime(s, feeds[i], now)
      {
        if id in p.pending {
          var i :| 0 <= i < |init| && init[i].id == id && Eligible(s, init[i])
                   && p.pending[id] == FollowupTime(s, init[i], now);
          assert feeds[i] == init[i];
        } else {
          assert feeds[|feeds| - 1] == last;
        }
      }
    }
  }

  /** With a real clock every entry the pass adds falls due between now + delay and
      now + interval + delay. */
  lemma DiscoverDueTimes(s: Settings, now: int, start: Pass, feeds: seq<Feed>)
    requires s.Valid() && now > 0
    ensures var r := Discover(s, now, start, feeds);
      forall id :: id in r.pending && id !in start.pending ==>
        now + s.delay <= r.pending[id] <= now + s.interval + s.delay
  {
    var r := Discover(s, now, start, feeds);
    DiscoverAddsOnlyEligible(s, now, start, feeds);
    forall id | id in r.pending && id !in start.pending
      ensures now + s.delay <= r.pending[id] <= now + s.interval + s.delay
    {
      var i :| 0 <= i < |feeds| && feeds[i].id == id && Eligible(s, feeds[i])
               && r.pending[id] == FollowupTime(s, feeds[i], now);
    }
  }

  /** The tallies match the statistics: `scheduled` is the number of rsshub_queued
      counts; when it stays put, queue and statistics do too. */
  lemma {:induction false} DiscoverTallies(s: Settings, now: int, start: Pass, feeds: seq<Feed>)
    requires s.Valid()
    ensures var r := Discover(s, now, start, feeds);
      && r.scheduled >= start.scheduled
      && r.stats == start.stats.CountTimes(RsshubQueued, r.scheduled - start.scheduled, now)
      && (r.scheduled == start.scheduled ==> r.pending == start.pending && r.stats == start.stats)
    decreases |feeds|
  {
    if feeds != [] {
      var init := feeds[..|feeds| - 1];
      var last := feeds[|feeds| - 1];
      DiscoverTallies(s, now, start, init);
      var p := Discover(s, now, start, init);
      var r := Visit(s, now, p, last);
      VisitTallies(s, now, p, last);
      assert Discover(s, now, start, feeds) == r;
      if r.scheduled != p.scheduled {
        assert start.stats.CountTimes(RsshubQueued, r.scheduled - start.scheduled, now)
            == start.stats.CountTimes(RsshubQueued, p.scheduled - start.scheduled, now).Count(RsshubQueued, now);
      }
    }
  }

  /** `scheduled` is also the number of entries the pass added to the queue. */
  lemma {:induction false} DiscoverGrowsQueue(s: Settings, now: int, start: Pass, feeds: seq<Feed>)
    requires s.Valid()
    ensures var r := Discover(s, now, start, feeds);
      && r.scheduled >= start.scheduled
      && |r.pending| == |start.pending| + (r.scheduled - start.scheduled)
    decreases |feeds|
  {
    if feeds != [] {
      var init := feeds[..|feeds| - 1];
      DiscoverGrowsQueue(s, now, start, init);
      VisitTallies(s, now, Discover(s, now, start, init), feeds[|feeds| - 1]);
    }
  }

  /** Every eligible feed of the listing is either scheduled or skipped. */
  lemma {:induction false} DiscoverAccountsForEligible(s: Settings, now: int, start: Pass, feeds: seq<Feed>)
    requires s.Valid()
    ensures var r := Discover(s, now, start, feeds);
      r.scheduled + r.skipped == start.scheduled + start.skipped + EligibleCount(s, feeds)
    decreases |feeds|
  {
    if feeds != [] {
      var init := feeds[..|feeds| - 1];
      var last := feeds[|feeds| - 1];
      DiscoverAccountsForEligible(s, now, start, init);
      VisitTallies(s, now, Discover(s, now, start, init), last);
    }
  }

  /** One visit schedules at most one feed, and counts rsshub_queued once for it. */
  lemma VisitTallies(s: Settings, now: int, p: Pass, feed: Feed)
    requires s.Valid()
    ensures var r := Visit(s, now, p, feed);
      && r.scheduled + r.skipped == p.scheduled + p.skipped + (if Eligible(s, feed) then 1 else 0)
      && (r.scheduled == p.scheduled ==> r.pending == p.pending && r.stats == p.stats)
      && (r.scheduled != p.scheduled ==>
            && r.scheduled == p.scheduled + 1 && |r.pending| == |p.pending| + 1
            && r.stats == p.stats.Count(RsshubQueued, now))
  {
  }

  /** A pass over feeds whose eligible ones are all queued schedules nothing: queue,
      statistics and the scheduled tally stay as they were. */
  lemma {:induction false} NothingLeftToSchedule(s: Settings, now: int, start: Pass, feeds: seq<Feed>)
    requires s.Valid()
    requires forall i :: 0 <= i < |feeds| && Eligible(s, feeds[i]) ==> feeds[i].id in start.pending
    ensures var r := Discover(s, now, start, feeds);
      r.pending == start.pending && r.stats == start.stats && r.scheduled == start.scheduled
    decreases |feeds|
  {
    if feeds != [] {
      NothingLeftToSchedule(s, now, start, feeds[..|feeds| - 1]);
      assert feeds[|feeds| - 1].id in start.pending || !Eligible(s, feeds[|feeds| - 1]);
    }
  }

  /** Discovery is idempotent: running it again on the same listing right after
      schedules nothing more and changes nothing. */
  lemma DiscoverIdempotent(s: Settings, now: int, start: Pass, feeds: seq<Feed>)
    requires s.Valid()
    ensures var r := Discover(s, now, start, feeds);
      var again := Discover(s, now, r, feeds);
      again.pending == r.pending && again.stats == r.stats && again.scheduled == r.scheduled
  {
    DiscoverCoversEligible(s, now, start, feeds);
    NothingLeftToSchedule(s, now, Discover(s, now, start, feeds), feeds);
  }

  /** With real feed ids and a real clock the pass keeps the queue well formed. */
  lemma {:induction false} DiscoverKeepsWellFormed(s: Settings, now: int, start: Pass, feeds: seq<Feed>)
    requires s.Valid() && now > 0
    requires Followups.WellFormed(start.pending)
    requires forall i :: 0 <= i < |feeds| ==> feeds[i].id > 0
    ensures Followups.WellFormed(Discover(s, now, start, feeds).pending)
    decreases |feeds|
  {
    if feeds != [] {
      DiscoverKeepsWellFormed(s, now, start, feeds[..|feeds| - 1]);
      VisitChanges(s, now, Discover(s, now, start, feeds[..|feeds| - 1]), feeds[|feeds| - 1]);
    }
  }
}
