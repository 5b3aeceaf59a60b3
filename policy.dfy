/** DailySpread's per-feed gate as a value: what feed_before_actualize decides for one
    feed at one moment, given the loaded settings, the follow-up queue and the
    statistics. The class in module DailySpread performs the same steps in place. */
module Policy {
  import opened Common
  import opened Schedule
  import opened Stats
  import RssHubHosts
  import Followups

  /** The configuration snapshot initConfig leaves in the extension's fields. */
  datatype Settings = Settings(hash: SlotHash, interval: int, delay: int, hosts: seq<string>)
  {
    /** The clamps of initConfig: interval at least an hour, delay never negative. */
    predicate Valid()
    {
      interval >= MIN_INTERVAL_SECONDS && delay >= 0
    }
  }

  /** The feeds the extension manages: fetched at least once and on the default TTL.
      The hook hands every other feed straight back. */
  predicate Managed(feed: Feed)
  {
    feed.lastUpdate != 0 && feed.defaultTtl
  }

  /** A feed that gets follow-ups: default TTL and served by an RSSHub host. */
  predicate Eligible(s: Settings, feed: Feed)
  {
    feed.defaultTtl && RssHubHosts.IsRssHubFeed(s.hosts, feed)
  }

  /** The due time discovery gives a feed's follow-up: its next refresh plus the delay. */
  function FollowupTime(s: Settings, feed: Feed, now: int): (t: int)
    requires s.Valid()
    ensures now > 0 ==> now + s.delay <= t <= now + s.interval + s.delay
  {
    NextRefreshTime(s.hash, feed, now, s.interval) + s.delay
  }

  /** What one hook call leaves behind: whether the feed is fetched (the hook returns
      the feed rather than null), the queue, the statistics, and whether the queue
      was changed (and so marked dirty). */
  datatype Verdict = Verdict(fetch: bool, pending: map<int, int>, stats: StatsLog, touched: bool)

  /** feedBeforeActualizeHook, step by step: a due follow-up is cleared before its
      counter goes up, and each counter update is followed by logPeriodicStats. */
  function Hook(s: Settings, pending: map<int, int>, stats: StatsLog, feed: Feed, now: int): Verdict
    requires s.Valid()
  {
    if !Managed(feed) then Verdict(true, pending, stats, false)
    else if feed.id in pending then
      if now >= pending[feed.id] then
        Verdict(true, pending - {feed.id}, stats.Log(now, false).Count(RsshubFollowups, now), true)
      else
        Verdict(false, pending, stats.Count(RsshubSkipped, now), false)
    else
      var rss := RssHubHosts.IsRssHubFeed(s.hosts, feed);
      if !ShouldRunPrimary(s.hash, feed, now, s.interval) then
        Verdict(false, pending, stats.Count(if rss then RsshubSkipped else RegularSkipped, now), false)
      else
        var counted := stats.Incr(if rss then RsshubRefreshed else RegularRefreshed);
        if s.delay > 0 && rss then
          Verdict(true, pending[feed.id := now + s.delay], counted.Count(RsshubQueued, now).Log(now, false), true)
        else
          Verdict(true, pending, counted.Log(now, false), false)
  }

  /** The counter one hook call bumps for a managed feed. */
  function EventOf(s: Settings, pending: map<int, int>, feed: Feed, now: int): Counter
    requires s.Valid()
  {
    var rss := RssHubHosts.IsRssHubFeed(s.hosts, feed);
    if feed.id in pending then
      (if now >= pending[feed.id] then RsshubFollowups else RsshubSkipped)
    else if ShouldRunPrimary(s.hash, feed, now, s.interval) then
      (if rss then RsshubRefreshed else RegularRefreshed)
    else if rss then RsshubSkipped
    else RegularSkipped
  }

  // ---------------------------------------------------------------- the gate

  /** A feed that was never fetched, or that has its own TTL, is fetched with the queue
      and the counters left exactly as they were (the cold-start return comes even
      before the TTL test). */
  lemma UnmanagedPassesThrough(s: Settings, pending: map<int, int>, stats: StatsLog, feed: Feed, now: int)
    requires s.Valid()
    requires feed.lastUpdate == 0 || !feed.defaultTtl
    ensures Hook(s, pending, stats, feed, now) == Verdict(true, pending, stats, false)
  {
  }

  /** The hook lets a managed feed through exactly when its follow-up is due, or, when
      it has none queued, when its primary refresh is due. */
  lemma FetchExactlyWhenDue(s: Settings, pending: map<int, int>, stats: StatsLog, feed: Feed, now: int)
    requires s.Valid() && Managed(feed)
    ensures Hook(s, pending, stats, feed, now).fetch <==>
      if feed.id in pending then pending[feed.id] <= now
      else ShouldRunPrimary(s.hash, feed, now, s.interval)
  {
  }

  /** A queued follow-up that is not yet due suppresses the fetch and stays queued as
      it was; one that is due lets the fetch through and leaves the queue. */
  lemma QueuedFeedFollowsItsEntry(s: Settings, pending: map<int, int>, stats: StatsLog, feed: Feed, now: int)
    requires s.Valid() && Managed(feed) && feed.id in pending
    ensures var v := Hook(s, pending, stats, feed, now);
      && (now < pending[feed.id] ==> !v.fetch && v.pending == pending)
      && (now >= pending[feed.id] ==>
            && v.fetch && feed.id !in v.pending
            && forall id :: id != feed.id ==> (id in v.pending <==> id in pending))
  {
  }

  /** A suppressed fetch never changes the queue, and a primary refresh adds the one
      entry feedId -> now + delay exactly when follow-ups are on and the feed is an
      RSSHub feed. */
  lemma PrimaryRefreshQueuesOneFollowup(s: Settings, pending: map<int, int>, stats: StatsLog, feed: Feed, now: int)
    requires s.Valid() && Managed(feed) && feed.id !in pending
    ensures var v := Hook(s, pending, stats, feed, now);
      && (!v.fetch ==> v.pending == pending && !v.touched)
      && (v.fetch && s.delay > 0 && RssHubHosts.IsRssHubFeed(s.hosts, feed) ==>
            v.pending.Keys == pending.Keys + {feed.id} && v.pending[feed.id] == now + s.delay)
      && (v.fetch && !(s.delay > 0 && RssHubHosts.IsRssHubFeed(s.hosts, feed)) ==> v.pending == pending)
  {
  }

  /** No hook call ever rewrites the due time of an entry it keeps, and it touches no
      entry but the feed's own. */
  lemma HookNeverOverwrites(s: Settings, pending: map<int, int>, stats: StatsLog, feed: Feed, now: int)
    requires s.Valid()
    ensures var v := Hook(s, pending, stats, feed, now);
      && (forall id :: id in pending && id in v.pending ==> v.pending[id] == pending[id])
      && (forall id :: id != feed.id ==> (id in v.pending <==> id in pending))
      && (v.pending != pending ==> v.touched)
  {
  }

  /** The queue stays well formed: a real feed id and a real clock only ever add an
      entry with a positive id and due time. */
  lemma HookKeepsQueueWellFormed(s: Settings, pending: map<int, int>, stats: StatsLog, feed: Feed, now: int)
    requires s.Valid() && Followups.WellFormed(pending)
    requires feed.id > 0 && now > 0
    ensures Followups.WellFormed(Hook(s, pending, stats, feed, now).pending)
  {
  }

  // ---------------------------------------------------------------- the counters

  /** Within the hour after the last flush, a hook call on a managed feed adds one to
      exactly the counter of what happened, and one more to rsshub_queued when it
      queued a follow-up; nothing is flushed. */
  lemma HookCountsItsEvent(s: Settings, pending: map<int, int>, stats: StatsLog, feed: Feed, now: int)
    requires s.Valid() && Managed(feed)
    requires now - stats.lastLogTime < LOG_INTERVAL_SECONDS
    ensures var v := Hook(s, pending, stats, feed, now);
      var c := EventOf(s, pending, feed, now);
      && v.stats.lastLogTime == stats.lastLogTime
      && v.stats.counters == (if v.touched && c != RsshubFollowups
                              then stats.counters.Bump(c).Bump(RsshubQueued)
                              else stats.counters.Bump(c))
  {
  }

  /** However the flushes fall, one hook call stamps the statistics' time at most once,
      with the call's own time. */
  lemma HookFlushesAtMostOnce(s: Settings, pending: map<int, int>, stats: StatsLog, feed: Feed, now: int)
    requires s.Valid()
    ensures var t := Hook(s, pending, stats, feed, now).stats.lastLogTime;
      t == stats.lastLogTime || t == now
  {
  }

  // ---------------------------------------------------------------- a follow-up's life

  /** An RSSHub feed whose primary refresh runs at `now` (with follow-ups on) is held
      back by the hook until now + delay, fetched at or after it, and then leaves the
      queue, whatever the counters were meanwhile. */
  lemma {:induction false} FollowupCycle(s: Settings, pending: map<int, int>, stats: StatsLog, feed: Feed,
                                         now: int, stats2: StatsLog, later: int)
    requires s.Valid() && s.delay > 0 && Managed(feed)
    requires feed.id !in pending
    requires RssHubHosts.IsRssHubFeed(s.hosts, feed) && ShouldRunPrimary(s.hash, feed, now, s.interval)
    requires feed.lastUpdate != 0
    ensures var v := Hook(s, pending, stats, feed, now);
      var w := Hook(s, v.pending, stats2, feed, later);
      && v.fetch
      && (later < now + s.delay ==> !w.fetch && w.pending == v.pending)
      && (later >= now + s.delay ==> w.fetch && w.pending == pending)
  {
    var v := Hook(s, pending, stats, feed, now);
    assert v.pending == pending[feed.id := now + s.delay];
    assert v.pending - {feed.id} == pending;
  }

  /** describeRssHubStatus agrees with the hook: a feed's follow-up shows as ready exactly
      when one is queued and the hook would fetch the feed now, as completed exactly when
      none is queued, and as queued (with the entry's future due time) only while the
      hook holds the feed back and keeps the entry. */
  lemma StatusAgreesWithHook(s: Settings, pending: map<int, int>, stats: StatsLog, feed: Feed, now: int)
    requires s.Valid() && Managed(feed)
    ensures var status := Followups.DescribeRssHubStatus(pending, feed.id, now);
      var v := Hook(s, pending, stats, feed, now);
      && (status == Followups.ReadyNow <==> feed.id in pending && v.fetch)
      && (status == Followups.Completed <==> feed.id !in pending)
      && (status.QueuedFor? ==> !v.fetch && v.pending == pending && status.dueAt == pending[feed.id] > now)
  {
    if feed.id in pending {
      QueuedFeedFollowsItsEntry(s, pending, stats, feed, now);
    }
  }
}
