/** The DailySpread extension object: its configuration snapshot, the follow-up queue
    with its dirty flag, and the refresh statistics, together with the methods that
    change them in place. Each method is proved against the value-level definitions
    of modules Policy, Discovery, Followups and Stats. */
module DailySpread {
  import opened Common
  import opened Schedule
  import opened Stats
  import Text
  import RssHubHosts
  import Followups
  import opened Policy
  import Discovery

  const DEFAULT_HOST_INPUT := "rsshub.app"

  /** runPeriodicDiscovery runs at most once in this many seconds. */
  const DISCOVERY_INTERVAL_SECONDS := 3600

  /** The extension's five keys in the user configuration (None: the key is absent).
      The follow-up queue is stored with its keys and values already read as ints. */
  datatype UserConf = UserConf(
    interval: Option<int>,
    delay: Option<int>,
    hosts: Option<string>,
    queue: Option<map<int, int>>,
    lastDiscovery: Option<int>)

  /** The defaults initConfig writes for the keys that are missing (the last-discovery
      time has none). */
  function WithDefaults(c: UserConf): (d: UserConf)
    ensures d.interval.Some? && d.delay.Some? && d.hosts.Some? && d.queue.Some?
    ensures c.interval.Some? ==> d.interval == c.interval
    ensures c.delay.Some? ==> d.delay == c.delay
    ensures c.hosts.Some? ==> d.hosts == c.hosts
    ensures c.queue.Some? ==> d.queue == c.queue
    ensures c.interval.None? ==> d.interval == Some(DEFAULT_INTERVAL_SECONDS)
    ensures c.delay.None? ==> d.delay == Some(DEFAULT_FOLLOWUP_DELAY_SECONDS)
    ensures c.hosts.None? ==> d.hosts == Some(DEFAULT_HOST_INPUT)
    ensures c.queue.None? ==> d.queue == Some(map[])
    ensures d.lastDiscovery == c.lastDiscovery
  {
    UserConf(
      if c.interval.Some? then c.interval else Some(DEFAULT_INTERVAL_SECONDS),
      if c.delay.Some? then c.delay else Some(DEFAULT_FOLLOWUP_DELAY_SECONDS),
      if c.hosts.Some? then c.hosts else Some(DEFAULT_HOST_INPUT),
      if c.queue.Some? then c.queue else Some(map[]),
      c.lastDiscovery)
  }

  function Max(a: int, b: int): int
  {
    if a >= b then a else b
  }

  /** PHP's round($a / $b) for a non-negative a and an even positive b: the nearest
      integer, halves rounded up. */
  function RoundDiv(a: int, b: int): (r: int)
    requires a >= 0 && b > 0 && b % 2 == 0
    ensures r >= 0
    ensures r * b - b / 2 <= a < r * b + b / 2
  {
    (a + b / 2) / b
  }

  /** refreshIntervalHours: the interval in whole hours, at least 1. */
  function DisplayHours(interval: int): int
    requires interval >= 0
  {
    Max(1, RoundDiv(interval, 3600))
  }

  /** rsshubFollowupMinutes: 0 when follow-ups are off, otherwise whole minutes, at least 1. */
  function DisplayMinutes(delay: int): int
    requires delay >= 0
  {
    if delay == 0 then 0 else Max(1, RoundDiv(delay, 60))
  }

  /** The form's values survive a save and reload: hours stored as seconds display as
      the same hours, minutes as the same minutes. */
  lemma DisplayRoundTrip(hours: int, minutes: int)
    requires hours >= 1 && minutes >= 1
    ensures DisplayHours(hours * 3600) == hours
    ensures DisplayMinutes(minutes * 60) == minutes
  {
    var h := RoundDiv(hours * 3600, 3600);
    if h < hours {
      MulMonotone(h + 1, hours, 3600);
    } else if h > hours {
      MulMonotone(hours + 1, h, 3600);
    }
    var m := RoundDiv(minutes * 60, 60);
    if m < minutes {
      MulMonotone(m + 1, minutes, 60);
    } else if m > minutes {
      MulMonotone(minutes + 1, m, 60);
    }
  }

  /** runPeriodicDiscovery's throttle: an hour since the stored last run (0 if none). */
  predicate DiscoveryDue(lastDiscovery: Option<int>, now: int)
  {
    now - lastDiscovery.GetOr(0) >= DISCOVERY_INTERVAL_SECONDS
  }

  /** What runPeriodicDiscovery reads and writes: the stored time of the last run, the
      follow-up queue and the statistics. */
  datatype DiscoveryState = DiscoveryState(lastDiscovery: Option<int>, pending: map<int, int>, stats: StatsLog)

  /** runPeriodicDiscovery as a value: nothing happens while follow-ups are off or the
      last run is less than an hour old; otherwise discovery runs over the listing (a
      failed listing schedules nothing) and `now` is stored as the last run. */
  function PeriodicDiscovery(s: Settings, st: DiscoveryState, feeds: Option<seq<Feed>>, now: int): DiscoveryState
    requires s.Valid()
  {
    if s.delay <= 0 || s.hosts == [] || !DiscoveryDue(st.lastDiscovery, now) then st
    else if feeds.None? then st.(lastDiscovery := Some(now))
    else
      var r := Discovery.Discover(s, now, Discovery.Pass(st.pending, st.stats, 0, 0), feeds.value);
      DiscoveryState(Some(now), r.pending, r.stats)
  }

  /** The throttle over two consecutive calls: once discovery ran at `now`, a call less
      than an hour later changes nothing, whatever the listing, and a call an hour or
      more later runs again. */
  lemma DiscoveryThrottled(s: Settings, st: DiscoveryState, feeds: Option<seq<Feed>>, now: int,
                           feeds2: Option<seq<Feed>>, later: int)
    requires s.Valid() && s.delay > 0 && s.hosts != [] && DiscoveryDue(st.lastDiscovery, now)
    ensures var st1 := PeriodicDiscovery(s, st, feeds, now);
      && st1.lastDiscovery == Some(now)
      && (later < now + DISCOVERY_INTERVAL_SECONDS ==> PeriodicDiscovery(s, st1, feeds2, later) == st1)
      && (later >= now + DISCOVERY_INTERVAL_SECONDS ==>
            PeriodicDiscovery(s, st1, feeds2, later).lastDiscovery == Some(later))
  {
  }

  /** The queue initConfig loads from configuration c: the stored queue sanitized, then
      pruned. */
  function LoadedQueue(c: UserConf, now: int, interval: int): map<int, int>
  {
    Followups.Pruned(Followups.Sanitized(c.queue), Followups.PruneThreshold(now, interval))
  }

  /** The configuration initConfig leaves: the pruned queue is written back only when
      pruning removed something. */
  function PrunedConf(c: UserConf, now: int, interval: int): UserConf
  {
    var q := LoadedQueue(c, now, interval);
    if q == Followups.Sanitized(c.queue) then c else c.(queue := Some(q))
  }

  class DailySpreadExtension {
    /** crc32 and the system salt, used to place feeds in their slots. */
    const hash: SlotHash
    /** parse_url(..., PHP_URL_HOST), used when parsing the host list. */
    const parseHost: HostParser

    /** The user configuration the extension reads and writes. */
    var conf: UserConf

    var intervalSeconds: int
    var followupDelaySeconds: int
    var hostInput: string
    var hosts: seq<string>
    var refreshIntervalHours: int
    var followupMinutes: int

    var pendingFollowups: map<int, int>
    var dirty: bool

    /** The static counters and last flush time, shared by the hook calls of one process. */
    var stats: StatsLog

    /** The loaded settings the hook and discovery read. */
    function Settings(): Settings
      reads this
    {
      Policy.Settings(hash, intervalSeconds, followupDelaySeconds, hosts)
    }

    /** All fields that only initConfig writes. */
    function Loaded(): (int, int, string, seq<string>, int, int)
      reads this
    {
      (intervalSeconds, followupDelaySeconds, hostInput, hosts, refreshIntervalHours, followupMinutes)
    }

    predicate Valid()
      reads this
    {
      Settings().Valid()
    }

    /** The queue holds positive ids and due times, and while it is not dirty, reloading
        it from configuration gives back exactly what is in memory. */
    predicate Consistent()
      reads this
    {
      Followups.WellFormed(pendingFollowups)
      && (!dirty ==> Followups.Sanitized(conf.queue) == pendingFollowups)
    }

    /** Discovery has work only when follow-ups are on and some host is configured. */
    predicate DiscoveryOn()
      reads this
    {
      followupDelaySeconds > 0 && hosts != []
    }

    /** init(): load the configuration, then run the throttled discovery. `feeds` is the
        feed listing (None when listing fails) and `now` the clock. */
    constructor (hash: SlotHash, parseHost: HostParser, conf: UserConf, feeds: Option<seq<Feed>>, now: int)
      ensures Valid()
      ensures this.hash == hash && this.parseHost == parseHost
      ensures intervalSeconds == Max(MIN_INTERVAL_SECONDS, WithDefaults(conf).interval.value)
      ensures followupDelaySeconds == Max(0, WithDefaults(conf).delay.value)
      ensures hosts == RssHubHosts.HostList(WithDefaults(conf).hosts.value, parseHost)
      ensures var c := WithDefaults(conf);
        var q := LoadedQueue(c, now, intervalSeconds);
        var d := PeriodicDiscovery(Settings(), DiscoveryState(c.lastDiscovery, q, StatsLog(Zero, 0)), feeds, now);
        && this.conf == PrunedConf(c, now, intervalSeconds).(lastDiscovery := d.lastDiscovery)
        && pendingFollowups == d.pending && stats == d.stats
        && dirty == (pendingFollowups != q)
      ensures now > 0 && (feeds.Some? ==> forall i :: 0 <= i < |feeds.value| ==> feeds.value[i].id > 0)
              ==> Consistent()
    {
      this.hash := hash;
      this.parseHost := parseHost;
      this.conf := conf;
      intervalSeconds := DEFAULT_INTERVAL_SECONDS;
      followupDelaySeconds := DEFAULT_FOLLOWUP_DELAY_SECONDS;
      hostInput := DEFAULT_HOST_INPUT;
      hosts := [];
      refreshIntervalHours := 24;
      followupMinutes := 10;
      pendingFollowups := map[];
      dirty := false;
      stats := StatsLog(Zero, 0);
      new;
      InitConfig(now);
      RunPeriodicDiscovery(feeds, now);
    }

    /** initConfig: write the defaults of missing keys, then load the clamped interval
        and delay, the host list, and the sanitized and pruned queue. */
    method InitConfig(now: int)
      modifies this
      ensures Valid() && Consistent() && !dirty
      ensures var c := WithDefaults(old(conf));
        && intervalSeconds == Max(MIN_INTERVAL_SECONDS, c.interval.value)
        && followupDelaySeconds == Max(0, c.delay.value)
        && hostInput == c.hosts.value
        && hosts == RssHubHosts.HostList(hostInput, parseHost)
        && refreshIntervalHours == DisplayHours(intervalSeconds)
        && followupMinutes == DisplayMinutes(followupDelaySeconds)
        && pendingFollowups == LoadedQueue(c, now, intervalSeconds)
        && conf == PrunedConf(c, now, intervalSeconds)
      ensures stats == old(stats)
    {
      var _ := WriteDefaults();
      LoadSettings();
      LoadHosts();
      LoadQueue(now);
    }

    /** The first half of initConfig: every missing key gets its default; the result
        says whether any was missing, which is when the configuration is saved. */
    method WriteDefaults() returns (needsSave: bool)
      modifies this
      ensures conf == WithDefaults(old(conf))
      ensures needsSave <==> old(conf.interval.None? || conf.hosts.None? || conf.delay.None? || conf.queue.None?)
      ensures Loaded() == old(Loaded()) && pendingFollowups == old(pendingFollowups)
      ensures dirty == old(dirty) && stats == old(stats)
    {
      needsSave := false;
      if conf.interval.None? {
        conf := conf.(interval := Some(DEFAULT_INTERVAL_SECONDS));
        needsSave := true;
      }
      if conf.hosts.None? {
        conf := conf.(hosts := Some(DEFAULT_HOST_INPUT));
        needsSave := true;
      }
      if conf.delay.None? {
        conf := conf.(delay := Some(DEFAULT_FOLLOWUP_DELAY_SECONDS));
        needsSave := true;
      }
      if conf.queue.None? {
        conf := conf.(queue := Some(map[]));
        needsSave := true;
      }
    }

    /** The settings half of initConfig: clamp the interval and the delay, read the
        host text (the default when the key holds nothing), and set the values the form
        displays. */
    method LoadSettings()
      modifies this
      ensures Valid()
      ensures intervalSeconds == Max(MIN_INTERVAL_SECONDS, conf.interval.GetOr(0))
      ensures followupDelaySeconds == Max(0, conf.delay.GetOr(0))
      ensures hostInput == conf.hosts.GetOr(DEFAULT_HOST_INPUT)
      ensures refreshIntervalHours == DisplayHours(intervalSeconds)
      ensures followupMinutes == DisplayMinutes(followupDelaySeconds)
      ensures hosts == old(hosts)
      ensures conf == old(conf) && pendingFollowups == old(pendingFollowups)
      ensures dirty == old(dirty) && stats == old(stats)
    {
      intervalSeconds := Max(MIN_INTERVAL_SECONDS, conf.interval.GetOr(0));
      followupDelaySeconds := Max(0, conf.delay.GetOr(0));
      hostInput := conf.hosts.GetOr(DEFAULT_HOST_INPUT);
      refreshIntervalHours := DisplayHours(intervalSeconds);
      followupMinutes := DisplayMinutes(followupDelaySeconds);
    }

    /** $this->rsshubHosts = $this->parseHosts($this->rsshubHostInput) */
    method LoadHosts()
      modifies this
      ensures hosts == RssHubHosts.HostList(hostInput, parseHost)
      ensures intervalSeconds == old(intervalSeconds) && followupDelaySeconds == old(followupDelaySeconds)
      ensures hostInput == old(hostInput) && refreshIntervalHours == old(refreshIntervalHours)
      ensures followupMinutes == old(followupMinutes)
      ensures conf == old(conf) && pendingFollowups == old(pendingFollowups)
      ensures dirty == old(dirty) && stats == old(stats)
    {
      hosts := RssHubHosts.ParseHosts(hostInput, parseHost);
    }

    /** The queue half of initConfig: read the stored queue back, sanitized, mark it
        clean, and prune what is stale (which saves the queue when anything went). */
    method LoadQueue(now: int)
      modifies this
      ensures Consistent() && !dirty
      ensures Loaded() == old(Loaded()) && stats == old(stats)
      ensures var sanitized := Followups.Sanitized(old(conf).queue);
        && pendingFollowups == Followups.Pruned(sanitized, Followups.PruneThreshold(now, intervalSeconds))
        && conf == (if pendingFollowups == sanitized then old(conf)
                    else old(conf).(queue := Some(pendingFollowups)))
    {
      pendingFollowups := Followups.SanitizePendingFollowups(conf.queue);
      dirty := false;
      ghost var sanitized := pendingFollowups;
      var removed := PruneOutdatedFollowups(now);
      if removed > 0 {
        assert |pendingFollowups| < |sanitized|;
        Followups.SanitizedRoundTrip(pendingFollowups);
      }
    }

    /** handleConfigureAction for a POST: store the clamped form values, reload the
        configuration, and run discovery when follow-ups are on and hosts are set. */
    method HandleConfigureAction(hoursParam: int, minutesParam: int, hostsParam: string,
                                 feeds: Option<seq<Feed>>, now: int)
      modifies this
      ensures Valid()
      ensures var hours := Max(1, hoursParam);
        var minutes := Max(1, minutesParam);
        && intervalSeconds == hours * 3600 && refreshIntervalHours == hours
        && followupDelaySeconds == minutes * 60 && followupMinutes == minutes
        && hostInput == Text.Trim(hostsParam)
        && hosts == RssHubHosts.HostList(Text.Trim(hostsParam), parseHost)
      ensures conf.interval == Some(intervalSeconds) && conf.delay == Some(followupDelaySeconds)
      ensures conf.hosts == Some(hostInput)
      ensures var c := WithDefaults(old(conf).(interval := Some(Max(1, hoursParam) * 3600),
                                               delay := Some(Max(1, minutesParam) * 60),
                                               hosts := Some(Text.Trim(hostsParam))));
        var q := LoadedQueue(c, now, intervalSeconds);
        && conf == PrunedConf(c, now, intervalSeconds)
        && (DiscoveryOn() && feeds.Some? ==>
              var r := Discovery.Discover(Settings(), now, Discovery.Pass(q, old(stats), 0, 0), feeds.value);
              pendingFollowups == r.pending && stats == r.stats)
        && (!(DiscoveryOn() && feeds.Some?) ==> pendingFollowups == q && stats == old(stats))
        && dirty == (pendingFollowups != q)
      ensures now > 0 && (feeds.Some? ==> forall i :: 0 <= i < |feeds.value| ==> feeds.value[i].id > 0)
              ==> Consistent()
    {
      var hours := Max(1, hoursParam);
      var minutes := Max(1, minutesParam);
      var hostText := Text.Trim(hostsParam);
      conf := conf.(interval := Some(hours * 3600), delay := Some(minutes * 60), hosts := Some(hostText));
      ghost var c := WithDefaults(conf);
      InitConfig(now);
      ghost var q := pendingFollowups;
      assert q == LoadedQueue(c, now, intervalSeconds);
      DisplayRoundTrip(hours, minutes);
      if followupDelaySeconds > 0 && hosts != [] {
        var scheduled, skipped := DiscoverAndScheduleFollowups(feeds, now);
      }
    }

    /** runPeriodicDiscovery: when follow-ups are on and an hour has passed since the
        stored last run, run discovery and store `now` as the last run (also when the
        listing fails). */
    method RunPeriodicDiscovery(feeds: Option<seq<Feed>>, now: int)
      requires Valid()
      modifies this
      ensures Valid() && Loaded() == old(Loaded())
      ensures var d := PeriodicDiscovery(old(Settings()),
                                         DiscoveryState(old(conf).lastDiscovery, old(pendingFollowups), old(stats)),
                                         feeds, now);
        && conf == old(conf).(lastDiscovery := d.lastDiscovery)
        && pendingFollowups == d.pending && stats == d.stats
      ensures dirty == (old(dirty) || pendingFollowups != old(pendingFollowups))
      ensures old(Consistent()) && now > 0 && (feeds.Some? ==> forall i :: 0 <= i < |feeds.value| ==> feeds.value[i].id > 0)
              ==> Consistent()
    {
      if followupDelaySeconds <= 0 || hosts == [] {
        return;
      }
      var lastDiscovery := conf.lastDiscovery.GetOr(0);
      if now - lastDiscovery >= DISCOVERY_INTERVAL_SECONDS {
        var scheduled, skipped := DiscoverAndScheduleFollowups(feeds, now);
        conf := conf.(lastDiscovery := Some(now));
      }
    }

    /** discoverAndScheduleRssHubFollowups: for every listed feed on the default TTL served
        by an RSSHub host, schedule a follow-up at its next refresh plus the delay unless
        one is queued. A failed listing (None) changes nothing. */
    method DiscoverAndScheduleFollowups(feeds: Option<seq<Feed>>, now: int) returns (scheduled: nat, skipped: nat)
      requires Valid()
      modifies this
      ensures Valid() && Loaded() == old(Loaded()) && conf == old(conf)
      ensures old(DiscoveryOn()) && feeds.Some? ==>
        var r := Discovery.Discover(old(Settings()), now,
                                    Discovery.Pass(old(pendingFollowups), old(stats), 0, 0), feeds.value);
        && pendingFollowups == r.pending && stats == r.stats
        && scheduled == r.scheduled && skipped == r.skipped
      ensures !(old(DiscoveryOn()) && feeds.Some?) ==>
        pendingFollowups == old(pendingFollowups) && stats == old(stats) && scheduled == 0 && skipped == 0
      ensures dirty == (old(dirty) || scheduled > 0)
      ensures scheduled > 0 <==> pendingFollowups != old(pendingFollowups)
      ensures old(Consistent()) && now > 0 && (feeds.Some? ==> forall i :: 0 <= i < |feeds.value| ==> feeds.value[i].id > 0)
              ==> Consistent()
    {
      scheduled, skipped := 0, 0;
      if followupDelaySeconds <= 0 || hosts == [] {
        return;
      }
      if feeds.None? {
        return;
      }
      var list := feeds.value;
      ghost var settings := Settings();
      ghost var start := Discovery.Pass(pendingFollowups, stats, 0, 0);
      ghost var consistent := Consistent();
      scheduled, skipped := ScheduleListed(list, now);
      Discovery.DiscoverTallies(settings, now, start, list);
      Discovery.DiscoverGrowsQueue(settings, now, start, list);
      if consistent && now > 0 && forall k :: 0 <= k < |list| ==> list[k].id > 0 {
        Discovery.DiscoverKeepsWellFormed(settings, now, start, list);
      }
    }

    /** The foreach of discoverAndScheduleRssHubFollowups over a listing. */
    method ScheduleListed(list: seq<Feed>, now: int) returns (scheduled: nat, skipped: nat)
      requires Valid()
      modifies this
      ensures Valid() && Loaded() == old(Loaded()) && conf == old(conf)
      ensures var r := Discovery.Discover(old(Settings()), now,
                                          Discovery.Pass(old(pendingFollowups), old(stats), 0, 0), list);
        && pendingFollowups == r.pending && stats == r.stats
        && scheduled == r.scheduled && skipped == r.skipped
      ensures dirty == (old(dirty) || scheduled > 0)
    {
      scheduled, skipped := 0, 0;
      ghost var settings := Settings();
      ghost var start := Discovery.Pass(pendingFollowups, stats, 0, 0);
      var i := 0;
      while i < |list|
        invariant 0 <= i <= |list|
        invariant Valid() && Loaded() == old(Loaded()) && conf == old(conf)
        invariant Settings() == settings
        invariant Discovery.Discover(settings, now, start, list[..i])
                  == Discovery.Pass(pendingFollowups, stats, scheduled, skipped)
        invariant dirty == (old(dirty) || scheduled > 0)
      {
        Discovery.DiscoverStep(settings, now, start, list, i);
        scheduled, skipped := VisitFeed(list[i], now, scheduled, skipped);
        i := i + 1;
      }
      assert list[..|list|] == list;
    }

    /** One turn of the discovery loop: an eligible feed is counted as skipped when it
        already has an entry and is queued otherwise. */
    method VisitFeed(feed: Feed, now: int, scheduledBefore: nat, skippedBefore: nat)
      returns (scheduled: nat, skipped: nat)
      requires Valid()
      modifies this
      ensures Valid() && Loaded() == old(Loaded()) && conf == old(conf) && Settings() == old(Settings())
      ensures Discovery.Pass(pendingFollowups, stats, scheduled, skipped)
              == Discovery.Visit(old(Settings()), now,
                                 Discovery.Pass(old(pendingFollowups), old(stats), scheduledBefore, skippedBefore), feed)
      ensures dirty == (old(dirty) || scheduled > scheduledBefore)
      ensures scheduled >= scheduledBefore
    {
      scheduled, skipped := scheduledBefore, skippedBefore;
      ghost var settings := Settings();
      if feed.defaultTtl && RssHubHosts.IsRssHubFeed(hosts, feed) {
        assert Eligible(settings, feed);
        if feed.id in pendingFollowups {
          skipped := skipped + 1;
        } else {
          var nextRefreshTime := NextRefreshTime(hash, feed, now, intervalSeconds);
          var followupTime := nextRefreshTime + followupDelaySeconds;
          assert followupTime == FollowupTime(settings, feed, now);
          ScheduleFollowup(feed.id, followupTime, false, now);
          scheduled := scheduled + 1;
        }
      } else {
        assert !Eligible(settings, feed);
      }
    }

    /** feedBeforeActualizeHook: the feed when it may be fetched now, None when the
        fetch is suppressed; queue, dirty flag and statistics change as Policy.Hook says. */
    method FeedBeforeActualize(feed: Feed, now: int) returns (r: Option<Feed>)
      requires Valid()
      modifies this
      ensures Valid() && Loaded() == old(Loaded()) && conf == old(conf)
      ensures var v := Hook(old(Settings()), old(pendingFollowups), old(stats), feed, now);
        && r == (if v.fetch then Some(feed) else None)
        && pendingFollowups == v.pending && stats == v.stats
        && dirty == (old(dirty) || v.touched)
      ensures old(Consistent()) && feed.id > 0 && now > 0 ==> Consistent()
    {
      ghost var before := Consistent();
      ghost var settings := Settings();
      ghost var q0, st0 := pendingFollowups, stats;
      HookNeverOverwrites(settings, q0, st0, feed, now);
      if before && feed.id > 0 && now > 0 {
        HookKeepsQueueWellFormed(settings, q0, st0, feed, now);
      }
      if feed.lastUpdate == 0 {
        return Some(feed);
      }
      if !feed.defaultTtl {
        return Some(feed);
      }
      var fetch: bool;
      if feed.id in pendingFollowups {
        fetch := GateQueuedFeed(feed, now);
      } else {
        fetch := GateBySlot(feed, now);
      }
      r := if fetch then Some(feed) else None;
    }

    /** The hook for a managed feed with a queued follow-up: run it when due (clearing
        the entry first), otherwise skip the feed until it is. */
    method GateQueuedFeed(feed: Feed, now: int) returns (fetch: bool)
      requires Valid() && Managed(feed) && feed.id in pendingFollowups
      modifies this
      ensures Valid() && Loaded() == old(Loaded()) && conf == old(conf)
      ensures var v := Hook(old(Settings()), old(pendingFollowups), old(stats), feed, now);
        && fetch == v.fetch && pendingFollowups == v.pending && stats == v.stats
        && dirty == (old(dirty) || v.touched)
    {
      var dueAt := pendingFollowups[feed.id];
      if now >= dueAt {
        ClearFollowup(feed.id, false, now);
        stats := stats.Incr(RsshubFollowups);
        var _ := LogPeriodicStats(now, false);
        return true;
      }
      stats := stats.Incr(RsshubSkipped);
      var _ := LogPeriodicStats(now, false);
      return false;
    }

    /** The hook for a managed feed with nothing queued: skip it outside its slot; in
        its slot let it through, and queue a follow-up for an RSSHub feed when
        follow-ups are on. */
    method GateBySlot(feed: Feed, now: int) returns (fetch: bool)
      requires Valid() && Managed(feed) && feed.id !in pendingFollowups
      modifies this
      ensures Valid() && Loaded() == old(Loaded()) && conf == old(conf)
      ensures var v := Hook(old(Settings()), old(pendingFollowups), old(stats), feed, now);
        && fetch == v.fetch && pendingFollowups == v.pending && stats == v.stats
        && dirty == (old(dirty) || v.touched)
    {
      var isRssHub := RssHubHosts.IsRssHubFeed(hosts, feed);
      if !ShouldRunPrimary(hash, feed, now, intervalSeconds) {
        if isRssHub {
          stats := stats.Incr(RsshubSkipped);
        } else {
          stats := stats.Incr(RegularSkipped);
        }
        var _ := LogPeriodicStats(now, false);
        return false;
      }
      if isRssHub {
        stats := stats.Incr(RsshubRefreshed);
      } else {
        stats := stats.Incr(RegularRefreshed);
      }
      if followupDelaySeconds > 0 && isRssHub {
        if feed.id !in pendingFollowups {
          ScheduleFollowup(feed.id, now + followupDelaySeconds, false, now);
        }
      }
      var _ := LogPeriodicStats(now, false);
      return true;
    }

    /** scheduleFollowup: queue (or requeue) a feed at `timestamp`, mark the queue dirty,
        save it at once when asked, then count rsshub_queued and log. */
    method ScheduleFollowup(feedId: int, timestamp: int, saveImmediately: bool, now: int)
      modifies this
      ensures Loaded() == old(Loaded())
      ensures pendingFollowups == old(pendingFollowups)[feedId := timestamp]
      ensures stats == old(stats).Count(RsshubQueued, now)
      ensures saveImmediately ==> conf == old(conf).(queue := Some(pendingFollowups)) && !dirty
      ensures !saveImmediately ==> conf == old(conf) && dirty
    {
      pendingFollowups := pendingFollowups[feedId := timestamp];
      dirty := true;
      if saveImmediately {
        PersistPendingFollowups(true);
      }
      stats := stats.Incr(RsshubQueued);
      var _ := LogPeriodicStats(now, false);
    }

    /** clearFollowup: nothing for a feed that is not queued; otherwise drop its entry,
        mark the queue dirty, save it at once when asked, and log. */
    method ClearFollowup(feedId: int, saveImmediately: bool, now: int)
      modifies this
      ensures Loaded() == old(Loaded())
      ensures feedId !in old(pendingFollowups) ==>
        pendingFollowups == old(pendingFollowups) && stats == old(stats)
        && conf == old(conf) && dirty == old(dirty)
      ensures feedId in old(pendingFollowups) ==>
        && pendingFollowups == old(pendingFollowups) - {feedId}
        && stats == old(stats).Log(now, false)
        && (saveImmediately ==> conf == old(conf).(queue := Some(pendingFollowups)) && !dirty)
        && (!saveImmediately ==> conf == old(conf) && dirty)
    {
      if feedId !in pendingFollowups {
        return;
      }
      pendingFollowups := pendingFollowups - {feedId};
      dirty := true;
      if saveImmediately {
        PersistPendingFollowups(true);
      }
      var _ := LogPeriodicStats(now, false);
    }

    /** pruneOutdatedFollowups: drop every entry due more than two intervals ago; when any
        was dropped, persist the queue. Returns how many were removed. */
    method PruneOutdatedFollowups(now: int) returns (removed: nat)
      modifies this
      ensures Loaded() == old(Loaded()) && stats == old(stats)
      ensures var threshold := Followups.PruneThreshold(now, intervalSeconds);
        && pendingFollowups == Followups.Pruned(old(pendingFollowups), threshold)
        && removed == |Followups.StaleIds(old(pendingFollowups), threshold)|
        && removed == |old(pendingFollowups)| - |pendingFollowups|
      ensures removed > 0 ==> conf == old(conf).(queue := Some(pendingFollowups)) && !dirty
      ensures removed == 0 ==> conf == old(conf) && dirty == old(dirty) && pendingFollowups == old(pendingFollowups)
    {
      ghost var q0 := pendingFollowups;
      if pendingFollowups == map[] {
        assert Followups.StaleIds(q0, Followups.PruneThreshold(now, intervalSeconds)) == {};
        return 0;
      }
      var threshold := now - 2 * intervalSeconds;
      var initialCount := |pendingFollowups|;
      var updated := DropStale(threshold);
      Followups.PrunedCount(q0, threshold);
      if updated {
        dirty := true;
        PersistPendingFollowups(true);
        removed := initialCount - |pendingFollowups|;
      } else {
        assert forall id :: id in q0 ==> id !in Followups.StaleIds(q0, threshold);
        assert pendingFollowups == q0;
        removed := 0;
      }
    }

    /** The foreach of pruneOutdatedFollowups: unset every entry due before the
        threshold; the result says whether any was. */
    method DropStale(threshold: int) returns (updated: bool)
      modifies this
      ensures pendingFollowups == Followups.Pruned(old(pendingFollowups), threshold)
      ensures updated <==> Followups.StaleIds(old(pendingFollowups), threshold) != {}
      ensures Loaded() == old(Loaded()) && stats == old(stats) && conf == old(conf) && dirty == old(dirty)
    {
      ghost var q0 := pendingFollowups;
      updated := false;
      var rest := pendingFollowups.Keys;
      while rest != {}
        invariant rest <= q0.Keys
        invariant pendingFollowups == map id | id in q0 && (id in rest || q0[id] >= threshold) :: q0[id]
        invariant updated <==> exists id :: id in q0 && id !in rest && q0[id] < threshold
        invariant Loaded() == old(Loaded()) && stats == old(stats) && conf == old(conf) && dirty == old(dirty)
        decreases rest
      {
        Followups.HasMember(rest);
        var feedId :| feedId in rest;
        if pendingFollowups[feedId] < threshold {
          pendingFollowups := pendingFollowups - {feedId};
          updated := true;
        }
        rest := rest - {feedId};
      }
      assert pendingFollowups == Followups.Pruned(q0, threshold);
      if updated {
        ghost var id :| id in q0 && q0[id] < threshold;
        assert id in Followups.StaleIds(q0, threshold);
      } else {
        Followups.EmptyWhenNoMember(Followups.StaleIds(q0, threshold));
      }
    }

    /** persistPendingFollowups: unless nothing forces it and the queue is clean, write
        the queue to configuration and mark it clean. */
    method PersistPendingFollowups(force: bool)
      modifies this
      ensures Loaded() == old(Loaded()) && pendingFollowups == old(pendingFollowups) && stats == old(stats)
      ensures force || old(dirty) ==> conf == old(conf).(queue := Some(pendingFollowups)) && !dirty
      ensures !(force || old(dirty)) ==> conf == old(conf) && !dirty
      ensures Followups.WellFormed(pendingFollowups) && (force || old(dirty) || old(Consistent())) ==> Consistent()
    {
      if !force && !dirty {
        return;
      }
      conf := conf.(queue := Some(pendingFollowups));
      dirty := false;
      if Followups.WellFormed(pendingFollowups) {
        Followups.SanitizedRoundTrip(pendingFollowups);
      }
    }

    /** shutdownSave: persist the queue if it is dirty. Afterwards it is clean, and what
        configuration holds reloads as exactly the queue in memory. */
    method ShutdownSave()
      modifies this
      ensures Loaded() == old(Loaded()) && pendingFollowups == old(pendingFollowups) && stats == old(stats)
      ensures !dirty
      ensures conf == if old(dirty) then old(conf).(queue := Some(pendingFollowups)) else old(conf)
      ensures old(Consistent()) ==> Consistent() && Followups.Sanitized(conf.queue) == pendingFollowups
    {
      if dirty {
        PersistPendingFollowups(true);
      }
    }

    /** logAggregatedStats: the forced flush registered for shutdown. */
    method LogAggregatedStats(now: int) returns (summary: seq<(Counter, nat)>)
      modifies this
      ensures Loaded() == old(Loaded()) && pendingFollowups == old(pendingFollowups)
      ensures conf == old(conf) && dirty == old(dirty)
      ensures stats == old(stats).Log(now, true)
      ensures old(stats).counters.Total() != 0 ==> stats.counters == Zero && summary != []
    {
      summary := LogPeriodicStats(now, true);
      SummaryNamesNonZeroCounters(old(stats).counters);
    }

    /** logPeriodicStats: when forced or an hour after the last flush, and some counter
        is non-zero, return the summary of the non-zero counters, reset all six and stamp
        the time; otherwise change nothing and return no summary. */
    method LogPeriodicStats(now: int, force: bool) returns (summary: seq<(Counter, nat)>)
      modifies this
      ensures Loaded() == old(Loaded()) && pendingFollowups == old(pendingFollowups)
      ensures conf == old(conf) && dirty == old(dirty)
      ensures stats == old(stats).Log(now, force)
      ensures summary == if old(stats).FlushDue(now, force) then NonZero(SummaryItems(old(stats).counters)) else []
    {
      summary := [];
      var timeSinceLastLog := now - stats.lastLogTime;
      if !force && timeSinceLastLog < LOG_INTERVAL_SECONDS {
        return;
      }
      var total := stats.counters.Total();
      if total == 0 {
        return;
      }
      summary := SummaryMessages(stats.counters);
      stats := StatsLog(Zero, now);
    }
  }

  /** The messages of logPeriodicStats: one per non-zero counter, in the order of the
      log line; what each message says is left out. */
  method SummaryMessages(c: FeedStats) returns (messages: seq<(Counter, nat)>)
    ensures messages == NonZero(SummaryItems(c))
  {
    messages := [];
    if c.regularSkipped > 0 {
      messages := messages + [(RegularSkipped, c.regularSkipped)];
    }
    ghost var expected := Entry(RegularSkipped, c.regularSkipped);
    assert messages == expected;
    if c.regularRefreshed > 0 {
      messages := messages + [(RegularRefreshed, c.regularRefreshed)];
    }
    expected := expected + Entry(RegularRefreshed, c.regularRefreshed);
    assert messages == expected;
    if c.rsshubSkipped > 0 {
      messages := messages + [(RsshubSkipped, c.rsshubSkipped)];
    }
    expected := expected + Entry(RsshubSkipped, c.rsshubSkipped);
    assert messages == expected;
    if c.rsshubRefreshed > 0 {
      messages := messages + [(RsshubRefreshed, c.rsshubRefreshed)];
    }
    expected := expected + Entry(RsshubRefreshed, c.rsshubRefreshed);
    assert messages == expected;
    if c.rsshubQueued > 0 {
      messages := messages + [(RsshubQueued, c.rsshubQueued)];
    }
    expected := expected + Entry(RsshubQueued, c.rsshubQueued);
    assert messages == expected;
    if c.rsshubFollowups > 0 {
      messages := messages + [(RsshubFollowups, c.rsshubFollowups)];
    }
    expected := expected + Entry(RsshubFollowups, c.rsshubFollowups);
    assert messages == expected;
    SummaryInOrder(c);
  }
}
