/** DailySpread's aggregated refresh statistics: six counters, bumped by the hook and
    the follow-up queue, summarised and reset at most once an hour (or when forced
    at shutdown). */
module Stats {

  const LOG_INTERVAL_SECONDS := 3600

  datatype Counter =
    | RegularSkipped
    | RegularRefreshed
    | RsshubSkipped
    | RsshubRefreshed
    | RsshubFollowups
    | RsshubQueued

  /** The six keys of the static $feedStats array. */
  datatype FeedStats = FeedStats(
    regularSkipped: nat,
    regularRefreshed: nat,
    rsshubSkipped: nat,
    rsshubRefreshed: nat,
    rsshubFollowups: nat,
    rsshubQueued: nat)
  {
    function Get(c: Counter): nat
    {
      match c
      case RegularSkipped => regularSkipped
      case RegularRefreshed => regularRefreshed
      case RsshubSkipped => rsshubSkipped
      case RsshubRefreshed => rsshubRefreshed
      case RsshubFollowups => rsshubFollowups
      case RsshubQueued => rsshubQueued
    }

    /** $feedStats[c]++ : one counter goes up by one, the other five stay. */
    function Bump(c: Counter): (s: FeedStats)
      ensures s.Get(c) == Get(c) + 1
      ensures forall d :: d != c ==> s.Get(d) == Get(d)
    {
      match c
      case RegularSkipped => this.(regularSkipped := regularSkipped + 1)
      case RegularRefreshed => this.(regularRefreshed := regularRefreshed + 1)
      case RsshubSkipped => this.(rsshubSkipped := rsshubSkipped + 1)
      case RsshubRefreshed => this.(rsshubRefreshed := rsshubRefreshed + 1)
      case RsshubFollowups => this.(rsshubFollowups := rsshubFollowups + 1)
      case RsshubQueued => this.(rsshubQueued := rsshubQueued + 1)
    }

    /** array_sum($feedStats) */
    function Total(): nat
    {
      regularSkipped + regularRefreshed + rsshubSkipped + rsshubRefreshed + rsshubFollowups + rsshubQueued
    }
  }

  const Zero := FeedStats(0, 0, 0, 0, 0, 0)

  /** Every counter with its value, in the order the summary line names them (queued
      before executed); the wording of each message is left out. */
  function SummaryItems(s: FeedStats): seq<(Counter, nat)>
  {
    [(RegularSkipped, s.regularSkipped), (RegularRefreshed, s.regularRefreshed),
     (RsshubSkipped, s.rsshubSkipped), (RsshubRefreshed, s.rsshubRefreshed),
     (RsshubQueued, s.rsshubQueued), (RsshubFollowups, s.rsshubFollowups)]
  }

  /** The message one counter contributes: none when it is zero. */
  function Entry(c: Counter, v: nat): seq<(Counter, nat)>
  {
    if v > 0 then [(c, v)] else []
  }

  /** The items whose value is non-zero, in their order. */
  function NonZero(items: seq<(Counter, nat)>): seq<(Counter, nat)>
    decreases |items|
  {
    if items == [] then []
    else
      var last := items[|items| - 1];
      NonZero(items[..|items| - 1]) + Entry(last.0, last.1)
  }

  lemma {:induction false} NonZeroMembers(items: seq<(Counter, nat)>)
    ensures forall x :: x in NonZero(items) <==> x in items && x.1 > 0
    decreases |items|
  {
    if items != [] {
      NonZeroMembers(items[..|items| - 1]);
      assert items == items[..|items| - 1] + [items[|items| - 1]];
    }
  }

  /** The summary names exactly the non-zero counters with their values, so a flush,
      which only happens when the total is non-zero, always emits its notice. */
  lemma SummaryNamesNonZeroCounters(s: FeedStats)
    ensures forall c: Counter :: s.Get(c) > 0 <==> (c, s.Get(c)) in NonZero(SummaryItems(s))
    ensures s.Total() != 0 ==> NonZero(SummaryItems(s)) != []
  {
    var items := SummaryItems(s);
    NonZeroMembers(items);
    forall c: Counter
      ensures (c, s.Get(c)) in items
    {
      var i := match c
        case RegularSkipped => 0
        case RegularRefreshed => 1
        case RsshubSkipped => 2
        case RsshubRefreshed => 3
        case RsshubQueued => 4
        case RsshubFollowups => 5;
      assert items[i] == (c, s.Get(c));
    }
    if s.Total() != 0 {
      var c :| s.Get(c) > 0 && c in {RegularSkipped, RegularRefreshed, RsshubSkipped, RsshubRefreshed, RsshubFollowups, RsshubQueued};
      assert (c, s.Get(c)) in NonZero(items);
    }
  }

  /** The static counters together with the static $lastStatsLogTime. */
  datatype StatsLog = StatsLog(counters: FeedStats, lastLogTime: int)
  {
    /** logPeriodicStats flushes when forced or an hour has passed, and the counters are not all zero. */
    predicate FlushDue(now: int, force: bool)
    {
      (force || now - lastLogTime >= LOG_INTERVAL_SECONDS) && counters.Total() != 0
    }

    /** logPeriodicStats($force) at time now: on a flush every counter is reset and
        the time stamped; otherwise nothing changes. */
    function Log(now: int, force: bool): StatsLog
    {
      if FlushDue(now, force) then StatsLog(Zero, now) else this
    }

    function Incr(c: Counter): StatsLog
    {
      this.(counters := counters.Bump(c))
    }

    /** `$feedStats[c]++; logPeriodicStats();` */
    function Count(c: Counter, now: int): StatsLog
    {
      Incr(c).Log(now, false)
    }

    /** Count(c, now) done n times in a row. */
    function CountTimes(c: Counter, n: nat, now: int): StatsLog
      decreases n
    {
      if n == 0 then this else CountTimes(c, n - 1, now).Count(c, now)
    }
  }

  /** A summed total of zero means every counter is zero. */
  lemma TotalZeroIff(s: FeedStats)
    ensures s.Total() == 0 <==> s == Zero
  {
  }

  /** A second unforced logPeriodicStats at the same time never flushes again: either the
      first flushed and stamped the time, or nothing has changed since it declined. */
  lemma LogTwiceAtSameTime(s: StatsLog, now: int, force: bool)
    ensures s.Log(now, force).Log(now, false) == s.Log(now, force)
  {
  }

  /** The summary written out counter by counter, in the order of the log line. */
  lemma SummaryInOrder(s: FeedStats)
    ensures NonZero(SummaryItems(s))
         == Entry(RegularSkipped, s.regularSkipped) + Entry(RegularRefreshed, s.regularRefreshed)
          + Entry(RsshubSkipped, s.rsshubSkipped) + Entry(RsshubRefreshed, s.rsshubRefreshed)
          + Entry(RsshubQueued, s.rsshubQueued) + Entry(RsshubFollowups, s.rsshubFollowups)
  {
    var items: seq<(Counter, nat)> := SummaryItems(s);
    var e := Entry(RegularSkipped, s.regularSkipped);
    assert items[..1][..0] == [];
    assert NonZero(items[..1]) == e;
    e := e + Entry(RegularRefreshed, s.regularRefreshed);
    assert items[..2][..1] == items[..1];
    assert NonZero(items[..2]) == e;
    e := e + Entry(RsshubSkipped, s.rsshubSkipped);
    assert items[..3][..2] == items[..2];
    assert NonZero(items[..3]) == e;
    e := e + Entry(RsshubRefreshed, s.rsshubRefreshed);
    assert items[..4][..3] == items[..3];
    assert NonZero(items[..4]) == e;
    e := e + Entry(RsshubQueued, s.rsshubQueued);
    assert items[..5][..4] == items[..4];
    assert NonZero(items[..5]) == e;
    assert items[..6][..5] == items[..5];
    assert items[..6] == items;
  }

  /** Between two flushes counting c n times adds n to c, as long as no flush falls due:
      within the hour after the last flush every count is kept. */
  lemma {:induction false} CountTimesWithinHour(s: StatsLog, c: Counter, n: nat, now: int)
    requires now - s.lastLogTime < LOG_INTERVAL_SECONDS
    ensures s.CountTimes(c, n, now).lastLogTime == s.lastLogTime
    ensures s.CountTimes(c, n, now).counters.Get(c) == s.counters.Get(c) + n
    ensures forall d :: d != c ==> s.CountTimes(c, n, now).counters.Get(d) == s.counters.Get(d)
    decreases n
  {
    if n > 0 {
      CountTimesWithinHour(s, c, n - 1, now);
    }
  }

  /** Right after a flush all six counters are zero, and the next hour's flushes are
      driven only by what is counted after it. */
  lemma FlushResetsAll(s: StatsLog, now: int, force: bool)
    requires s.FlushDue(now, force)
    ensures forall c :: s.Log(now, force).counters.Get(c) == 0
    ensures s.Log(now, force).lastLogTime == now
  {
  }
}
