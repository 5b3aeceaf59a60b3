/** DailySpread's pure scheduling arithmetic: every feed gets a fixed slot inside
    the refresh interval, time is cut into windows of one interval that start at
    the slot, and a feed's primary refresh is due once per window. */
module Schedule {
  import opened Common
  import Text

  const DEFAULT_INTERVAL_SECONDS := 86_400
  const MIN_INTERVAL_SECONDS := 3600
  const DEFAULT_FOLLOWUP_DELAY_SECONDS := 600

  /** The window index given to timestamps <= 0: before every real window. */
  const NEVER_WINDOW := -1_000_000_000

  /** A feed this many intervals behind is refreshed whatever its window says. */
  const CATCH_UP_INTERVALS := 2

  const TWO_POW_32 := 0x1_0000_0000

  /** What crc32() returns: unsigned on 64-bit PHP, a signed 32-bit value on 32-bit builds. */
  type RawCrc = h: int | -0x8000_0000 <= h < 0x1_0000_0000

  /** The inputs of slot hashing the scheduler does not own: the crc32 library
      function and the installation's salt (system configuration). */
  datatype SlotHash = SlotHash(crc32: string -> RawCrc, salt: string)

  /** sprintf('%s|%d|%s', url, id, salt) */
  function SlotKey(feed: Feed, salt: string): string
  {
    feed.url + "|" + Text.DecimalString(feed.id) + "|" + salt
  }

  /** slotForFeed: the feed's offset inside the interval, from its URL, id and the salt. */
  function SlotForFeed(hash: SlotHash, feed: Feed, interval: int): (slot: int)
    ensures interval <= 0 ==> slot == 0
    ensures interval > 0 ==> 0 <= slot < interval
  {
    if interval <= 0 then 0
    else
      var h := hash.crc32(SlotKey(feed, hash.salt));
      var unsigned := if h < 0 then h + TWO_POW_32 else h;
      unsigned % interval
  }

  /** windowIndex: floor((t - slot) / interval), and NEVER_WINDOW for t <= 0.
      The source divides as floats and floors; for a positive interval that is
      integer floor division. */
  function WindowIndex(t: int, slot: int, interval: int): (w: int)
    requires interval > 0
    ensures t <= 0 ==> w == NEVER_WINDOW
    ensures t > 0 ==> w * interval <= t - slot < (w + 1) * interval
  {
    if t <= 0 then NEVER_WINDOW else (t - slot) / interval
  }

  /** shouldRunPrimary */
  predicate ShouldRunPrimary(hash: SlotHash, feed: Feed, now: int, interval: int)
    requires interval > 0
  {
    || feed.lastUpdate == 0
    || now - feed.lastUpdate >= CATCH_UP_INTERVALS * interval
    || (var slot := SlotForFeed(hash, feed, interval);
        WindowIndex(now, slot, interval) > WindowIndex(feed.lastUpdate, slot, interval))
  }

  /** calculateNextRefreshTime: now when the primary refresh is due, otherwise the
      start of the next window. */
  function NextRefreshTime(hash: SlotHash, feed: Feed, now: int, interval: int): (next: int)
    requires interval > 0
    ensures ShouldRunPrimary(hash, feed, now, interval) ==> next == now
    ensures !ShouldRunPrimary(hash, feed, now, interval) && now > 0 ==> now < next <= now + interval
  {
    if feed.lastUpdate == 0 then now
    else if now - feed.lastUpdate >= CATCH_UP_INTERVALS * interval then now
    else
      var slot := SlotForFeed(hash, feed, interval);
      var current := WindowIndex(now, slot, interval);
      if current > WindowIndex(feed.lastUpdate, slot, interval) then now
      else slot + (current + 1) * interval
  }

  // ---------------------------------------------------------------- window arithmetic

  lemma MulMonotone(a: int, b: int, n: int)
    requires n > 0 && a <= b
    ensures a * n <= b * n
  {
  }

  /** The window index is the only w with w * interval <= t - slot < (w + 1) * interval. */
  lemma WindowIndexUnique(t: int, slot: int, interval: int, w: int)
    requires interval > 0 && t > 0
    requires w * interval <= t - slot < (w + 1) * interval
    ensures WindowIndex(t, slot, interval) == w
  {
    var q := WindowIndex(t, slot, interval);
    if q < w {
      MulMonotone(q + 1, w, interval);
    } else if q > w {
      MulMonotone(w + 1, q, interval);
    }
  }

  /** A real timestamp is never before window -1, so it is always after NEVER_WINDOW. */
  lemma WindowIndexOfPositive(t: int, slot: int, interval: int)
    requires interval > 0 && slot < interval && t > 0
    ensures WindowIndex(t, slot, interval) >= -1
  {
    var w := WindowIndex(t, slot, interval);
    if w < -1 {
      MulMonotone(w + 1, -1, interval);
    }
  }

  /** Window indices never go backwards as time moves forward. */
  lemma WindowIndexMonotone(t1: int, t2: int, slot: int, interval: int)
    requires interval > 0 && slot < interval
    requires t1 <= t2
    ensures WindowIndex(t1, slot, interval) <= WindowIndex(t2, slot, interval)
  {
    if t1 <= 0 {
      if t2 > 0 {
        WindowIndexOfPositive(t2, slot, interval);
      }
    } else {
      var w1, w2 := WindowIndex(t1, slot, interval), WindowIndex(t2, slot, interval);
      if w1 > w2 {
        MulMonotone(w2 + 1, w1, interval);
      }
    }
  }

  // ---------------------------------------------------------------- scheduling properties

  /** Once a feed has been fetched at `now`, it is due again exactly when a later
      window starts: never twice in one window, and always in the next one. */
  lemma {:induction false} RunOncePerWindow(hash: SlotHash, feed: Feed, now: int, later: int, interval: int)
    requires interval > 0 && 0 < now <= later
    ensures var slot := SlotForFeed(hash, feed, interval);
      ShouldRunPrimary(hash, feed.(lastUpdate := now), later, interval)
      <==> WindowIndex(later, slot, interval) > WindowIndex(now, slot, interval)
  {
    var fetched := feed.(lastUpdate := now);
    var slot := SlotForFeed(hash, feed, interval);
    assert SlotForFeed(hash, fetched, interval) == slot;
    if later - now >= CATCH_UP_INTERVALS * interval {
      var w1, w2 := WindowIndex(now, slot, interval), WindowIndex(later, slot, interval);
      if w2 <= w1 {
        MulMonotone(w2 + 1, w1 + 1, interval);
      }
    }
  }

  /** When a feed that was last fetched in the past is not due, calculateNextRefreshTime
      names the first moment it becomes due: it is not due at any time from now up
      to that moment, and due at that moment. */
  lemma {:induction false} NextRefreshIsFirstDueTime(hash: SlotHash, feed: Feed, now: int, interval: int)
    requires interval > 0 && now > 0 && feed.lastUpdate <= now
    requires !ShouldRunPrimary(hash, feed, now, interval)
    ensures var next := NextRefreshTime(hash, feed, now, interval);
      && ShouldRunPrimary(hash, feed, next, interval)
      && forall t :: now <= t < next ==> !ShouldRunPrimary(hash, feed, t, interval)
  {
    var last := feed.lastUpdate;
    var slot := SlotForFeed(hash, feed, interval);
    var w := WindowIndex(now, slot, interval);
    WindowIndexOfPositive(now, slot, interval);
    WindowIndexMonotone(last, now, slot, interval);
    assert last > 0;
    assert WindowIndex(last, slot, interval) == w;
    var next := slot + (w + 1) * interval;
    assert NextRefreshTime(hash, feed, now, interval) == next;
    WindowIndexUnique(next, slot, interval, w + 1);
    forall t | now <= t < next
      ensures !ShouldRunPrimary(hash, feed, t, interval)
    {
      WindowIndexUnique(t, slot, interval, w);
    }
  }
}
