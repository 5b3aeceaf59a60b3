# FreshRSS extensions: DailySpread, DisableRetryAfter, AutoTagger

A Dafny model of the logic of three FreshRSS extensions, each hooked into the feed
refresh or entry insertion of the host application.

- **DailySpread** spreads feed refreshes over the day. Every feed gets a fixed slot
  inside the refresh interval: crc32 of its URL, its id and the installation salt,
  modulo the interval. Time is cut into windows of one interval that start at the
  slot. The `feed_before_actualize` hook lets a managed feed through once per window
  and returns null (skip) otherwise.
  - Feeds served by an RSSHub host get one extra "follow-up" fetch a configurable
    delay after their primary refresh. These follow-ups are kept in a queue
    (feed id → due time) that is stored in the user configuration.
  - A discovery pass, run at most once an hour, backfills a follow-up for every
    RSSHub feed that has none.
  - Six counters record what the hook did. They are summarised and reset at most
    once an hour, or on a forced flush at shutdown.
- **DisableRetryAfter** reads a list of domains, or a "disable all" switch, from
  the configuration. For every feed about to be refreshed whose URL host is a listed
  domain or a subdomain of one, it clears the host's retry-after back-off.
- **AutoTagger** reads one list of patterns per label category (seven categories).
  Before an entry is inserted, it adds the display name of every category with a
  matching pattern to the entry's tags. An entry that nothing matched gets the tag
  "Checked by AutoTagger" instead.

Layout:

| file | module | what |
|---|---|---|
| common.dfy | Common | `Option`, what `parse_url` returns for a host (`UrlHost`), the feed as the hooks see it |
| text.dfy | Text | the PHP string functions the extensions use (strtolower, trim, ltrim, str_contains, str_ends_with, explode, preg_split on a character class, array_unique) |
| schedule.dfy | Schedule | slot, window index, `shouldRunPrimary`, `calculateNextRefreshTime` |
| hosts.dfy | RssHubHosts | `parseHosts`, `isRssHubFeed` |
| stats.dfy | Stats | the six counters and the hourly flush of `logPeriodicStats` |
| followups.dfy | Followups | sanitizing, the pruning rule, `describeRssHubStatus` |
| policy.dfy | Policy | the hook's decision for one feed, as a value (`Hook`) |
| discovery.dfy | Discovery | the discovery loop, as a value (`Discover`) |
| daily_spread.dfy | DailySpread | the extension object: fields, hook, queue methods, config loading |
| disable_retry_after.dfy | DisableRetryAfter | `parseDomains`, `extractDomain`, the extension object |
| auto_tagger.dfy | AutoTagger | categories, `loadPatterns`, `tagEntry` |

The code that changes state is modelled as classes whose methods update the fields
in place:

- `DailySpreadExtension`: queue, dirty flag, statistics and configuration.
- `DisableRetryAfterExtension`: domain list, switch and the log of clear requests.
- `AutoTaggerExtension` and `Entry`: pattern list and tags.

Each method is proved against a value-level definition of what it computes:
`Policy.Hook`, `Discovery.Discover`, `Followups.Pruned`, `RssHubHosts.HostList`,
`DisableRetryAfter.DomainList`, `AutoTagger.MatchedLabels`, `AutoTagger.TaggedTags`.
The properties are proved as lemmas about those definitions.

Things the extensions call but do not own are parameters of the model:

- `crc32`: a function into the range PHP returns.
- `parse_url(…, PHP_URL_HOST)`: a function to `NoHost | Malformed | Host(name)`, which keeps PHP's null and false apart.
- the installation salt.
- the regular-expression match: `matches(pattern, text)`.
- `strip_tags` and the whitespace collapse.
- the clock: a `now` argument.
- the feed listing: an `Option<seq<Feed>>`, where None means the listing threw.

The user configuration is a field of each extension object, one `Option` per key. A save copies the in-memory value into it.

Where the behaviour described for the system and the code differ, the model follows the code:

- **Never-fetched feeds.** The DailySpread hook returns a never-fetched feed (`lastUpdate == 0`) before any other test (DailySpread/extension.php:191-199). It is fetched without touching the queue or the counters, so no follow-up is queued for it on that call (`Policy.UnmanagedPassesThrough`).
- **Lazy configuration loading.** DisableRetryAfter loads its configuration lazily, from the hook, and reloads it on every call while the list is empty and the switch is off (DisableRetryAfter/extension.php:30-32).
- **DisableRetryAfter configure action.** It stores the new values but does not reload the loaded list or switch (DisableRetryAfter/extension.php:237-256).
- **DailySpread configure action.** It calls `initConfig` again, which also re-reads and prunes the follow-up queue.

## Model

| member | source | states |
|---|---|---|
| Schedule.ShouldRunPrimary | DailySpread/extension.php:525-540 | definition of shouldRunPrimary: due when never fetched, when the catch-up span has passed since the last fetch, or when now is in a later window than the last fetch; its properties are RunOncePerWindow, NextRefreshTime and NextRefreshIsFirstDueTime |
| Schedule.SlotForFeed | DailySpread/extension.php:565-584 | the slot is 0 for a non-positive interval and otherwise lies in [0, interval); crc32's negative 32-bit results are shifted by 2^32 first |
| Schedule.WindowIndex | DailySpread/extension.php:542-551 | timestamps ≤ 0 get -1 000 000 000; otherwise w is the floor of (t − slot)/interval, i.e. w·interval ≤ t − slot < (w+1)·interval |
| Schedule.WindowIndexUnique | DailySpread/extension.php:542-551 | the window index is the only integer bracketing (t − slot)/interval |
| Schedule.WindowIndexOfPositive | DailySpread/extension.php:544-545 | a real timestamp's window is ≥ −1, so "never" compares before every real window |
| Schedule.WindowIndexMonotone | DailySpread/extension.php:542-551 | window indices never decrease as time moves forward |
| Schedule.NextRefreshTime | DailySpread/extension.php:341-372 | returns now exactly when shouldRunPrimary holds; otherwise, for now > 0, a time in (now, now + interval] |
| Schedule.RunOncePerWindow | DailySpread/extension.php:525-540 | after a fetch at now, the feed is due at a later time exactly when that time is in a later window |
| Schedule.NextRefreshIsFirstDueTime | DailySpread/extension.php:341-372 | when not due, the computed time is the first moment the feed becomes due: not due before it, due at it |
| RssHubHosts.HostList | DailySpread/extension.php:703-727 | definition of parseHosts: split on whitespace and commas, clean each piece, drop repeats; ParseHosts is proved equal to it, HostListWellFormed states its shape |
| RssHubHosts.CleanHost | DailySpread/extension.php:709-723 | definition of one loop iteration of parseHosts; CleanPiece is proved equal to it, CleanHostsShape states its shape |
| RssHubHosts.FeedHost | DailySpread/extension.php:592 | definition of the lower-cased URL host, "" for null or false; used by IsRssHubFeed |
| RssHubHosts.HostListWellFormed | DailySpread/extension.php:703-727 | parsed hosts are duplicate-free, non-empty, without a leading dot, and lower case when parse_url returns pieces of its input |
| RssHubHosts.CleanHostsShape | DailySpread/extension.php:708-724 | every host the loop keeps is non-empty and has no leading dot |
| RssHubHosts.CleanHostsKeepLower | DailySpread/extension.php:705-724 | the pieces of the lower-cased input stay lower case through the cleaning |
| RssHubHosts.ParseHosts | DailySpread/extension.php:703-727 | the method (split, loop, array_unique) computes HostList |
| RssHubHosts.CleanPieces | DailySpread/extension.php:708-724 | the loop builds the cleaned pieces in order, skipped ones left out |
| RssHubHosts.CleanPiece | DailySpread/extension.php:709-723 | one loop iteration: trim, host of a URL (`?:` fallback), ltrim dots, skip empty |
| RssHubHosts.MatchesAnyHost | DailySpread/extension.php:598-604 | true iff the host equals some allowed host or ends with "." + that host |
| RssHubHosts.IsRssHubFeed | DailySpread/extension.php:586-605 | true iff the lower-cased URL host is non-empty and is an allowed host or a subdomain of one |
| Stats.StatsLog.Log | DailySpread/extension.php:413-476 | definition of logPeriodicStats' effect on the counters: reset and stamp when FlushDue, otherwise unchanged; its properties are FlushResetsAll, LogTwiceAtSameTime and CountTimesWithinHour |
| Stats.FeedStats.Bump | DailySpread/extension.php:218 | `$feedStats[c]++` raises one counter by one and leaves the other five |
| Stats.SummaryNamesNonZeroCounters | DailySpread/extension.php:425-456 | the summary names exactly the non-zero counters with their values, and is non-empty whenever the total is |
| Stats.NonZeroMembers | DailySpread/extension.php:439-456 | an item is in the summary iff it is a counter with a positive value |
| Stats.SummaryInOrder | DailySpread/extension.php:439-456 | the summary lists the counters in the order of the log line (queued before executed) |
| Stats.TotalZeroIff | DailySpread/extension.php:425-428 | array_sum is 0 exactly when every counter is 0 |
| Stats.LogTwiceAtSameTime | DailySpread/extension.php:413-476 | a second unforced logPeriodicStats at the same time changes nothing |
| Stats.CountTimesWithinHour | DailySpread/extension.php:413-423 | within the hour after a flush, n counts add n to that counter and nothing is flushed |
| Stats.FlushResetsAll | DailySpread/extension.php:466-475 | a flush sets all six counters to 0 and stamps the time |
| Followups.Sanitized | DailySpread/extension.php:640-657 | definition of sanitizePendingFollowups: the entries with a positive id and due time, the empty queue for null; SanitizePendingFollowups is proved equal to it, SanitizedRoundTrip states its round trip |
| Followups.DescribeRssHubStatus | DailySpread/extension.php:374-387 | definition of describeRssHubStatus without the date text: completed, ready now, or queued with its due time; Policy.StatusAgreesWithHook ties it to the hook |
| Followups.SanitizePendingFollowups | DailySpread/extension.php:640-657 | keeps exactly the raw entries whose id and due time are both positive (null gives the empty queue) |
| Followups.SanitizedRoundTrip | DailySpread/extension.php:640-657 | a well-formed queue written to configuration sanitizes back to itself |
| Followups.Pruned | DailySpread/extension.php:665-674 | the pruned queue is the entries due at or after the threshold, with their due times |
| Followups.PrunedCount | DailySpread/extension.php:667-679 | the queue shrinks by exactly the number of stale entries |
| Policy.Hook | DailySpread/extension.php:186-266 | definition of feedBeforeActualizeHook's decision, queue, counters and dirty mark; FeedBeforeActualize is proved equal to it, the Policy lemmas state its properties |
| Policy.StatusAgreesWithHook | DailySpread/extension.php:374-387 | the preview shows "ready now" exactly when a follow-up is queued and the hook would fetch the feed, "completed" exactly when none is queued, and a queued status (future due time) only while the hook holds the feed back and keeps the entry |
| Policy.FollowupTime | DailySpread/extension.php:309-312 | a discovered follow-up falls due between now + delay and now + interval + delay |
| Policy.UnmanagedPassesThrough | DailySpread/extension.php:191-209 | a never-fetched or custom-TTL feed is fetched with queue and counters untouched |
| Policy.FetchExactlyWhenDue | DailySpread/extension.php:213-246 | a managed feed is fetched iff its follow-up is due, or, with none queued, iff its primary refresh is due |
| Policy.QueuedFeedFollowsItsEntry | DailySpread/extension.php:213-230 | a follow-up not yet due suppresses the fetch and stays; a due one is fetched and leaves the queue |
| Policy.PrimaryRefreshQueuesOneFollowup | DailySpread/extension.php:232-265 | a suppressed fetch leaves the queue; a primary refresh adds feedId → now + delay exactly for RSSHub feeds with follow-ups on |
| Policy.HookNeverOverwrites | DailySpread/extension.php:256-260 | the hook never rewrites a kept entry's due time and touches no entry but the feed's own |
| Policy.HookKeepsQueueWellFormed | DailySpread/extension.php:256-260 | with a positive id and clock the queue keeps positive ids and due times |
| Policy.HookCountsItsEvent | DailySpread/extension.php:213-263 | within the hour, a managed feed bumps exactly the counter of what happened (plus rsshub_queued when it queued) |
| Policy.HookFlushesAtMostOnce | DailySpread/extension.php:413-476 | one hook call leaves the last flush time as it was or sets it to now |
| Policy.FollowupCycle | DailySpread/extension.php:213-265 | an RSSHub primary refresh at now is followed by no fetch before now + delay and a fetch at or after it, which empties its entry |
| Discovery.Visit | DailySpread/extension.php:289-315 | definition of one iteration of the discovery loop; VisitFeed is proved equal to it, VisitChanges and VisitTallies state its effect |
| Discovery.Discover | DailySpread/extension.php:288-324 | definition of the discovery loop as Visit over the listing in order; ScheduleListed is proved equal to it, the Discover lemmas state its properties |
| Discovery.VisitChanges | DailySpread/extension.php:289-315 | one feed's visit keeps every queued entry and adds only that feed's, when it is eligible, due at its next refresh plus the delay |
| Discovery.VisitTallies | DailySpread/extension.php:303-315 | one visit counts an eligible feed as scheduled or skipped; scheduling adds one entry and one rsshub_queued count |
| Discovery.DiscoverKeepsExisting | DailySpread/extension.php:303-306 | discovery never changes or removes an entry already queued |
| Discovery.DiscoverCoversEligible | DailySpread/extension.php:288-324 | afterwards every eligible listed feed has a queued follow-up |
| Discovery.DiscoverAddsOnlyEligible | DailySpread/extension.php:288-324 | every added entry belongs to an eligible listed feed and is due at its next refresh plus the delay |
| Discovery.DiscoverDueTimes | DailySpread/extension.php:309-314 | added entries fall due between now + delay and now + interval + delay |
| Discovery.DiscoverTallies | DailySpread/extension.php:303-315 | `scheduled` counts the rsshub_queued increments; with none, queue and statistics are unchanged |
| Discovery.DiscoverGrowsQueue | DailySpread/extension.php:314-315 | the queue grows by exactly `scheduled` |
| Discovery.DiscoverAccountsForEligible | DailySpread/extension.php:303-315 | scheduled + skipped equals the number of eligible listed feeds |
| Discovery.NothingLeftToSchedule | DailySpread/extension.php:303-306 | when every eligible feed is queued, nothing changes |
| Discovery.DiscoverIdempotent | DailySpread/extension.php:275-336 | a second run with the same listing and time schedules nothing and changes nothing |
| Discovery.DiscoverKeepsWellFormed | DailySpread/extension.php:309-314 | with positive ids and clock the queue stays well formed |
| DailySpread.PeriodicDiscovery | DailySpread/extension.php:168-184 | definition of runPeriodicDiscovery's effect: nothing while off or within the hour, otherwise Discover over the listing with now stored; RunPeriodicDiscovery is proved equal to it, DiscoveryThrottled states the throttle |
| DailySpread.WithDefaults | DailySpread/extension.php:83-101 | every missing key gets its default (86400 s, 600 s, "rsshub.app", the empty queue); present keys and the last-discovery time are kept |
| DailySpread.RoundDiv | DailySpread/extension.php:119-124 | round(a / b) is the nearest integer, halves rounded up |
| DailySpread.DisplayRoundTrip | DailySpread/extension.php:119-145 | hours and minutes saved by the form display as the same values after reloading |
| DailySpread.DiscoveryThrottled | DailySpread/extension.php:168-184 | over two consecutive calls: once discovery ran at now, a call before now + 3600 changes nothing whatever the listing, and a call at or after it runs again |
| DailySpread.DailySpreadExtension.constructor | DailySpread/extension.php:57-76 | init loads the clamped settings and host list, then the queue is the pruned stored queue run through one throttled discovery starting from zero counters; conf holds the written-back queue and the new last-run time; dirty iff discovery added entries; consistent whenever ids and clock are positive |
| DailySpread.DailySpreadExtension.InitConfig | DailySpread/extension.php:78-126 | the settings are the clamped configuration values, the queue is the sanitized then pruned stored queue, clean and consistent |
| DailySpread.DailySpreadExtension.WriteDefaults | DailySpread/extension.php:81-105 | missing keys get their defaults; a save is needed exactly when one was missing |
| DailySpread.DailySpreadExtension.LoadSettings | DailySpread/extension.php:107-125 | interval ≥ 3600, delay ≥ 0, host text defaulting to rsshub.app, display fields |
| DailySpread.DailySpreadExtension.LoadHosts | DailySpread/extension.php:113 | the host list is the parse of the host text |
| DailySpread.DailySpreadExtension.LoadQueue | DailySpread/extension.php:115-117 | the queue is the pruned sanitized stored queue; it is written back only when pruning removed something |
| DailySpread.DailySpreadExtension.HandleConfigureAction | DailySpread/extension.php:131-163 | stores hours·3600, minutes·60 (each at least 1) and the trimmed hosts; the queue is the reloaded, sanitized and pruned stored queue, then extended by Discover when follow-ups are on and the listing succeeds; statistics follow discovery; dirty iff discovery added entries |
| DailySpread.DailySpreadExtension.RunPeriodicDiscovery | DailySpread/extension.php:168-184 | the stored last-run time, queue and statistics become PeriodicDiscovery of the old ones: unchanged while off or within the hour, otherwise Discover over the listing (nothing for a failed listing) with now stored; dirty iff the queue changed |
| DailySpread.DailySpreadExtension.DiscoverAndScheduleFollowups | DailySpread/extension.php:275-336 | queue and statistics become those of Discover over the listing; nothing changes when off or when listing fails; it scheduled something exactly when the queue changed |
| DailySpread.DailySpreadExtension.ScheduleListed | DailySpread/extension.php:288-324 | the loop computes Discover over the listing, marking the queue dirty iff it scheduled |
| DailySpread.DailySpreadExtension.VisitFeed | DailySpread/extension.php:289-315 | one iteration computes one Visit |
| DailySpread.DailySpreadExtension.FeedBeforeActualize | DailySpread/extension.php:186-266 | fetch decision, queue, counters and dirty flag are those of Policy.Hook; the queue stays consistent |
| DailySpread.DailySpreadExtension.GateQueuedFeed | DailySpread/extension.php:213-230 | the queued-follow-up branch computes Policy.Hook |
| DailySpread.DailySpreadExtension.GateBySlot | DailySpread/extension.php:232-265 | the slot branch computes Policy.Hook |
| DailySpread.DailySpreadExtension.ScheduleFollowup | DailySpread/extension.php:607-617 | sets the entry, marks dirty or saves, counts rsshub_queued and logs |
| DailySpread.DailySpreadExtension.ClearFollowup | DailySpread/extension.php:619-633 | nothing for an absent entry; otherwise removes it, marks dirty or saves, and logs |
| DailySpread.DailySpreadExtension.PruneOutdatedFollowups | DailySpread/extension.php:659-686 | removes exactly the stale entries, returns their number (initial minus final size), saves only when it removed any |
| DailySpread.DailySpreadExtension.DropStale | DailySpread/extension.php:669-674 | the loop leaves Pruned(queue) and reports whether any entry was stale |
| DailySpread.DailySpreadExtension.PersistPendingFollowups | DailySpread/extension.php:688-698 | writes the queue and clears dirty unless neither forced nor dirty |
| DailySpread.DailySpreadExtension.ShutdownSave | DailySpread/extension.php:393-398 | afterwards the queue is clean and the stored queue reads back as the one in memory |
| DailySpread.DailySpreadExtension.LogAggregatedStats | DailySpread/extension.php:403-406 | a forced flush: non-zero counters are summarised and all reset |
| DailySpread.DailySpreadExtension.LogPeriodicStats | DailySpread/extension.php:413-476 | flushes only when forced or an hour passed and some counter is non-zero; then the summary names the non-zero counters |
| DailySpread.SummaryMessages | DailySpread/extension.php:437-456 | one message per non-zero counter, in the log line's order |
| DisableRetryAfter.DomainList | DisableRetryAfter/extension.php:203-235 | definition of parseDomains; ParseDomains is proved equal to it, DomainListWellFormed states its shape |
| DisableRetryAfter.ExtractDomain | DisableRetryAfter/extension.php:77-90 | definition of extractDomain on parse_url's result; ExtractDomainSpec states what it returns |
| DisableRetryAfter.Clears | DisableRetryAfter/extension.php:42-72 | definition of when processFeedForBypass clears a domain: non-empty, and the switch on or the list covering it; ProcessFeedForBypass is proved against it |
| DisableRetryAfter.ParseDisableAll | DisableRetryAfter/extension.php:196-197 | definition of how the stored switch is read; ParseDisableAllIgnoresCase and StoredFlagRoundTrip state its properties |
| DisableRetryAfter.DomainListWellFormed | DisableRetryAfter/extension.php:203-235 | every parsed domain is non-empty, lower case, without a leading dot or a ':', and the list is duplicate-free |
| DisableRetryAfter.CleanDomainsShape | DisableRetryAfter/extension.php:211-232 | every domain the loop keeps has that shape |
| DisableRetryAfter.CleanDomainShape | DisableRetryAfter/extension.php:212-231 | one cleaned piece has that shape |
| DisableRetryAfter.CleanDomainsAtMostPieces | DisableRetryAfter/extension.php:211-232 | each piece contributes at most one domain |
| DisableRetryAfter.SplitsOnlyOnSeparators | DisableRetryAfter/extension.php:209 | text without CR, LF or comma gives at most one domain |
| DisableRetryAfter.ParseDomains | DisableRetryAfter/extension.php:203-235 | the method computes DomainList ("" gives []) |
| DisableRetryAfter.CleanDomainPieces | DisableRetryAfter/extension.php:211-232 | the loop builds the cleaned pieces in order |
| DisableRetryAfter.CleanDomainPiece | DisableRetryAfter/extension.php:212-231 | one iteration: trim, host of a URL (`??` fallback), lower-case, ltrim dots, cut the port, skip empty |
| DisableRetryAfter.ExtractDomainSpec | DisableRetryAfter/extension.php:77-90 | the domain is lower case without ':' and is the lower-cased host up to its first ':' (all of it when there is none); it is "" iff there is no host or it is empty or starts with ':' |
| DisableRetryAfter.ParseDisableAllIgnoresCase | DisableRetryAfter/extension.php:196-197 | the switch is read case-insensitively |
| DisableRetryAfter.StoredFlagRoundTrip | DisableRetryAfter/extension.php:189-251 | the stored "1" reads back as on and "" as off |
| DisableRetryAfter.SubdomainIsCleared | DisableRetryAfter/extension.php:101-108 | a subdomain of a listed domain, at any depth, is cleared |
| DisableRetryAfter.WholeLabelsOnly | DisableRetryAfter/extension.php:101-108 | with "example.com" listed, "badexample.com" is not cleared and "www.example.com" is |
| DisableRetryAfter.DisableRetryAfterExtension.constructor | DisableRetryAfter/extension.php:8-23 | the extension starts with an empty list and the switch off |
| DisableRetryAfter.DisableRetryAfterExtension.FeedBeforeActualize | DisableRetryAfter/extension.php:28-37 | returns the same feed; reloads only when the list is empty and the switch off; clears as ProcessFeedForBypass does |
| DisableRetryAfter.DisableRetryAfterExtension.ProcessFeedForBypass | DisableRetryAfter/extension.php:42-72 | asks to clear the feed's domain exactly when it is non-empty and either the switch is on or the list covers it |
| DisableRetryAfter.DisableRetryAfterExtension.ShouldBypassRetryAfter | DisableRetryAfter/extension.php:95-112 | true iff some listed domain equals the domain or is a dot-suffix of it (false for an empty list) |
| DisableRetryAfter.DisableRetryAfterExtension.LoadConfig | DisableRetryAfter/extension.php:189-198 | the list is DomainList of the stored text and the switch is true iff the lower-cased stored value is 1, true, on or yes |
| DisableRetryAfter.DisableRetryAfterExtension.HandleConfigureAction | DisableRetryAfter/extension.php:237-256 | on a POST stores the trimmed domains and "1" exactly when the box was "on"; loaded values are kept |
| AutoTagger.PatternLines | AutoTagger/extension.php:47-61 | definition of one category's pattern list; SplitPatterns is proved equal to it, PatternLinesShape states its shape |
| AutoTagger.MatchedLabels | AutoTagger/extension.php:123-158 | definition of the labels tagEntry collects; CollectLabels is proved equal to it, MatchedLabelsSpec states its meaning |
| AutoTagger.TaggedTags | AutoTagger/extension.php:160-179 | definition of the merged tag list; TagEntry is proved against it, TaggingOnlyAdds and TaggingIdempotent state its properties |
| AutoTagger.CategoriesDistinct | AutoTagger/extension.php:11-19 | the seven categories have distinct keys and display names, none equal to the fallback tag |
| AutoTagger.PatternLinesShape | AutoTagger/extension.php:52-61 | every loaded pattern is non-empty and trimmed |
| AutoTagger.NonBlankShape | AutoTagger/extension.php:56-61 | the inner loop keeps only non-blank trimmed lines, at most one per line |
| AutoTagger.SingleLinePattern | AutoTagger/extension.php:53-61 | a stored string without a line feed gives at most one pattern, itself trimmed |
| AutoTagger.EmptyStringShortcut | AutoTagger/extension.php:47-50 | the test for "" gives the same result as splitting "" |
| AutoTagger.ConfigureRoundTrip | AutoTagger/extension.php:82-93 | after a save, each category's patterns are the lines of its trimmed parameter |
| AutoTagger.MatchedLabelsSpec | AutoTagger/extension.php:123-158 | at most one label per category, and a category's label is there iff one of its patterns matches |
| AutoTagger.NoMatchNoLabels | AutoTagger/extension.php:123-158 | no matching pattern means no label |
| AutoTagger.MatchedLabelsDistinct | AutoTagger/extension.php:123-158 | distinct categories never produce the same label twice |
| AutoTagger.LoadedLabels | AutoTagger/extension.php:38-158 | once loaded, category c's label is collected iff one of c's stored patterns matches, without repeats |
| AutoTagger.TaggingOnlyAdds | AutoTagger/extension.php:162-179 | existing tags survive (in front, in order, when distinct), labels are added, the fallback tag is there when nothing matched, nothing else appears |
| AutoTagger.DedupAppendPresent | AutoTagger/extension.php:166 | array_unique ignores appended values that are already present |
| AutoTagger.TaggingIdempotent | AutoTagger/extension.php:160-179 | tagging twice with the same labels gives the same tags as once |
| AutoTagger.FallbackOnceLoaded | AutoTagger/extension.php:105-179 | once loaded the pattern list is never empty, so an entry nothing matches gets the fallback tag even with no patterns configured |
| AutoTagger.AutoTaggerExtension.Init | AutoTagger/extension.php:26-33 | init loads the patterns from the configuration |
| AutoTagger.AutoTaggerExtension.LoadPatterns | AutoTagger/extension.php:38-65 | all seven categories in declared order, each with the trimmed non-blank lines of its stored string ("" gives none) |
| AutoTagger.AutoTaggerExtension.SplitPatterns | AutoTagger/extension.php:47-63 | the inner loop computes PatternLines |
| AutoTagger.AutoTaggerExtension.HandleConfigureAction | AutoTagger/extension.php:70-96 | patterns are reloaded; on a POST every category's stored value becomes its trimmed parameter |
| AutoTagger.AutoTaggerExtension.StoreParams | AutoTagger/extension.php:82-89 | the loop stores each category's trimmed parameter ("" when absent) |
| AutoTagger.AutoTaggerExtension.CollectLabels | AutoTagger/extension.php:120-158 | the outer loop computes MatchedLabels |
| AutoTagger.AutoTaggerExtension.FirstMatch | AutoTagger/extension.php:128-157 | the inner loop finds a match iff some non-empty pattern matches, stopping at the first |
| AutoTagger.AutoTaggerExtension.TagEntry | AutoTagger/extension.php:105-182 | an unloaded extension leaves the entry alone; otherwise the tags become TaggedTags(old tags, matched labels) and the same entry is returned |
| Text.TrimIdempotent | DailySpread/extension.php:709 | trimming twice is trimming once |
| Text.DedupPrefix | DailySpread/extension.php:726 | array_unique keeps first occurrences: appending never reorders what was kept |
| Text.SuffixMatchesWholeLabels | DailySpread/extension.php:599 | the subdomain test works on whole labels |

## Left out

- I/O and side effects:
  - Reading and saving the configuration store is a field assignment.
  - All logging and message text is left out: `sprintf`, `vsprintf`, `date`, translations, the configure page's notices.
  - `register_shutdown_function` is left out; `ShutdownSave` and `LogAggregatedStats` are the functions it registers.
- `getTimingPreview` (DailySpread/extension.php:487-523) is left out. It is a display built from the feed listing and date strings; its per-feed status is `Followups.DescribeRssHubStatus`.
- DailySpread.DailySpreadExtension.HandleConfigureAction models only the POST path. Its GET branch (DailySpread/extension.php:135-137) only registers translations and returns, so it changes none of the modelled state.
- Exceptions are not modelled. The configuration store cannot fail in the model, so the `try`/`catch` blocks around saves and the configure actions never take their catch branch.
- The feed listing is an argument. A listing that throws is `None`, and the exception's log line is left out.
- The clock:
  - Every `time()` within one call is the same `now`.
  - The 32-/64-bit integer range is not modelled: integers are unbounded, so a timestamp overflow cannot happen in the model.
- `round()` works on floats. The model uses integer round-half-up (`DailySpread.RoundDiv`), which agrees with it for the values involved. The log's period label is left out.
- Keys of the stored queue are read back with `(int)` casts. Collisions between string keys that cast to the same id are not modelled: the stored queue is already a map of ints.
- DailySpread keeps its statistics in static fields shared by all instances. The model keeps them in a field of the one extension object.
- DisableRetryAfter's `clearRetryAfterForDomain` (DisableRetryAfter/extension.php:117-148) probes the host's system configuration for guessed key names. It is modelled as an append to the `cleared` log; what clearing does is left out.
- Regular expressions, `strip_tags` and whitespace collapsing are foreign functions. A pattern PHP cannot compile counts as not matching, and its warning is not logged.
- AutoTagger's configuration is keyed by category. The store's other keys are not part of this model.
- The `empty()` guard of `processFeedForBypass`'s list is folded into `Bypasses`, which is false for an empty list.
- Helper methods:
  - `CleanPiece`, `CleanDomainPiece`, `DropStale`, `ScheduleListed`, `VisitFeed`, `GateQueuedFeed`, `GateBySlot`, `StoreParams`, `FirstMatch` and `SummaryMessages` are inline loop bodies or branches in the source.
  - `WriteDefaults`, `LoadSettings`, `LoadHosts` and `LoadQueue` are the consecutive parts of `initConfig`.
  - They exist only to keep each proof small.
- Text functions work on ASCII characters, one per byte; multi-byte text is not modelled.
- The accessors `getPatternsForCategory`, `getLabelCategories`, `getDomainsInput` and `getDisableAll` are the functions `AutoTaggerExtension.PatternsForCategory`, `Categories` with `DisplayName`, `StoredDomains` and `StoredDisableAll`. They only read the configuration, so they carry no contract of their own.
- TDMchecker/extension.php and TDMchecker/static/tdmchecker.js are not part of this model. They are a call to an external service and browser code.
- Concurrency is not modelled: two refresh processes writing the shared configuration at once fall outside a sequential model.
