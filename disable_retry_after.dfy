/** The DisableRetryAfter extension: a list of bypass domains (or a global switch)
    read from the user configuration, and the feed_before_actualize hook that asks for
    the retry-after state of a feed's domain to be cleared when the domain is listed. */
module DisableRetryAfter {
  import opened Common
  import Text

  /** The class of '/[\r\n,]+/': the domain list is split on line breaks and commas only. */
  const DomainSeparators: set<char> := {'\r', '\n', ','}

  /** The stored flag values loadConfig reads as "disable all", after strtolower. */
  const TrueWords: set<string> := {"1", "true", "on", "yes"}

  // ---------------------------------------------------------------- parseDomains

  /** parse_url($d, PHP_URL_HOST) ?? $d. Only null falls back to d; the false of a URL
      PHP cannot parse goes on to strtolower, which makes it "". */
  function HostOrSelf(u: UrlHost, fallback: string): string
  {
    match u
    case NoHost => fallback
    case Malformed => ""
    case Host(n) => n
  }

  /** The domain one piece of the list contributes: trimmed, reduced to the URL's host
      when it contains "://", lower-cased, leading dots dropped, cut before the first
      ':' (a port); None when nothing is left. */
  function CleanDomain(piece: string, parseHost: HostParser): Option<string>
  {
    var t := Text.Trim(piece);
    if t == "" then None
    else
      var d := Text.BeforeFirst(Text.TrimLeft(Text.ToLower(HostPart(t, parseHost)), {'.'}), ':');
      if d == "" then None else Some(d)
  }

  /** A piece that looks like a URL stands for its host. */
  function HostPart(t: string, parseHost: HostParser): string
  {
    if Text.Contains(t, "://") then HostOrSelf(parseHost(t), t) else t
  }

  /** The `cleaned` list the foreach of parseDomains builds, before array_unique. */
  function CleanDomains(pieces: seq<string>, parseHost: HostParser): seq<string>
    decreases |pieces|
  {
    if pieces == [] then []
    else
      var init := CleanDomains(pieces[..|pieces| - 1], parseHost);
      match CleanDomain(pieces[|pieces| - 1], parseHost)
      case Some(d) => init + [d]
      case None => init
  }

  /** What parseDomains returns for the stored domain text. */
  function DomainList(input: string, parseHost: HostParser): seq<string>
  {
    if input == "" then [] else Text.Dedup(CleanDomains(Text.Split(input, DomainSeparators), parseHost))
  }

  /** The shape every listed domain has. */
  predicate WellShaped(d: string)
  {
    d != "" && d[0] != '.' && ':' !in d && Text.IsLower(d)
  }

  lemma CleanDomainShape(piece: string, parseHost: HostParser)
    ensures CleanDomain(piece, parseHost).Some? ==> WellShaped(CleanDomain(piece, parseHost).value)
  {
    var t := Text.Trim(piece);
    if t != "" {
      var h := HostPart(t, parseHost);
      var l := Text.TrimLeft(Text.ToLower(h), {'.'});
      Text.TrimLeftKeepsLower(Text.ToLower(h), {'.'});
      var d := Text.BeforeFirst(l, ':');
      Text.SuffixKeepsLower(l, |d|);
      if d != "" {
        assert d[0] == l[0];
      }
    }
  }

  lemma CleanDomainsStep(pieces: seq<string>, parseHost: HostParser)
    requires pieces != []
    ensures var c := CleanDomain(pieces[|pieces| - 1], parseHost);
      var ds := CleanDomains(pieces[..|pieces| - 1], parseHost);
      CleanDomains(pieces, parseHost) == if c.Some? then ds + [c.value] else ds
  {
  }

  lemma {:induction false} CleanDomainsShape(pieces: seq<string>, parseHost: HostParser)
    ensures forall d :: d in CleanDomains(pieces, parseHost) ==> WellShaped(d)
    decreases |pieces|
  {
    if pieces != [] {
      var init := pieces[..|pieces| - 1];
      CleanDomainsShape(init, parseHost);
      var c := CleanDomain(pieces[|pieces| - 1], parseHost);
      CleanDomainShape(pieces[|pieces| - 1], parseHost);
      var ds := CleanDomains(init, parseHost);
      CleanDomainsStep(pieces, parseHost);
      if c.Some? {
        AppendKeepsShape(ds, c.value);
      }
    }
  }

  lemma AppendKeepsShape(ds: seq<string>, d: string)
    requires forall x :: x in ds ==> WellShaped(x)
    requires WellShaped(d)
    ensures forall x :: x in ds + [d] ==> WellShaped(x)
  {
  }

  /** The parsed list is duplicate-free, and every domain in it is non-empty, lower
      case, without a leading dot and without a port. */
  lemma DomainListWellFormed(input: string, parseHost: HostParser)
    ensures Text.NoDuplicates(DomainList(input, parseHost))
    ensures forall d :: d in DomainList(input, parseHost) ==> WellShaped(d)
  {
    if input != "" {
      CleanDomainsShape(Text.Split(input, DomainSeparators), parseHost);
    }
  }

  /** Every piece contributes one domain at most. */
  lemma {:induction false} CleanDomainsAtMostPieces(pieces: seq<string>, parseHost: HostParser)
    ensures |CleanDomains(pieces, parseHost)| <= |pieces|
    decreases |pieces|
  {
    if pieces != [] {
      var init := pieces[..|pieces| - 1];
      CleanDomainsAtMostPieces(init, parseHost);
      CleanDomainsStep(pieces, parseHost);
    }
  }

  /** Text without a line break or a comma is one domain at most: spaces, tabs and
      semicolons do not separate entries. */
  lemma SplitsOnlyOnSeparators(input: string, parseHost: HostParser)
    requires Text.NoneOf(input, DomainSeparators)
    ensures |DomainList(input, parseHost)| <= 1
  {
    if input != "" {
      var k := Text.IndexOfAny(input, DomainSeparators);
      assert k == |input|;
      var pieces := Text.Split(input, DomainSeparators);
      assert pieces == [input];
      CleanDomainsAtMostPieces(pieces, parseHost);
    }
  }

  /** parseDomains: "" gives no domains; otherwise split on line breaks and commas,
      clean every piece, and drop repeated domains keeping the first. */
  method ParseDomains(input: string, parseHost: HostParser) returns (domains: seq<string>)
    ensures domains == DomainList(input, parseHost)
  {
    if input == "" {
      return [];
    }
    var pieces := Text.Split(input, DomainSeparators);
    var cleaned := CleanDomainPieces(pieces, parseHost);
    domains := Text.Dedup(cleaned);
  }

  /** The foreach of parseDomains: the cleaned pieces in order, skipped ones left out. */
  method CleanDomainPieces(pieces: seq<string>, parseHost: HostParser) returns (cleaned: seq<string>)
    ensures cleaned == CleanDomains(pieces, parseHost)
  {
    cleaned := [];
    var i := 0;
    while i < |pieces|
      invariant 0 <= i <= |pieces|
      invariant cleaned == CleanDomains(pieces[..i], parseHost)
    {
      assert pieces[..i + 1][..i] == pieces[..i];
      var domain := CleanDomainPiece(pieces[i], parseHost);
      if domain.Some? {
        cleaned := cleaned + [domain.value];
      }
      i := i + 1;
    }
    assert pieces[..|pieces|] == pieces;
  }

  /** The body of parseDomains' loop for one piece; None where it `continue`s or
      the domain comes out empty. */
  method CleanDomainPiece(piece: string, parseHost: HostParser) returns (domain: Option<string>)
    ensures domain == CleanDomain(piece, parseHost)
  {
    var d := Text.Trim(piece);
    if d == "" {
      return None;
    }
    ghost var t := d;
    if Text.Contains(d, "://") {
      d := HostOrSelf(parseHost(d), d);
    }
    assert d == HostPart(t, parseHost);
    d := Text.TrimLeft(Text.ToLower(d), {'.'});
    ghost var l := d;
    if ':' in d {
      d := Text.BeforeFirst(d, ':');
    }
    assert d == Text.BeforeFirst(l, ':');
    if d == "" {
      return None;
    }
    return Some(d);
  }

  // ---------------------------------------------------------------- extractDomain

  /** extractDomain: "" when the URL has no host (or an empty one, or PHP cannot parse
      it), otherwise the lower-cased host cut before the first ':'. */
  function ExtractDomain(host: UrlHost): string
  {
    match host
    case Host(n) => if n == "" then "" else Text.BeforeFirst(Text.ToLower(n), ':')
    case _ => ""
  }

  /** The extracted domain is lower case and has no port; it is the lower-cased host up
      to its first ':' (all of it when the host has no ':'), and it is empty exactly when
      there is no host or the host is empty or starts with ':'. */
  lemma ExtractDomainSpec(host: UrlHost)
    ensures var d := ExtractDomain(host);
      && ':' !in d && Text.IsLower(d)
      && (host.Host? ==> Text.StartsWith(Text.ToLower(host.name), d)
                         && (|d| < |host.name| ==> host.name[|d|] == ':'))
      && (host.Host? && ':' !in host.name ==> d == Text.ToLower(host.name))
      && (d == "" <==> !host.Host? || host.name == "" || host.name[0] == ':')
  {
    if host.Host? && host.name != "" {
      var l := Text.ToLower(host.name);
      var d := Text.BeforeFirst(l, ':');
      Text.SuffixKeepsLower(l, |d|);
      if host.name[0] == ':' {
        assert l[0] == ':';
        assert Text.IndexOfAny(l, {':'}) == 0;
      } else {
        assert l[0] != ':';
        assert d != "";
      }
      if ':' !in host.name {
        assert ':' !in l;
      }
      if |d| < |l| {
        assert l[|d|] == ':';
      }
    }
  }

  // ---------------------------------------------------------------- shouldBypassRetryAfter

  /** The domain is a listed domain or a subdomain of one. */
  predicate Bypasses(domains: seq<string>, domain: string)
  {
    exists i :: 0 <= i < |domains| && Text.IsDomainOrSubdomain(domain, domains[i])
  }

  /** Whether processFeedForBypass asks for the domain to be cleared: never for an empty
      domain; always when everything is disabled; otherwise when the list covers it. */
  predicate Clears(domains: seq<string>, disableAll: bool, domain: string)
  {
    domain != "" && (disableAll || Bypasses(domains, domain))
  }

  /** The strings the configure page stores ("1" or "") read back as what was chosen. */
  function ParseDisableAll(stored: string): bool
  {
    Text.ToLower(stored) in TrueWords
  }

  /** Reading the flag ignores case: "TRUE" and "Yes" disable everything too. */
  lemma ParseDisableAllIgnoresCase(stored: string)
    ensures ParseDisableAll(stored) == ParseDisableAll(Text.ToLower(stored))
  {
    Text.ToLowerKeepsLower(Text.ToLower(stored));
  }

  /** The configure page stores "1" or ""; reading either back gives the choice made. */
  lemma StoredFlagRoundTrip(on: bool)
    ensures ParseDisableAll(if on then "1" else "") == on
  {
    var stored := if on then "1" else "";
    assert Text.IsLower(stored);
    Text.ToLowerKeepsLower(stored);
    assert "" !in TrueWords;
  }

  /** A subdomain of a listed domain is cleared, at any depth. */
  lemma SubdomainIsCleared(domains: seq<string>, i: nat, sub: string, disableAll: bool)
    requires i < |domains|
    ensures Clears(domains, disableAll, sub + "." + domains[i])
  {
    var domain := sub + "." + domains[i];
    var suffix := "." + domains[i];
    assert domain == sub + suffix;
    assert domain[|domain| - |suffix|..] == suffix;
    assert Text.IsDomainOrSubdomain(domain, domains[i]);
  }

  /** The match is on whole labels: with only "example.com" listed and the global switch
      off, "badexample.com" is left alone while "www.example.com" is cleared. */
  lemma WholeLabelsOnly()
    ensures !Clears(["example.com"], false, "badexample.com")
    ensures Clears(["example.com"], false, "www.example.com")
  {
    Text.SuffixMatchesWholeLabels();
    var domains := ["example.com"];
    assert Text.IsDomainOrSubdomain("www.example.com", domains[0]);
  }

  // ---------------------------------------------------------------- the extension

  /** The extension's two keys in the user configuration (None: the key is absent). */
  datatype RetryConf = RetryConf(domains: Option<string>, disableAll: Option<string>)

  class DisableRetryAfterExtension {
    /** parse_url(..., PHP_URL_HOST), used when parsing the domain list. */
    const parseHost: HostParser

    /** The user configuration the extension reads and writes. */
    var conf: RetryConf

    var bypassDomains: seq<string>
    var disableAll: bool

    /** The domains whose retry-after state the extension asked to clear, in order.
        How the clearing is done is not part of the model. */
    var cleared: seq<string>

    /** init() registers the hook and loads nothing: the lists start empty. */
    constructor (parseHost: HostParser, conf: RetryConf)
      ensures this.parseHost == parseHost && this.conf == conf
      ensures bypassDomains == [] && !disableAll && cleared == []
    {
      this.parseHost := parseHost;
      this.conf := conf;
      bypassDomains := [];
      disableAll := false;
      cleared := [];
    }

    /** getDisableAll: the flag as stored, read the way loadConfig reads it. */
    function StoredDisableAll(): bool
      reads this
    {
      ParseDisableAll(conf.disableAll.GetOr(""))
    }

    /** getDomainsInput */
    function StoredDomains(): string
      reads this
    {
      conf.domains.GetOr("")
    }

    /** feedBeforeActualizeHook: load the configuration when the list is empty and the
        global switch is off, then process the feed; the feed itself is always returned. */
    method FeedBeforeActualize(feed: Feed) returns (r: Feed)
      modifies this
      ensures r == feed
      ensures conf == old(conf)
      ensures var reload := old(bypassDomains) == [] && !old(disableAll);
        && (reload ==> bypassDomains == DomainList(StoredDomains(), parseHost) && disableAll == StoredDisableAll())
        && (!reload ==> bypassDomains == old(bypassDomains) && disableAll == old(disableAll))
      ensures var domain := ExtractDomain(feed.host);
        cleared == old(cleared) + (if Clears(bypassDomains, disableAll, domain) then [domain] else [])
    {
      if bypassDomains == [] && !disableAll {
        LoadConfig();
      }
      ProcessFeedForBypass(feed);
      return feed;
    }

    /** processFeedForBypass: ask for the feed's domain to be cleared when it is not
        empty and either everything is disabled or the list covers it. */
    method ProcessFeedForBypass(feed: Feed)
      modifies this
      ensures conf == old(conf) && bypassDomains == old(bypassDomains) && disableAll == old(disableAll)
      ensures var domain := ExtractDomain(feed.host);
        cleared == old(cleared) + (if Clears(bypassDomains, disableAll, domain) then [domain] else [])
    {
      var feedDomain := ExtractDomain(feed.host);
      if feedDomain == "" {
        return;
      }
      if disableAll {
        cleared := cleared + [feedDomain];
        return;
      }
      if bypassDomains == [] {
        return;
      }
      var bypass := ShouldBypassRetryAfter(feedDomain);
      if bypass {
        cleared := cleared + [feedDomain];
      }
    }

    /** shouldBypassRetryAfter: false for an empty list; otherwise true at the first
        listed domain the given one equals or ends with after a dot. */
    method ShouldBypassRetryAfter(domain: string) returns (bypass: bool)
      ensures bypass <==> Bypasses(bypassDomains, domain)
    {
      if bypassDomains == [] {
        return false;
      }
      var i := 0;
      while i < |bypassDomains|
        invariant 0 <= i <= |bypassDomains|
        invariant forall j :: 0 <= j < i ==> !Text.IsDomainOrSubdomain(domain, bypassDomains[j])
      {
        if domain == bypassDomains[i] {
          return true;
        }
        if Text.EndsWith(domain, "." + bypassDomains[i]) {
          return true;
        }
        i := i + 1;
      }
      return false;
    }

    /** loadConfig: parse the stored domain list (missing: "") and the stored flag. */
    method LoadConfig()
      modifies this
      ensures bypassDomains == DomainList(StoredDomains(), parseHost)
      ensures disableAll == StoredDisableAll()
      ensures conf == old(conf) && cleared == old(cleared)
    {
      var domainsInput := conf.domains.GetOr("");
      bypassDomains := ParseDomains(domainsInput, parseHost);
      var disableAllStr := conf.disableAll.GetOr("");
      disableAll := Text.ToLower(disableAllStr) in TrueWords;
    }

    /** handleConfigureAction: on a POST store the trimmed domain text and "1" or ""
        for the check box (a missing box counts as "off"). The loaded list and flag are
        not reloaded. */
    method HandleConfigureAction(isPost: bool, domainsParam: string, disableAllParam: Option<string>)
      modifies this
      ensures bypassDomains == old(bypassDomains) && disableAll == old(disableAll) && cleared == old(cleared)
      ensures !isPost ==> conf == old(conf)
      ensures isPost ==> conf == RetryConf(Some(Text.Trim(domainsParam)),
                                           Some(if disableAllParam.GetOr("off") == "on" then "1" else ""))
      ensures isPost ==> (StoredDisableAll() <==> disableAllParam == Some("on"))
      ensures isPost ==> StoredDomains() == Text.Trim(domainsParam)
    {
      if !isPost {
        return;
      }
      var domainsInput := Text.Trim(domainsParam);
      var on := disableAllParam.GetOr("off") == "on";
      conf := RetryConf(Some(domainsInput), Some(if on then "1" else ""));
      StoredFlagRoundTrip(on);
    }
  }
}
