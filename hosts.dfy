/** DailySpread's RSSHub host list: parsing the configured list (parseHosts) and
    deciding whether a feed's URL host is on it (isRssHubFeed). */
module RssHubHosts {
  import opened Common
  import Text

  /** PCRE's \s (space, tab, LF, VT, FF, CR) and the comma: the class of '/[\s,]+/'. */
  const HostSeparators: set<char> := {' ', '\t', '\n', '\U{B}', '\U{C}', '\r', ','}

  /** parse_url($t, PHP_URL_HOST) ?: $t. PHP's falsy results (null, false, "" and "0")
      fall back to t. */
  function HostOrElse(u: UrlHost, fallback: string): string
  {
    match u
    case Host(n) => if n == "" || n == "0" then fallback else n
    case _ => fallback
  }

  /** The host one piece of the list contributes: trimmed, reduced to the URL's host when
      it contains "://", with leading dots dropped; None when nothing is left. */
  function CleanHost(piece: string, parseHost: HostParser): Option<string>
  {
    var t := Text.Trim(piece);
    if t == "" then None
    else
      var h := if Text.Contains(t, "://") then HostOrElse(parseHost(t), t) else t;
      var d := Text.TrimLeft(h, {'.'});
      if d == "" then None else Some(d)
  }

  /** The `cleaned` list the loop of parseHosts builds from the pieces, before array_unique. */
  function CleanHosts(pieces: seq<string>, parseHost: HostParser): seq<string>
    decreases |pieces|
  {
    if pieces == [] then []
    else
      var init := CleanHosts(pieces[..|pieces| - 1], parseHost);
      match CleanHost(pieces[|pieces| - 1], parseHost)
      case Some(h) => init + [h]
      case None => init
  }

  /** What parseHosts returns for a configured host string. */
  function HostList(input: string, parseHost: HostParser): seq<string>
  {
    Text.Dedup(CleanHosts(Text.Split(Text.ToLower(input), HostSeparators), parseHost))
  }

  /** Every host the list keeps is non-empty and has no leading dot. */
  lemma CleanHostShape(piece: string, parseHost: HostParser)
    ensures CleanHost(piece, parseHost).Some? ==>
      CleanHost(piece, parseHost).value != "" && CleanHost(piece, parseHost).value[0] != '.'
  {
  }

  lemma {:induction false} CleanHostsShape(pieces: seq<string>, parseHost: HostParser)
    ensures forall h :: h in CleanHosts(pieces, parseHost) ==> h != "" && h[0] != '.'
    decreases |pieces|
  {
    if pieces != [] {
      var init := pieces[..|pieces| - 1];
      CleanHostsShape(init, parseHost);
      var c := CleanHost(pieces[|pieces| - 1], parseHost);
      CleanHostShape(pieces[|pieces| - 1], parseHost);
      var hs := CleanHosts(init, parseHost);
      assert CleanHosts(pieces, parseHost) == if c.Some? then hs + [c.value] else hs;
      forall h | h in CleanHosts(pieces, parseHost)
        ensures h != "" && h[0] != '.'
      {
        if h !in hs {
          assert h == c.value;
        }
      }
    }
  }

  /** parse_url's host is a piece of its argument, so it is lower case when the argument is. */
  ghost predicate KeepsLowerCase(parseHost: HostParser)
  {
    forall s :: Text.IsLower(s) && parseHost(s).Host? ==> Text.IsLower(parseHost(s).name)
  }

  lemma CleanHostKeepsLower(piece: string, parseHost: HostParser)
    requires KeepsLowerCase(parseHost) && Text.IsLower(piece)
    ensures CleanHost(piece, parseHost).Some? ==> Text.IsLower(CleanHost(piece, parseHost).value)
  {
    var t := Text.Trim(piece);
    Text.TrimKeepsLower(piece);
    if t != "" {
      var h := if Text.Contains(t, "://") then HostOrElse(parseHost(t), t) else t;
      assert Text.IsLower(h);
      Text.TrimLeftKeepsLower(h, {'.'});
    }
  }

  lemma {:induction false} CleanHostsKeepLower(pieces: seq<string>, parseHost: HostParser)
    requires KeepsLowerCase(parseHost)
    requires forall i :: 0 <= i < |pieces| ==> Text.IsLower(pieces[i])
    ensures forall h :: h in CleanHosts(pieces, parseHost) ==> Text.IsLower(h)
    decreases |pieces|
  {
    if pieces != [] {
      CleanHostsKeepLower(pieces[..|pieces| - 1], parseHost);
      CleanHostKeepsLower(pieces[|pieces| - 1], parseHost);
    }
  }

  /** The parsed host list is duplicate-free and holds no empty host and no host with
      a leading dot; it is lower case when parse_url only returns pieces of its input. */
  lemma HostListWellFormed(input: string, parseHost: HostParser)
    ensures Text.NoDuplicates(HostList(input, parseHost))
    ensures forall h :: h in HostList(input, parseHost) ==> h != "" && h[0] != '.'
    ensures KeepsLowerCase(parseHost) ==> forall h :: h in HostList(input, parseHost) ==> Text.IsLower(h)
  {
    var pieces := Text.Split(Text.ToLower(input), HostSeparators);
    CleanHostsShape(pieces, parseHost);
    if KeepsLowerCase(parseHost) {
      Text.SplitKeepsLower(Text.ToLower(input), HostSeparators);
      CleanHostsKeepLower(pieces, parseHost);
    }
  }

  /** The body of parseHosts' loop for one piece: trim, keep the host of a URL, drop
      leading dots; None when the piece is skipped. */
  method CleanPiece(piece: string, parseHost: HostParser) returns (host: Option<string>)
    ensures host == CleanHost(piece, parseHost)
  {
    var t := Text.Trim(piece);
    if t == "" {
      return None;
    }
    if Text.Contains(t, "://") {
      t := HostOrElse(parseHost(t), t);
    }
    t := Text.TrimLeft(t, {'.'});
    if t == "" {
      return None;
    }
    return Some(t);
  }

  /** parseHosts: split the lower-cased input on whitespace and commas, clean each
      piece, then drop repeated hosts keeping the first. */
  method ParseHosts(input: string, parseHost: HostParser) returns (hosts: seq<string>)
    ensures hosts == HostList(input, parseHost)
  {
    var pieces := Text.Split(Text.ToLower(input), HostSeparators);
    var cleaned := CleanPieces(pieces, parseHost);
    hosts := Text.Dedup(cleaned);
  }

  /** The foreach of parseHosts: the cleaned pieces in order, skipped ones left out. */
  method CleanPieces(pieces: seq<string>, parseHost: HostParser) returns (cleaned: seq<string>)
    ensures cleaned == CleanHosts(pieces, parseHost)
  {
    cleaned := [];
    var i := 0;
    while i < |pieces|
      invariant 0 <= i <= |pieces|
      invariant cleaned == CleanHosts(pieces[..i], parseHost)
    {
      assert pieces[..i + 1][..i] == pieces[..i];
      var host := CleanPiece(pieces[i], parseHost);
      if host.Some? {
        cleaned := cleaned + [host.value];
      }
      i := i + 1;
    }
    assert pieces[..|pieces|] == pieces;
  }

  // ---------------------------------------------------------------- isRssHubFeed

  /** strtolower(parse_url(url, PHP_URL_HOST) ?? ''): a URL PHP cannot parse gives
      false, which lower-cases to "". */
  function FeedHost(feed: Feed): string
  {
    match feed.host
    case Host(n) => Text.ToLower(n)
    case _ => ""
  }

  /** The foreach over the allowed hosts, returning at the first match. */
  function MatchesAnyHost(host: string, allowed: seq<string>): (r: bool)
    ensures r <==> exists i :: 0 <= i < |allowed| && Text.IsDomainOrSubdomain(host, allowed[i])
    decreases |allowed|
  {
    if allowed == [] then false
    else Text.IsDomainOrSubdomain(host, allowed[0]) || MatchesAnyHost(host, allowed[1..])
  }

  /** isRssHubFeed: the feed's host is non-empty and is an allowed host or a subdomain of one. */
  function IsRssHubFeed(hosts: seq<string>, feed: Feed): (r: bool)
    ensures r <==> FeedHost(feed) != ""
                   && exists i :: 0 <= i < |hosts| && Text.IsDomainOrSubdomain(FeedHost(feed), hosts[i])
  {
    if hosts == [] then false
    else
      var host := FeedHost(feed);
      if host == "" then false else MatchesAnyHost(host, hosts)
  }
}
