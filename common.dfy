/** Values shared by the three extensions: the host's feed as the hooks see it,
    and what PHP's parse_url() gives back for the host component of a URL. */
module Common {

  datatype Option<+T> = None | Some(value: T) {
    function GetOr(default: T): T
    {
      match this
      case Some(v) => v
      case None => default
    }
  }

  /** parse_url($s, PHP_URL_HOST): null when the URL has no host part, false when
      PHP cannot parse the URL at all, otherwise the host text as written. */
  datatype UrlHost = NoHost | Malformed | Host(name: string)

  /** parse_url is a library function the extensions do not own. */
  type HostParser = string -> UrlHost

  /** A feed presented to the feed_before_actualize hook.
      url is the URL without credentials (what url(includeCredentials: false) returns),
      host is parse_url(url, PHP_URL_HOST), i.e. what a HostParser gives for url, taken
      once when the feed is built (no property here relates a feed's url to its host),
      lastUpdate is in epoch seconds (0 = never fetched),
      and defaultTtl tells whether the feed uses the host's default refresh interval. */
  datatype Feed = Feed(id: int, url: string, host: UrlHost, lastUpdate: int, defaultTtl: bool)
}
