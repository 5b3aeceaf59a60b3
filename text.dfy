/** The string functions of PHP's library that the extensions rely on (strtolower,
    trim, ltrim, str_contains, str_ends_with, explode, preg_split on a character
    class, array_unique), written out over ASCII text. A PHP string is a byte
    string; here each byte is one char. */
module Text {

  // ---------------------------------------------------------------- case

  predicate IsUpper(c: char) { 'A' <= c <= 'Z' }

  function LowerChar(c: char): char
  {
    if IsUpper(c) then (c as int - 'A' as int + 'a' as int) as char else c
  }

  /** No character of s is an ASCII capital. */
  predicate IsLower(s: string)
  {
    forall i :: 0 <= i < |s| ==> !IsUpper(s[i])
  }

  /** strtolower as of PHP 8.2: ASCII letters only, whatever the locale. */
  function ToLower(s: string): (r: string)
    ensures |r| == |s| && IsLower(r)
    ensures forall i :: 0 <= i < |s| ==> (r[i] == s[i] <==> !IsUpper(s[i]))
  {
    seq(|s|, i requires 0 <= i < |s| => LowerChar(s[i]))
  }

  lemma ToLowerKeepsLower(s: string)
    requires IsLower(s)
    ensures ToLower(s) == s
  {
  }

  // ---------------------------------------------------------------- searching

  predicate StartsWith(s: string, prefix: string)
  {
    |prefix| <= |s| && s[..|prefix|] == prefix
  }

  /** str_ends_with */
  predicate EndsWith(s: string, suffix: string)
  {
    |suffix| <= |s| && s[|s| - |suffix|..] == suffix
  }

  /** str_contains */
  predicate Contains(s: string, sub: string)
    decreases |s|
  {
    StartsWith(s, sub) || (s != [] && Contains(s[1..], sub))
  }

  /** The position of the first character of s that belongs to cs, or |s|. */
  function IndexOfAny(s: string, cs: set<char>): (k: nat)
    ensures k <= |s|
    ensures forall i :: 0 <= i < k ==> s[i] !in cs
    ensures k < |s| ==> s[k] in cs
    decreases |s|
  {
    if s == [] || s[0] in cs then 0 else 1 + IndexOfAny(s[1..], cs)
  }

  /** The length of the longest prefix of s made of characters of cs. */
  function SpanOf(s: string, cs: set<char>): (k: nat)
    ensures k <= |s|
    ensures forall i :: 0 <= i < k ==> s[i] in cs
    ensures k < |s| ==> s[k] !in cs
    decreases |s|
  {
    if s == [] || s[0] !in cs then 0 else 1 + SpanOf(s[1..], cs)
  }

  predicate NoneOf(s: string, cs: set<char>)
  {
    forall i :: 0 <= i < |s| ==> s[i] !in cs
  }

  /** explode($c, $s, 2)[0]: the text before the first c, or all of s. */
  function BeforeFirst(s: string, c: char): (r: string)
    ensures StartsWith(s, r)
    ensures c !in r
    ensures |r| < |s| ==> s[|r|] == c
    ensures c !in s ==> r == s
  {
    s[..IndexOfAny(s, {c})]
  }

  // ---------------------------------------------------------------- trimming

  /** The characters trim() strips by default: space, tab, LF, CR, NUL, vertical tab. */
  const TrimChars: set<char> := {' ', '\t', '\n', '\r', '\0', '\U{B}'}

  /** ltrim($s, $cs): drops the leading characters that belong to cs. */
  function TrimLeft(s: string, cs: set<char>): (r: string)
    ensures |r| <= |s| && r == s[|s| - |r|..]
    ensures r != [] ==> r[0] !in cs
    ensures forall i :: 0 <= i < |s| - |r| ==> s[i] in cs
    decreases |s|
  {
    if s != [] && s[0] in cs then TrimLeft(s[1..], cs) else s
  }

  /** rtrim($s, $cs): drops the trailing characters that belong to cs. */
  function TrimRight(s: string, cs: set<char>): (r: string)
    ensures |r| <= |s| && r == s[..|r|]
    ensures r != [] ==> r[|r| - 1] !in cs
    ensures forall i :: |r| <= i < |s| ==> s[i] in cs
    decreases |s|
  {
    if s != [] && s[|s| - 1] in cs then TrimRight(s[..|s| - 1], cs) else s
  }

  /** trim($s) */
  function Trim(s: string): string
  {
    TrimRight(TrimLeft(s, TrimChars), TrimChars)
  }

  /** Trimming twice is trimming once: what trim() returns has no blank at either end. */
  lemma TrimIdempotent(s: string)
    ensures Trim(Trim(s)) == Trim(s)
  {
    var t := Trim(s);
    var l := TrimLeft(s, TrimChars);
    if t != [] {
      assert t[0] == l[0];
    }
    assert TrimLeft(t, TrimChars) == t;
  }

  lemma SuffixKeepsLower(s: string, k: nat)
    requires IsLower(s) && k <= |s|
    ensures IsLower(s[k..]) && IsLower(s[..k])
  {
    assert forall i :: 0 <= i < |s| - k ==> s[k..][i] == s[k + i];
  }

  lemma TrimLeftKeepsLower(s: string, cs: set<char>)
    requires IsLower(s)
    ensures IsLower(TrimLeft(s, cs))
  {
    SuffixKeepsLower(s, |s| - |TrimLeft(s, cs)|);
  }

  lemma TrimKeepsLower(s: string)
    requires IsLower(s)
    ensures IsLower(Trim(s))
  {
    var l := TrimLeft(s, TrimChars);
    TrimLeftKeepsLower(s, TrimChars);
    SuffixKeepsLower(l, |Trim(s)|);
  }

  // ---------------------------------------------------------------- splitting

  /** preg_split('/[cs]+/', $s): the pieces between maximal runs of separators.
      A leading or trailing run gives an empty first or last piece, and "" gives [""]. */
  function Split(s: string, seps: set<char>): (pieces: seq<string>)
    ensures |pieces| >= 1
    ensures forall i :: 0 <= i < |pieces| ==> NoneOf(pieces[i], seps)
    decreases |s|
  {
    var k := IndexOfAny(s, seps);
    if k == |s| then [s]
    else
      var j := k + SpanOf(s[k..], seps);
      [s[..k]] + Split(s[j..], seps)
  }

  /** Every piece of a lower-case string is lower case. */
  lemma {:induction false} SplitKeepsLower(s: string, seps: set<char>)
    requires IsLower(s)
    ensures forall i :: 0 <= i < |Split(s, seps)| ==> IsLower(Split(s, seps)[i])
    decreases |s|
  {
    var k := IndexOfAny(s, seps);
    if k < |s| {
      var j := k + SpanOf(s[k..], seps);
      SuffixKeepsLower(s, k);
      SuffixKeepsLower(s, j);
      SplitKeepsLower(s[j..], seps);
    }
  }

  /** preg_split('/\r?\n/', $s): the lines of s, each without its line break
      (a CR right before the LF belongs to the break). */
  function Lines(s: string): (lines: seq<string>)
    ensures |lines| >= 1
    ensures forall i :: 0 <= i < |lines| ==> NoneOf(lines[i], {'\n'})
    decreases |s|
  {
    var k := IndexOfAny(s, {'\n'});
    if k == |s| then [s]
    else [DropFinalCR(s[..k])] + Lines(s[k + 1..])
  }

  function DropFinalCR(line: string): string
  {
    if line != [] && line[|line| - 1] == '\r' then line[..|line| - 1] else line
  }

  // ---------------------------------------------------------------- deduplication

  predicate NoDuplicates(xs: seq<string>)
  {
    forall i, j :: 0 <= i < j < |xs| ==> xs[i] != xs[j]
  }

  /** array_values(array_unique($xs)): the first occurrence of every value, in order. */
  function Dedup(xs: seq<string>): (r: seq<string>)
    ensures NoDuplicates(r)
    ensures forall x :: x in r <==> x in xs
    ensures |r| <= |xs|
    decreases |xs|
  {
    if xs == [] then []
    else
      var d := Dedup(xs[..|xs| - 1]);
      if xs[|xs| - 1] in d then d else d + [xs[|xs| - 1]]
  }

  /** Appending values never reorders or drops what deduplication already kept:
      the result for xs is a prefix of the result for xs + ys. */
  lemma {:induction false} DedupPrefix(xs: seq<string>, ys: seq<string>)
    ensures |Dedup(xs)| <= |Dedup(xs + ys)|
    ensures Dedup(xs + ys)[..|Dedup(xs)|] == Dedup(xs)
    decreases |ys|
  {
    if ys == [] {
      assert xs + ys == xs;
    } else {
      var zs := xs + ys;
      assert zs[..|zs| - 1] == xs + ys[..|ys| - 1];
      DedupPrefix(xs, ys[..|ys| - 1]);
    }
  }

  /** A list without duplicates is its own deduplication. */
  lemma {:induction false} DedupOfDistinct(xs: seq<string>)
    requires NoDuplicates(xs)
    ensures Dedup(xs) == xs
    decreases |xs|
  {
    if xs != [] {
      var init := xs[..|xs| - 1];
      DedupOfDistinct(init);
      assert xs[|xs| - 1] !in init;
      assert init + [xs[|xs| - 1]] == xs;
    }
  }

  // ---------------------------------------------------------------- numbers and domains

  function DigitChar(d: nat): char
    requires d < 10
  {
    ('0' as int + d) as char
  }

  function NatDigits(n: nat): string
    decreases n
  {
    if n < 10 then [DigitChar(n)] else NatDigits(n / 10) + [DigitChar(n % 10)]
  }

  /** sprintf('%d', $n) */
  function DecimalString(n: int): string
  {
    if n < 0 then "-" + NatDigits(-n) else NatDigits(n)
  }

  /** host is domain itself or one of its subdomains: equal, or ending with '.' + domain. */
  predicate IsDomainOrSubdomain(host: string, domain: string)
  {
    host == domain || EndsWith(host, "." + domain)
  }

  /** The suffix test is on whole labels: "badexample.com" is not under "example.com",
      while "www.example.com" is. */
  lemma SuffixMatchesWholeLabels()
    ensures !IsDomainOrSubdomain("badexample.com", "example.com")
    ensures IsDomainOrSubdomain("www.example.com", "example.com")
  {
    var bad := "badexample.com";
    assert bad[|bad| - |".example.com"|..][0] == 'd';
    var good := "www.example.com";
    assert good[|good| - |".example.com"|..] == ".example.com";
  }
}
