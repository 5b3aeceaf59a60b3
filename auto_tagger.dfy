/** The AutoTagger extension: per category, a list of user patterns read from the
    configuration; before an entry is inserted, every category with a matching pattern
    adds its display name to the entry's tags, and an entry nothing matched is marked
    as checked instead. */
module AutoTagger {
  import Text

  // ---------------------------------------------------------------- categories

  /** The seven label categories, in the order they are declared and iterated. */
  datatype Category =
    | DealTerms | ShoppingEvents | UrgencyTerms | PromotionalCodes
    | CallToAction | AffiliateMarkers | DiscountPatterns

  const Categories: seq<Category> :=
    [DealTerms, ShoppingEvents, UrgencyTerms, PromotionalCodes, CallToAction, AffiliateMarkers, DiscountPatterns]

  /** The category's key, as used in configuration keys and request parameters. */
  function KeyName(c: Category): string
  {
    match c
    case DealTerms => "dealTerms"
    case ShoppingEvents => "shoppingEvents"
    case UrgencyTerms => "urgencyTerms"
    case PromotionalCodes => "promotionalCodes"
    case CallToAction => "callToAction"
    case AffiliateMarkers => "affiliateMarkers"
    case DiscountPatterns => "discountPatterns"
  }

  /** The label a matching category puts on an entry (getLabelCategories). */
  function DisplayName(c: Category): string
  {
    match c
    case DealTerms => "Deal Terms"
    case ShoppingEvents => "Shopping Events"
    case UrgencyTerms => "Urgency Terms"
    case PromotionalCodes => "Promotional Codes"
    case CallToAction => "Call to Action"
    case AffiliateMarkers => "Affiliate Markers"
    case DiscountPatterns => "Discount Patterns"
  }

  const PARAM_PREFIX: string := "autotagger_"

  /** The tag an entry gets when no category matched. */
  const CHECKED_TAG: string := "Checked by AutoTagger"

  function ParamName(c: Category): string
  {
    PARAM_PREFIX + KeyName(c)
  }

  /** Where a category sits in the declared order. */
  function IndexOf(c: Category): (j: nat)
    ensures j < |Categories| && Categories[j] == c
  {
    match c
    case DealTerms => 0
    case ShoppingEvents => 1
    case UrgencyTerms => 2
    case PromotionalCodes => 3
    case CallToAction => 4
    case AffiliateMarkers => 5
    case DiscountPatterns => 6
  }

  /** Different categories have different keys and different labels, and none of
      the labels is the fallback tag. */
  lemma CategoriesDistinct(c: Category, d: Category)
    ensures c != d ==> KeyName(c) != KeyName(d) && DisplayName(c) != DisplayName(d)
    ensures DisplayName(c) != CHECKED_TAG
  {
  }

  // ---------------------------------------------------------------- loadPatterns

  /** The trimmed lines that are not blank, in order. */
  function NonBlank(lines: seq<string>): seq<string>
    decreases |lines|
  {
    if lines == [] then []
    else
      var init := NonBlank(lines[..|lines| - 1]);
      var line := Text.Trim(lines[|lines| - 1]);
      if line != "" then init + [line] else init
  }

  /** The patterns one stored string holds: none for "", otherwise its trimmed
      non-blank lines (lines end at LF or CR LF). */
  function PatternLines(raw: string): seq<string>
  {
    if raw == "" then [] else NonBlank(Text.Lines(raw))
  }

  /** The stored patterns of a category ("" when the key is missing). */
  function StoredPatterns(conf: map<Category, string>, c: Category): string
  {
    if c in conf then conf[c] else ""
  }

  /** A category with the patterns loaded for it. */
  datatype CategoryPatterns = CategoryPatterns(category: Category, patterns: seq<string>)

  function LoadedCategory(conf: map<Category, string>, c: Category): CategoryPatterns
  {
    CategoryPatterns(c, PatternLines(StoredPatterns(conf, c)))
  }

  /** ps is what loadPatterns builds from conf: all seven categories in declared order,
      each with the patterns of its stored string. */
  predicate IsLoadedFrom(ps: seq<CategoryPatterns>, conf: map<Category, string>)
  {
    |ps| == |Categories| && forall j :: 0 <= j < |ps| ==> ps[j] == LoadedCategory(conf, Categories[j])
  }

  lemma {:induction false} NonBlankShape(lines: seq<string>)
    ensures forall p :: p in NonBlank(lines) ==> p != "" && Text.Trim(p) == p
    ensures |NonBlank(lines)| <= |lines|
    decreases |lines|
  {
    if lines != [] {
      var init := lines[..|lines| - 1];
      NonBlankShape(init);
      Text.TrimIdempotent(lines[|lines| - 1]);
    }
  }

  /** Every loaded pattern is non-empty and has no blank at either end. */
  lemma PatternLinesShape(raw: string)
    ensures forall p :: p in PatternLines(raw) ==> p != "" && Text.Trim(p) == p
  {
    if raw != "" {
      NonBlankShape(Text.Lines(raw));
    }
  }

  /** A stored string without a line feed is one pattern at most: itself, trimmed. */
  lemma SingleLinePattern(raw: string)
    requires Text.NoneOf(raw, {'\n'})
    ensures PatternLines(raw) == if Text.Trim(raw) == "" then [] else [Text.Trim(raw)]
  {
    if raw != "" {
      var k := Text.IndexOfAny(raw, {'\n'});
      assert k == |raw|;
      assert Text.Lines(raw) == [raw];
      assert [raw][..0] == [];
      assert NonBlank([raw]) == if Text.Trim(raw) != "" then [Text.Trim(raw)] else [];
    } else {
      assert Text.Trim(raw) == "";
    }
  }

  /** The `raw === ''` test is a shortcut: the lines of "" are one blank line. */
  lemma EmptyStringShortcut(raw: string)
    ensures PatternLines(raw) == NonBlank(Text.Lines(raw))
  {
    if raw == "" {
      assert Text.IndexOfAny(raw, {'\n'}) == 0;
      assert Text.Lines(raw) == [""];
      assert Text.Trim("") == "";
      assert Text.Lines(raw)[..0] == [];
    }
  }

  // ---------------------------------------------------------------- configure

  /** The value handleConfigureAction stores for a category: its request parameter,
      trimmed ("" when absent). */
  function ParamValue(params: map<string, string>, c: Category): string
  {
    Text.Trim(if ParamName(c) in params then params[ParamName(c)] else "")
  }

  /** After a saved configure action, each category's patterns are the lines of its
      trimmed parameter. */
  lemma ConfigureRoundTrip(conf: map<Category, string>, params: map<string, string>, ps: seq<CategoryPatterns>)
    requires forall c :: c in conf && conf[c] == ParamValue(params, c)
    requires IsLoadedFrom(ps, conf)
    ensures forall c :: ps[IndexOf(c)] == CategoryPatterns(c, PatternLines(ParamValue(params, c)))
  {
    forall c
      ensures ps[IndexOf(c)] == CategoryPatterns(c, PatternLines(ParamValue(params, c)))
    {
      assert ps[IndexOf(c)] == LoadedCategory(conf, Categories[IndexOf(c)]);
    }
  }

  // ---------------------------------------------------------------- matching

  /** Some non-empty pattern of the list matches the text. */
  predicate AnyMatch(pats: seq<string>, matches: (string, string) -> bool, text: string)
  {
    exists k :: 0 <= k < |pats| && pats[k] != "" && matches(pats[k], text)
  }

  /** The labels tagEntry collects: in category order, the display name of every
      category one of whose patterns matches. */
  function MatchedLabels(ps: seq<CategoryPatterns>, matches: (string, string) -> bool, text: string): seq<string>
    decreases |ps|
  {
    if ps == [] then []
    else
      var init := MatchedLabels(ps[..|ps| - 1], matches, text);
      var last := ps[|ps| - 1];
      if AnyMatch(last.patterns, matches, text) then init + [DisplayName(last.category)] else init
  }

  /** A category adds one label at most, and a label is there exactly when its
      category has a matching pattern. */
  lemma {:induction false} MatchedLabelsSpec(ps: seq<CategoryPatterns>, matches: (string, string) -> bool, text: string)
    ensures |MatchedLabels(ps, matches, text)| <= |ps|
    ensures forall l :: l in MatchedLabels(ps, matches, text) <==>
      exists j :: 0 <= j < |ps| && AnyMatch(ps[j].patterns, matches, text) && l == DisplayName(ps[j].category)
    decreases |ps|
  {
    if ps != [] {
      var init := ps[..|ps| - 1];
      MatchedLabelsSpec(init, matches, text);
      forall l
        ensures l in MatchedLabels(ps, matches, text) <==>
          exists j :: 0 <= j < |ps| && AnyMatch(ps[j].patterns, matches, text) && l == DisplayName(ps[j].category)
      {
        if exists j :: 0 <= j < |ps| && AnyMatch(ps[j].patterns, matches, text) && l == DisplayName(ps[j].category) {
          var j :| 0 <= j < |ps| && AnyMatch(ps[j].patterns, matches, text) && l == DisplayName(ps[j].category);
          if j < |ps| - 1 {
            assert init[j] == ps[j];
          }
        }
        if l in MatchedLabels(init, matches, text) {
          var j :| 0 <= j < |init| && AnyMatch(init[j].patterns, matches, text) && l == DisplayName(init[j].category);
          assert ps[j] == init[j];
        }
      }
    }
  }

  /** When no category has a matching pattern, no label is collected. */
  lemma {:induction false} NoMatchNoLabels(ps: seq<CategoryPatterns>, matches: (string, string) -> bool, text: string)
    requires forall j :: 0 <= j < |ps| ==> !AnyMatch(ps[j].patterns, matches, text)
    ensures MatchedLabels(ps, matches, text) == []
    decreases |ps|
  {
    if ps != [] {
      NoMatchNoLabels(ps[..|ps| - 1], matches, text);
    }
  }

  /** With categories that differ, no label is collected twice. */
  lemma {:induction false} MatchedLabelsDistinct(ps: seq<CategoryPatterns>, matches: (string, string) -> bool, text: string)
    requires forall i, j :: 0 <= i < j < |ps| ==> ps[i].category != ps[j].category
    ensures Text.NoDuplicates(MatchedLabels(ps, matches, text))
    decreases |ps|
  {
    if ps != [] {
      var init := ps[..|ps| - 1];
      var last := ps[|ps| - 1];
      MatchedLabelsDistinct(init, matches, text);
      MatchedLabelsSpec(init, matches, text);
      if DisplayName(last.category) in MatchedLabels(init, matches, text) {
        var j :| 0 <= j < |init| && AnyMatch(init[j].patterns, matches, text)
          && DisplayName(last.category) == DisplayName(init[j].category);
        assert init[j] == ps[j];
        CategoriesDistinct(init[j].category, last.category);
        assert false;
      }
    }
  }

  /** Once the patterns are loaded, an entry gets category c's label exactly when one of
      c's stored patterns matches, and never the same label twice. */
  lemma LoadedLabels(conf: map<Category, string>, ps: seq<CategoryPatterns>, matches: (string, string) -> bool, text: string)
    requires IsLoadedFrom(ps, conf)
    ensures forall c :: DisplayName(c) in MatchedLabels(ps, matches, text) <==>
      AnyMatch(PatternLines(StoredPatterns(conf, c)), matches, text)
    ensures Text.NoDuplicates(MatchedLabels(ps, matches, text))
  {
    MatchedLabelsSpec(ps, matches, text);
    forall c
      ensures DisplayName(c) in MatchedLabels(ps, matches, text) <==>
        AnyMatch(PatternLines(StoredPatterns(conf, c)), matches, text)
    {
      var k := IndexOf(c);
      assert ps[k] == LoadedCategory(conf, c);
      if DisplayName(c) in MatchedLabels(ps, matches, text) {
        var j :| 0 <= j < |ps| && AnyMatch(ps[j].patterns, matches, text) && DisplayName(c) == DisplayName(ps[j].category);
        CategoriesDistinct(c, ps[j].category);
        assert ps[j].category == Categories[j];
      }
    }
    forall i, j | 0 <= i < j < |ps|
      ensures ps[i].category != ps[j].category
    {
      assert ps[i].category == Categories[i] && ps[j].category == Categories[j];
    }
    MatchedLabelsDistinct(ps, matches, text);
  }

  // ---------------------------------------------------------------- tags

  /** The tags tagEntry leaves on an entry with existing tags and collected labels:
      the existing tags followed by the labels, repeats dropped; with no label, the
      fallback tag appended unless it is already there. */
  function TaggedTags(existing: seq<string>, labels: seq<string>): seq<string>
  {
    if labels != [] then Text.Dedup(existing + labels)
    else if CHECKED_TAG in existing then existing
    else Text.Dedup(existing + [CHECKED_TAG])
  }

  /** Tagging only adds: every existing tag survives, every label is added (the
      fallback tag when there is none), and nothing else appears. When the entry had no
      repeated tag, the existing tags keep their places at the front. */
  lemma TaggingOnlyAdds(existing: seq<string>, labels: seq<string>)
    ensures var tags := TaggedTags(existing, labels);
      && (forall t :: t in existing ==> t in tags)
      && (forall l :: l in labels ==> l in tags)
      && (labels == [] ==> CHECKED_TAG in tags)
      && (forall t :: t in tags ==> t in existing || t in labels || (labels == [] && t == CHECKED_TAG))
      && (Text.NoDuplicates(existing) ==> |existing| <= |tags| && tags[..|existing|] == existing)
  {
    var tags := TaggedTags(existing, labels);
    if Text.NoDuplicates(existing) {
      Text.DedupOfDistinct(existing);
      if labels != [] {
        Text.DedupPrefix(existing, labels);
      } else if CHECKED_TAG !in existing {
        Text.DedupPrefix(existing, [CHECKED_TAG]);
      }
    }
  }

  /** Appending values that are already there changes nothing after deduplication. */
  lemma {:induction false} DedupAppendPresent(xs: seq<string>, ys: seq<string>)
    requires forall y :: y in ys ==> y in xs
    ensures Text.Dedup(xs + ys) == Text.Dedup(xs)
    decreases |ys|
  {
    if ys == [] {
      assert xs + ys == xs;
    } else {
      var zs := xs + ys;
      assert zs[..|zs| - 1] == xs + ys[..|ys| - 1];
      DedupAppendPresent(xs, ys[..|ys| - 1]);
      assert zs[|zs| - 1] in ys;
    }
  }

  /** Tagging an entry a second time with the same labels changes nothing. */
  lemma TaggingIdempotent(existing: seq<string>, labels: seq<string>)
    ensures TaggedTags(TaggedTags(existing, labels), labels) == TaggedTags(existing, labels)
  {
    var once := TaggedTags(existing, labels);
    if labels != [] {
      DedupAppendPresent(once, labels);
      Text.DedupOfDistinct(once);
    }
  }

  // ---------------------------------------------------------------- the extension

  /** The part of an entry tagEntry reads and writes. */
  class Entry {
    var title: string
    var content: string
    var tags: seq<string>

    constructor (title: string, content: string, tags: seq<string>)
      ensures this.title == title && this.content == content && this.tags == tags
    {
      this.title := title;
      this.content := content;
      this.tags := tags;
    }
  }

  class AutoTaggerExtension {
    /** preg_match('/' . pattern . '/i', text) == 1; false also for a pattern PHP cannot
        compile. */
    const matches: (string, string) -> bool
    /** strip_tags */
    const stripTags: string -> string
    /** preg_replace('/\s+/', ' ', text) */
    const collapseSpace: string -> string

    /** The user configuration the extension reads and writes. */
    var conf: map<Category, string>
    /** Category => patterns, in the order the categories were loaded. */
    var patterns: seq<CategoryPatterns>

    /** The extension as constructed, before the host calls init(): nothing loaded. */
    constructor (matches: (string, string) -> bool, stripTags: string -> string,
                 collapseSpace: string -> string, conf: map<Category, string>)
      ensures this.matches == matches && this.stripTags == stripTags && this.collapseSpace == collapseSpace
      ensures this.conf == conf && patterns == []
    {
      this.matches := matches;
      this.stripTags := stripTags;
      this.collapseSpace := collapseSpace;
      this.conf := conf;
      patterns := [];
    }

    /** init(): hook registration aside, it loads the patterns. */
    method Init()
      modifies this
      ensures conf == old(conf) && IsLoadedFrom(patterns, conf)
    {
      LoadPatterns();
    }

    /** The text the patterns are matched against. */
    function TextToMatch(e: Entry): string
      reads e
    {
      collapseSpace(e.title + " " + stripTags(e.content))
    }

    /** getPatternsForCategory */
    function PatternsForCategory(category: Category): string
      reads this
    {
      StoredPatterns(conf, category)
    }

    /** loadPatterns: rebuild the pattern list from the configuration, one category
        after the other. */
    method LoadPatterns()
      modifies this
      ensures conf == old(conf) && IsLoadedFrom(patterns, conf)
    {
      patterns := [];
      var i := 0;
      while i < |Categories|
        invariant 0 <= i <= |Categories| && conf == old(conf)
        invariant |patterns| == i
        invariant forall j :: 0 <= j < i ==> patterns[j] == LoadedCategory(conf, Categories[j])
      {
        var category := Categories[i];
        var raw := StoredPatterns(conf, category);
        var lines := SplitPatterns(raw);
        patterns := patterns + [CategoryPatterns(category, lines)];
        i := i + 1;
      }
    }

    /** The inner part of loadPatterns for one stored string. */
    static method SplitPatterns(raw: string) returns (pats: seq<string>)
      ensures pats == PatternLines(raw)
    {
      if raw == "" {
        return [];
      }
      var lines := Text.Lines(raw);
      pats := [];
      var i := 0;
      while i < |lines|
        invariant 0 <= i <= |lines|
        invariant pats == NonBlank(lines[..i])
      {
        assert lines[..i + 1][..i] == lines[..i];
        var line := Text.Trim(lines[i]);
        if line != "" {
          pats := pats + [line];
        }
        i := i + 1;
      }
      assert lines[..|lines|] == lines;
    }

    /** handleConfigureAction: load the patterns; on a POST store every category's
        trimmed parameter and load them again. */
    method HandleConfigureAction(isPost: bool, params: map<string, string>)
      modifies this
      ensures IsLoadedFrom(patterns, conf)
      ensures !isPost ==> conf == old(conf)
      ensures isPost ==> forall c :: c in conf && conf[c] == ParamValue(params, c)
    {
      LoadPatterns();
      if !isPost {
        return;
      }
      StoreParams(params);
      LoadPatterns();
    }

    /** The foreach of handleConfigureAction that writes the configuration. */
    method StoreParams(params: map<string, string>)
      modifies this
      ensures forall c :: c in conf && conf[c] == ParamValue(params, c)
      ensures patterns == old(patterns)
    {
      var i := 0;
      while i < |Categories|
        invariant 0 <= i <= |Categories| && patterns == old(patterns)
        invariant forall j :: 0 <= j < i ==> Categories[j] in conf && conf[Categories[j]] == ParamValue(params, Categories[j])
      {
        var category := Categories[i];
        var value := ParamValue(params, category);
        conf := conf[category := value];
        i := i + 1;
      }
      forall c
        ensures c in conf && conf[c] == ParamValue(params, c)
      {
        assert Categories[IndexOf(c)] == c;
      }
    }

    /** The labels of the categories with a matching pattern, in category order:
        the outer loop of tagEntry, its inner loop stopping at the first match. */
    method CollectLabels(text: string) returns (labels: seq<string>)
      ensures labels == MatchedLabels(patterns, matches, text)
    {
      labels := [];
      var i := 0;
      while i < |patterns|
        invariant 0 <= i <= |patterns|
        invariant labels == MatchedLabels(patterns[..i], matches, text)
      {
        assert patterns[..i + 1][..i] == patterns[..i];
        var category := patterns[i].category;
        var pats := patterns[i].patterns;
        if pats != [] {
          var found := FirstMatch(pats, text);
          if found {
            labels := labels + [DisplayName(category)];
          }
        }
        i := i + 1;
      }
      assert patterns[..|patterns|] == patterns;
    }

    /** The inner loop of tagEntry: try the patterns in order, skipping empty ones,
        and stop at the first that matches. */
    method FirstMatch(pats: seq<string>, text: string) returns (found: bool)
      ensures found <==> AnyMatch(pats, matches, text)
    {
      var j := 0;
      while j < |pats|
        invariant 0 <= j <= |pats|
        invariant forall k :: 0 <= k < j ==> !(pats[k] != "" && matches(pats[k], text))
      {
        if pats[j] != "" && matches(pats[j], text) {
          return true;
        }
        j := j + 1;
      }
      return false;
    }

    /** tagEntry: with nothing loaded the entry is returned as it is; otherwise its
        tags become TaggedTags of its old tags and the labels that matched. */
    method TagEntry(entry: Entry) returns (r: Entry)
      modifies entry
      ensures r == entry
      ensures entry.title == old(entry.title) && entry.content == old(entry.content)
      ensures patterns == [] ==> entry.tags == old(entry.tags)
      ensures patterns != [] ==>
        entry.tags == TaggedTags(old(entry.tags), MatchedLabels(patterns, matches, TextToMatch(entry)))
    {
      if patterns == [] {
        return entry;
      }
      var text := collapseSpace(entry.title + " " + stripTags(entry.content));
      var matchedLabels := CollectLabels(text);
      var existingTags := entry.tags;
      if matchedLabels != [] {
        entry.tags := Text.Dedup(existingTags + matchedLabels);
      } else {
        if CHECKED_TAG !in existingTags {
          entry.tags := Text.Dedup(existingTags + [CHECKED_TAG]);
        }
      }
      return entry;
    }
  }

  /** Once loaded, the pattern list is never empty, so an entry no pattern matches
      (for instance because no pattern is configured at all) gets the fallback tag. */
  lemma FallbackOnceLoaded(conf: map<Category, string>, ps: seq<CategoryPatterns>,
                           matches: (string, string) -> bool, text: string, existing: seq<string>)
    requires IsLoadedFrom(ps, conf)
    requires forall c :: !AnyMatch(PatternLines(StoredPatterns(conf, c)), matches, text)
    ensures ps != []
    ensures MatchedLabels(ps, matches, text) == []
    ensures CHECKED_TAG in TaggedTags(existing, MatchedLabels(ps, matches, text))
  {
    forall j | 0 <= j < |ps|
      ensures !AnyMatch(ps[j].patterns, matches, text)
    {
      assert ps[j] == LoadedCategory(conf, Categories[j]);
    }
    NoMatchNoLabels(ps, matches, text);
    TaggingOnlyAdds(existing, []);
  }
}
