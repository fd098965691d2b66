/** The editable caption state and how its pages follow from words, parameters and marks (packages/core/src/state.ts). */
module Captions {
  import opened Common
  import opened Ranges
  import opened Transcript
  import opened StylePatch
  import Seg = Segmentation

  // ---------------------------------------------------------------- state

  /**
   * What the engine is configured with: the oracle of the segmentation, the caption positions, the style rules beyond
   * the ones below, the presets, and how many words a page of each preset may hold.
   */
  datatype Config = Config(oracle: Oracle, positions: set<string>, otherRules: Style -> bool, presets: map<string, Style>,
                           maxWords: map<string, int>)

  /** The style schema, as far as this model reads it: line limits in range, a known preset and a known position. */
  predicate ValidStyle(cfg: Config, s: Style) {
    && WellFormed(s)
    && "maxLines" in s.flat && s.flat["maxLines"].Int? && 1 <= s.flat["maxLines"].i <= 3
    && "maxCharsPerLine" in s.flat && s.flat["maxCharsPerLine"].Int? && 10 <= s.flat["maxCharsPerLine"].i <= 60
    && "preset" in s.flat && s.flat["preset"].Text? && s.flat["preset"].s in cfg.maxWords
    && "position" in s.flat && s.flat["position"].Text? && s.flat["position"].s in cfg.positions
    && cfg.otherRules(s)
  }

  function WithPosition(s: Style, position: string): Style {
    s.(flat := s.flat["position" := Text(position)])
  }

  /** The shipped presets are valid, and no other style rule looks at the position. */
  ghost predicate ValidConfig(cfg: Config) {
    && (forall s: Style, pos :: cfg.otherRules(s) ==> cfg.otherRules(WithPosition(s, pos)))
    && (forall id :: id in cfg.presets ==> ValidStyle(cfg, cfg.presets[id]))
    && (forall id :: id in cfg.maxWords ==> 1 <= cfg.maxWords[id] <= 30)
  }

  function MaxLines(cfg: Config, s: Style): int
    requires ValidStyle(cfg, s)
  {
    s.flat["maxLines"].i
  }

  function MaxCharsPerLine(cfg: Config, s: Style): int
    requires ValidStyle(cfg, s)
  {
    s.flat["maxCharsPerLine"].i
  }

  datatype State = State(title: string, language: Option<string>, words: seq<Word>, pages: seq<Page>, style: Style,
                         segmentation: Params, manualBreaks: seq<string>, manualJoins: seq<string>, revisionSeed: string)

  function SegmentationForStyle(cfg: Config, style: Style, base: Params): Params
    requires ValidStyle(cfg, style)
  {
    base.(maxLinesPerPage := MaxLines(cfg, style),
          maxCharsPerLine := MaxCharsPerLine(cfg, style),
          maxCharsPerPage := Min(120, MaxCharsPerLine(cfg, style) * MaxLines(cfg, style)),
          maxWordsPerPage := cfg.maxWords[style.flat["preset"].s])
  }

  // ---------------------------------------------------------------- recomputing pages

  /** Position of the first word with this id. */
  function IndexOf(words: seq<Word>, id: string): (r: Option<nat>)
    ensures r.Some? ==> r.value < |words| && words[r.value].id == id
    ensures r.None? ==> forall k :: 0 <= k < |words| ==> words[k].id != id
  {
    if words == [] then None
    else if words[0].id == id then Some(0)
    else var rest := IndexOf(words[1..], id); if rest.Some? then Some(rest.value + 1) else None
  }

  /** Position of the last word with this id: a map filled in order keeps the last. */
  function LastIndexOf(words: seq<Word>, id: string): (r: Option<nat>)
    ensures r.Some? ==> r.value < |words| && words[r.value].id == id
    ensures r.None? <==> forall k :: 0 <= k < |words| ==> words[k].id != id
  {
    if words == [] then None
    else if words[|words| - 1].id == id then Some(|words| - 1)
    else LastIndexOf(words[..|words| - 1], id)
  }

  function Existing(ids: seq<string>, words: seq<Word>): (r: seq<string>)
    ensures forall id :: id in r <==> id in ids && LastIndexOf(words, id).Some?
  {
    if ids == [] then []
    else
      var rest := Existing(ids[..|ids| - 1], words);
      if LastIndexOf(words, ids[|ids| - 1]).Some? then rest + [ids[|ids| - 1]] else rest
  }

  /** Word positions after the first of the given ids. */
  function Positions(ids: seq<string>, words: seq<Word>): set<int> {
    set id | id in ids && LastIndexOf(words, id).Some? && LastIndexOf(words, id).value > 0 ::
      LastIndexOf(words, id).value as int
  }

  function Resegmented(cfg: Config, st: State): State
    requires Usable(st.segmentation)
  {
    var breaks := Existing(st.manualBreaks, st.words);
    var joins := Existing(st.manualJoins, st.words);
    var forced := Positions(breaks, st.words);
    var forbidden := Positions(joins, st.words) - forced;
    st.(pages := Seg.Segmented(cfg.oracle, st.words, st.segmentation, forced, forbidden, st.revisionSeed),
        manualBreaks := breaks, manualJoins := joins)
  }

  lemma {:induction false} ExistingIsIdempotent(ids: seq<string>, words: seq<Word>)
    ensures Existing(Existing(ids, words), words) == Existing(ids, words)
  {
    if ids != [] {
      var rest := Existing(ids[..|ids| - 1], words);
      ExistingIsIdempotent(ids[..|ids| - 1], words);
      if LastIndexOf(words, ids[|ids| - 1]).Some? {
        assert (rest + [ids[|ids| - 1]])[..|rest|] == rest;
      }
    }
  }

  /** Recomputing is a cache fill: doing it again changes nothing. */
  lemma ResegmentedIsIdempotent(cfg: Config, st: State)
    requires Usable(st.segmentation)
    ensures Resegmented(cfg, Resegmented(cfg, st)) == Resegmented(cfg, st)
  {
    ExistingIsIdempotent(st.manualBreaks, st.words);
    ExistingIsIdempotent(st.manualJoins, st.words);
  }

  function Created(cfg: Config, title: string, words: seq<Word>, style: Style, segmentation: Params,
                   language: Option<string>, seed: string): State
    requires Usable(segmentation)
  {
    Resegmented(cfg, State(title, language, words, [], style, segmentation, [], [], seed))
  }

  /** A state whose pages and constraints are what a recomputation gives. */
  ghost predicate Consistent(cfg: Config, st: State) {
    && ValidStyle(cfg, st.style) && Usable(st.segmentation)
    && Resegmented(cfg, st) == st
    && Disjoint(st.manualBreaks, st.manualJoins)
  }

  ghost predicate Disjoint(a: seq<string>, b: seq<string>) {
    forall id :: id in a ==> id !in b
  }

  ghost predicate Named(ids: seq<string>, words: seq<Word>) {
    forall id :: id in ids ==> exists k :: 0 <= k < |words| && words[k].id == id
  }

  /** Constraints of a consistent state name words that exist. */
  lemma ConsistentNames(cfg: Config, st: State)
    requires Consistent(cfg, st)
    ensures Named(st.manualBreaks, st.words) && Named(st.manualJoins, st.words)
  {
    forall id | id in st.manualBreaks || id in st.manualJoins
      ensures exists k :: 0 <= k < |st.words| && st.words[k].id == id
    {
      assert id in Existing(st.manualBreaks, st.words) || id in Existing(st.manualJoins, st.words);
      var k := LastIndexOf(st.words, id).value;
      assert st.words[k].id == id;
    }
  }

  lemma CreatedIsConsistent(cfg: Config, title: string, words: seq<Word>, style: Style, segmentation: Params,
                            language: Option<string>, seed: string)
    requires ValidStyle(cfg, style) && Usable(segmentation)
    ensures Consistent(cfg, Created(cfg, title, words, style, segmentation, language, seed))
  {
    ResegmentedIsIdempotent(cfg, State(title, language, words, [], style, segmentation, [], [], seed));
  }

  // ---------------------------------------------------------------- manual breaks and joins

  ghost predicate StartsPage(pages: seq<Page>, i: int) {
    exists k :: 0 <= k < |pages| && pages[k].startWordIndex == i
  }

  /** Word i is forbidden as the first of a page: it is joined to the word before it, and not also marked as a break. */
  predicate JoinedAt(st: State, i: int) {
    0 < i < |st.words| && st.words[i].id in st.manualJoins && st.words[i].id !in st.manualBreaks &&
    LastIndexOf(st.words, st.words[i].id) == Some(i)
  }

  predicate BrokenAt(st: State, i: int) {
    0 < i < |st.words| && st.words[i].id in st.manualBreaks && LastIndexOf(st.words, st.words[i].id) == Some(i)
  }

  /** Every manual break starts a page, and no manual join does. */
  ghost predicate MarksRespected(st: State) {
    && (forall i :: BrokenAt(st, i) ==> StartsPage(st.pages, i))
    && (forall i :: JoinedAt(st, i) ==> !StartsPage(st.pages, i))
  }

  /** A page's worth of words in a row is joined, each to the word before it. */
  ghost predicate JoinedRun(st: State) {
    exists s: nat :: s + st.segmentation.maxWordsPerPage < |st.words| && JoinedFrom(st, s)
  }

  ghost predicate JoinedFrom(st: State, s: nat) {
    forall k :: s < k <= s + st.segmentation.maxWordsPerPage ==> JoinedAt(st, k)
  }

  lemma MarkedPositions(st: State, i: int)
    ensures var forced := Positions(st.manualBreaks, st.words);
            && (i in forced <==> BrokenAt(st, i)) && (i in Positions(st.manualJoins, st.words) - forced <==> JoinedAt(st, i))
  {
    if BrokenAt(st, i) || JoinedAt(st, i) {
      assert LastIndexOf(st.words, st.words[i].id).value == i;
    }
  }

  lemma SamePageStarts(o: Oracle, words: seq<Word>, p: Params, seed: string, forced: set<int>, ranges: seq<Range>, i: int)
    requires Seg.InWords(ranges, words)
    ensures StartsPage(Seg.PagesOf(o, words, p, seed, forced, ranges), i) <==> Seg.StartsAt(ranges, i)
  {
    var pages := Seg.PagesOf(o, words, p, seed, forced, ranges);
    assert forall k :: 0 <= k < |pages| ==> pages[k].startWordIndex == ranges[k].start;
    if StartsPage(pages, i) {
      var k :| 0 <= k < |pages| && pages[k].startWordIndex == i;
      assert ranges[k].start == i;
    }
    if Seg.StartsAt(ranges, i) {
      var k :| 0 <= k < |ranges| && ranges[k].start == i;
      assert pages[k].startWordIndex == i;
    }
  }

  /**
   * The pages of a recomputed state respect all manual breaks and joins exactly when no page's worth of words in a row is
   * joined; otherwise the pages are plain chunks of words, whatever is marked.
   */
  lemma MarksRespectedExactly(cfg: Config, st: State)
    requires Usable(st.segmentation) && Resegmented(cfg, st) == st
    ensures MarksRespected(st) <==> !JoinedRun(st)
  {
    var forced := Positions(st.manualBreaks, st.words);
    var forbidden := Positions(st.manualJoins, st.words) - forced;
    var problem := Seg.ProblemOf(cfg.oracle, st.words, st.segmentation, forced, forbidden);
    var ranges := Seg.BestRanges(problem);
    Seg.BestRangesTile(problem);
    TilesFromFront(ranges, |st.words|);
    Seg.RespectedExactly(problem);
    forall i
      ensures StartsPage(st.pages, i) <==> Seg.StartsAt(ranges, i)
      ensures (i in forced <==> BrokenAt(st, i)) && (i in forbidden <==> JoinedAt(st, i))
    {
      MarkedPositions(st, i);
      SamePageStarts(cfg.oracle, st.words, st.segmentation, st.revisionSeed, forced, ranges, i);
    }
    forall s: nat
      ensures Seg.ForbiddenRun(problem, s) <==> JoinedFrom(st, s)
    {
    }
  }

  /** With one word to a page, two words always make two pages. */
  lemma TwoPages(cfg: Config, st: State)
    requires Usable(st.segmentation) && Resegmented(cfg, st) == st && st.segmentation.maxWordsPerPage == 1 && |st.words| == 2
    ensures |st.pages| == 2 && st.pages[0].startWordIndex == 0 && st.pages[1].startWordIndex == 1
  {
    var forced := Positions(st.manualBreaks, st.words);
    var problem := Seg.ProblemOf(cfg.oracle, st.words, st.segmentation, forced, Positions(st.manualJoins, st.words) - forced);
    var ranges := Seg.BestRanges(problem);
    Seg.BestRangesTile(problem);
    RangesNeedWords(ranges, 2);
    TilesFromFront(ranges, 2);
    assert ranges[0] in ranges;
    assert |ranges| == 2;
  }

  method ResegmentState(cfg: Config, st: State) returns (r: State)
    requires Usable(st.segmentation)
    ensures r == Resegmented(cfg, st)
  {
    var breaks := Existing(st.manualBreaks, st.words);
    var joins := Existing(st.manualJoins, st.words);
    var forced := Positions(breaks, st.words);
    var forbidden := Positions(joins, st.words) - forced;
    var pages := Seg.SegmentWords(cfg.oracle, st.words, st.segmentation, forced, forbidden, st.revisionSeed);
    r := st.(pages := pages, manualBreaks := breaks, manualJoins := joins);
  }

  // ---------------------------------------------------------------- parameters derived from a style

  /** Parameters derived from a valid style stay usable, ... */
  lemma StyleKeepsUsable(cfg: Config, style: Style, base: Params)
    requires ValidConfig(cfg) && ValidStyle(cfg, style) && Usable(base)
    ensures Usable(SegmentationForStyle(cfg, style, base))
  {
    var chars, lines := MaxCharsPerLine(cfg, style), MaxLines(cfg, style);
    assert lines == 1 || lines == 2 || lines == 3;
    assert chars * lines >= 10;
  }

  /** ... but they leave the schema's bounds exactly when a page could hold fewer than 12 characters. */
  lemma StyleKeepsSchemaBounds(cfg: Config, style: Style, base: Params)
    requires ValidConfig(cfg) && ValidStyle(cfg, style) && Usable(base)
    ensures ValidParams(SegmentationForStyle(cfg, style, base)) <==>
            MaxCharsPerLine(cfg, style) * MaxLines(cfg, style) >= 12
  {
    StyleKeepsUsable(cfg, style, base);
  }
}
