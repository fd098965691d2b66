/** Deterministic caption checks (packages/core/src/qa.ts), and what they say about states the editor reaches. */
module Qa {
  import opened Common
  import opened Ranges
  import opened Transcript
  import opened Captions
  import opened Edits
  import opened StylePatch
  import Seg = Segmentation
  import Timeline

  datatype Severity = WARNING | ERROR

  datatype Kind = LINE_LENGTH | READING_SPEED | DURATION_SHORT | DURATION_LONG | OVERLAP | ORPHAN_WORD

  datatype Issue = Issue(pageId: string, kind: Kind, severity: Severity)

  datatype Summary = Summary(pageCount: nat, issues: seq<Issue>, maxCps: real, averageCps: real, fidelity: bool)

  // ---------------------------------------------------------------- fidelity

  /** Index bounds that the page schema guarantees. */
  ghost predicate SchemaPages(pages: seq<Page>) {
    forall k :: 0 <= k < |pages| ==>
                  pages[k].endWordIndex >= 0 && forall q :: 0 <= q < |pages[k].lines| ==> pages[k].lines[q].endWordIndex >= 0
  }

  /** Text of words [s, e], cut off at the last word. */
  function SliceText(words: seq<Word>, s: nat, e: nat): string {
    var lo := Min(s, |words|);
    Join(Texts(words[lo..Max(lo, Min(e + 1, |words|))]))
  }

  /** Line q starts where the previous one ended, is not empty and shows its words. */
  ghost predicate LineFaithful(words: seq<Word>, page: Page, q: nat)
    requires q < |page.lines| && page.lines[q].endWordIndex >= 0
  {
    var line := page.lines[q];
    && line.startWordIndex == LineCursor(page, q)
    && line.startWordIndex <= line.endWordIndex
    && line.text == SliceText(words, line.startWordIndex, line.endWordIndex)
  }

  ghost predicate LinesFaithful(words: seq<Word>, page: Page, n: nat)
    requires n <= |page.lines| && forall q :: 0 <= q < |page.lines| ==> page.lines[q].endWordIndex >= 0
  {
    forall q :: 0 <= q < n ==> LineFaithful(words, page, q)
  }

  /** Where line q of the page has to start. */
  function LineCursor(page: Page, q: nat): int
    requires q <= |page.lines|
  {
    if q == 0 then page.startWordIndex else page.lines[q - 1].endWordIndex + 1
  }

  function PageCursor(pages: seq<Page>, p: nat): int
    requires p <= |pages|
  {
    if p == 0 then 0 else pages[p - 1].endWordIndex + 1
  }

  /** Page p starts where the previous one ended, is not empty, its lines tile it, and it ends before the next starts. */
  ghost predicate PageFaithful(words: seq<Word>, pages: seq<Page>, p: nat)
    requires p < |pages| && SchemaPages(pages)
  {
    var page := pages[p];
    && page.startWordIndex == PageCursor(pages, p)
    && page.startWordIndex <= page.endWordIndex
    && LinesFaithful(words, page, |page.lines|)
    && LineCursor(page, |page.lines|) == page.endWordIndex + 1
    && page.text == SliceText(words, page.startWordIndex, page.endWordIndex)
    && (p + 1 < |pages| ==> page.endMs <= pages[p + 1].startMs)
  }

  /** Pages and lines run through all the words without gap or repetition, and no two pages are on screen at once. */
  ghost predicate Faithful(words: seq<Word>, pages: seq<Page>)
    requires SchemaPages(pages)
  {
    && (forall p :: 0 <= p < |pages| ==> PageFaithful(words, pages, p))
    && PageCursor(pages, |pages|) == |words|
  }

  /** The first n pages are faithful. */
  ghost predicate FaithfulUpTo(words: seq<Word>, pages: seq<Page>, n: nat)
    requires n <= |pages| && SchemaPages(pages)
  {
    n == 0 || (FaithfulUpTo(words, pages, n - 1) && PageFaithful(words, pages, n - 1))
  }

  lemma {:induction false} FaithfulUpToAll(words: seq<Word>, pages: seq<Page>, n: nat)
    requires n <= |pages| && SchemaPages(pages)
    ensures FaithfulUpTo(words, pages, n) <==> forall p :: 0 <= p < n ==> PageFaithful(words, pages, p)
  {
    if n > 0 {
      FaithfulUpToAll(words, pages, n - 1);
    }
  }

  // ---------------------------------------------------------------- issues

  function LineIssues(page: Page, params: Params, n: nat): seq<Issue>
    requires n <= |page.lines|
  {
    if n == 0 then []
    else
      AddIf(LineIssues(page, params, n - 1), |page.lines[n - 1].text| > params.maxCharsPerLine, Issue(page.id, LINE_LENGTH, WARNING))
  }

  function AddIf(issues: seq<Issue>, cond: bool, issue: Issue): seq<Issue> {
    if cond then issues + [issue] else issues
  }

  function DurationMs(page: Page): (ms: int)
    ensures ms >= 1
  {
    Max(1, page.endMs - page.startMs)
  }

  /** Characters shown per second. */
  function Cps(page: Page): real {
    |page.text| as real / (DurationMs(page) as real / 1000.0)
  }

  /** The highest reading speed among the first n pages, and the sum of their speeds. */
  function FastestCps(pages: seq<Page>, n: nat): real
    requires n <= |pages|
  {
    if n == 0 then 0.0 else Faster(FastestCps(pages, n - 1), Cps(pages[n - 1]))
  }

  function Faster(a: real, b: real): real {
    if a >= b then a else b
  }

  lemma {:induction false} FastestIsHighest(pages: seq<Page>, n: nat)
    requires n <= |pages|
    ensures var r := FastestCps(pages, n);
            && r >= 0.0 && (forall k :: 0 <= k < n ==> Cps(pages[k]) <= r)
            && (r == 0.0 || exists k :: 0 <= k < n && r == Cps(pages[k]))
  {
    if n > 0 {
      FastestIsHighest(pages, n - 1);
    }
  }

  function TotalCps(pages: seq<Page>, n: nat): real
    requires n <= |pages|
  {
    if n == 0 then 0.0 else TotalCps(pages, n - 1) + Cps(pages[n - 1])
  }

  function Round1(x: real): real {
    Round(x * 10.0) as real / 10.0
  }

  function Average(sum: real, n: nat): real {
    if n == 0 then 0.0 else Round1(sum / n as real)
  }

  function PageIssues(pages: seq<Page>, params: Params, p: nat): seq<Issue>
    requires p < |pages|
  {
    var page := pages[p];
    var (durationMs, cps) := (DurationMs(page), Cps(page));
    var i0 := AddIf(LineIssues(page, params, |page.lines|), cps > params.maxCps, Issue(page.id, READING_SPEED, ERROR));
    var i1 := AddIf(i0, params.targetCps * 1.25 < cps <= params.maxCps, Issue(page.id, READING_SPEED, WARNING));
    var i2 := AddIf(i1, durationMs < params.minPageDurationMs, Issue(page.id, DURATION_SHORT, WARNING));
    var i3 := AddIf(i2, durationMs as real > params.maxPageDurationMs as real * 1.5, Issue(page.id, DURATION_LONG, WARNING));
    var i4 := AddIf(i3, p + 1 < |pages| && page.endMs > pages[p + 1].startMs, Issue(page.id, OVERLAP, ERROR));
    AddIf(i4, page.endWordIndex == page.startWordIndex && |pages| > 1, Issue(page.id, ORPHAN_WORD, WARNING))
  }

  function AllIssues(pages: seq<Page>, params: Params, n: nat): seq<Issue>
    requires n <= |pages|
  {
    if n == 0 then [] else AllIssues(pages, params, n - 1) + PageIssues(pages, params, n - 1)
  }

  // ---------------------------------------------------------------- the checks

  method CheckLine(words: seq<Word>, page: Page, q: nat, lineCursor: int) returns (faithful: bool)
    requires q < |page.lines| && page.lines[q].endWordIndex >= 0 && lineCursor == LineCursor(page, q)
    ensures faithful <==> LineFaithful(words, page, q)
  {
    var line := page.lines[q];
    faithful := true;
    if line.startWordIndex != lineCursor || line.endWordIndex < line.startWordIndex {
      faithful := false;
    }
    if line.text != SliceText(words, line.startWordIndex, line.endWordIndex) {
      faithful := false;
    }
  }

  method CheckLines(words: seq<Word>, page: Page, params: Params) returns (faithful: bool, issues: seq<Issue>)
    requires forall q :: 0 <= q < |page.lines| ==> page.lines[q].endWordIndex >= 0
    ensures faithful <==> LinesFaithful(words, page, |page.lines|) && LineCursor(page, |page.lines|) == page.endWordIndex + 1
    ensures issues == LineIssues(page, params, |page.lines|)
  {
    faithful, issues := true, [];
    var lineCursor: int := page.startWordIndex;
    for q := 0 to |page.lines|
      invariant lineCursor == LineCursor(page, q)
      invariant faithful <==> LinesFaithful(words, page, q)
      invariant issues == LineIssues(page, params, q)
    {
      var line := page.lines[q];
      var ok := CheckLine(words, page, q, lineCursor);
      faithful := faithful && ok;
      lineCursor := line.endWordIndex + 1;
      if |line.text| > params.maxCharsPerLine {
        issues := issues + [Issue(page.id, LINE_LENGTH, WARNING)];
      }
    }
    if lineCursor != page.endWordIndex + 1 {
      faithful := false;
    }
  }

  method CheckPage(words: seq<Word>, pages: seq<Page>, params: Params, p: nat, expected: int)
    returns (faithful: bool, issues: seq<Issue>)
    requires p < |pages| && SchemaPages(pages) && expected == PageCursor(pages, p)
    ensures faithful <==> PageFaithful(words, pages, p)
    ensures issues == PageIssues(pages, params, p)
  {
    var page := pages[p];
    var starts := page.startWordIndex == expected && page.startWordIndex <= page.endWordIndex;
    var lines;
    lines, issues := CheckLines(words, page, params);
    faithful := starts && lines;
    if page.text != SliceText(words, page.startWordIndex, page.endWordIndex) {
      faithful := false;
    }
    var durationMs := DurationMs(page);
    var cps := Cps(page);
    if cps > params.maxCps {
      issues := issues + [Issue(page.id, READING_SPEED, ERROR)];
    } else if cps > params.targetCps * 1.25 {
      issues := issues + [Issue(page.id, READING_SPEED, WARNING)];
    }
    if durationMs < params.minPageDurationMs {
      issues := issues + [Issue(page.id, DURATION_SHORT, WARNING)];
    }
    if durationMs as real > params.maxPageDurationMs as real * 1.5 {
      issues := issues + [Issue(page.id, DURATION_LONG, WARNING)];
    }
    if p + 1 < |pages| && page.endMs > pages[p + 1].startMs {
      faithful := false;
      issues := issues + [Issue(page.id, OVERLAP, ERROR)];
    }
    if page.endWordIndex == page.startWordIndex && |pages| > 1 {
      issues := issues + [Issue(page.id, ORPHAN_WORD, WARNING)];
    }
  }

  /** Add what page p says to what the pages before it said. */
  method AddPage(words: seq<Word>, pages: seq<Page>, params: Params, p: nat, fidelity: bool, issues: seq<Issue>, expected: int)
    returns (fidelity': bool, issues': seq<Issue>)
    requires p < |pages| && SchemaPages(pages) && expected == PageCursor(pages, p)
    requires (fidelity <==> FaithfulUpTo(words, pages, p)) && issues == AllIssues(pages, params, p)
    ensures (fidelity' <==> FaithfulUpTo(words, pages, p + 1)) && issues' == AllIssues(pages, params, p + 1)
  {
    var faithful, pageIssues := CheckPage(words, pages, params, p, expected);
    fidelity' := fidelity && faithful;
    issues' := issues + pageIssues;
  }

  /** What every page says about fidelity, and its issues. */
  method CheckPages(words: seq<Word>, pages: seq<Page>, params: Params) returns (fidelity: bool, issues: seq<Issue>)
    requires SchemaPages(pages)
    ensures fidelity <==> Faithful(words, pages)
    ensures issues == AllIssues(pages, params, |pages|)
  {
    issues := [];
    fidelity := true;
    var expected: int := 0;
    for p := 0 to |pages|
      invariant expected == PageCursor(pages, p)
      invariant fidelity <==> FaithfulUpTo(words, pages, p)
      invariant issues == AllIssues(pages, params, p)
    {
      fidelity, issues := AddPage(words, pages, params, p, fidelity, issues, expected);
      expected := pages[p].endWordIndex + 1;
    }
    if expected != |words| {
      fidelity := false;
    }
    FaithfulUpToAll(words, pages, |pages|);
  }

  method ReadingSpeeds(pages: seq<Page>) returns (maxCps: real, cpsSum: real)
    ensures maxCps == FastestCps(pages, |pages|) && cpsSum == TotalCps(pages, |pages|)
  {
    maxCps, cpsSum := 0.0, 0.0;
    for p := 0 to |pages|
      invariant maxCps == FastestCps(pages, p) && cpsSum == TotalCps(pages, p)
    {
      maxCps := Faster(maxCps, Cps(pages[p]));
      cpsSum := cpsSum + Cps(pages[p]);
    }
  }

  method EvaluateCaptions(words: seq<Word>, pages: seq<Page>, params: Params) returns (s: Summary)
    requires SchemaPages(pages)
    ensures s.fidelity <==> Faithful(words, pages)
    ensures s.pageCount == |pages|
    ensures var all := AllIssues(pages, params, |pages|); s.issues == all[..Min(500, |all|)]
    ensures s.maxCps == Round1(FastestCps(pages, |pages|))
    ensures s.averageCps == Average(TotalCps(pages, |pages|), |pages|)
  {
    var fidelity, issues := CheckPages(words, pages, params);
    var maxCps, cpsSum := ReadingSpeeds(pages);
    s := Summary(|pages|, issues[..Min(500, |issues|)], Round1(maxCps), Average(cpsSum, |pages|), fidelity);
  }

  method PagesCoverWords(words: seq<Word>, pages: seq<Page>) returns (r: bool)
    ensures r <==> (forall p :: 0 <= p < |pages| ==> pages[p].startWordIndex == PageCursor(pages, p)) &&
                   PageCursor(pages, |pages|) == |words|
  {
    var expected: int := 0;
    for p := 0 to |pages|
      invariant expected == PageCursor(pages, p)
      invariant forall q :: 0 <= q < p ==> pages[q].startWordIndex == PageCursor(pages, q)
    {
      if pages[p].startWordIndex != expected {
        return false;
      }
      expected := pages[p].endWordIndex + 1;
    }
    r := expected == |words|;
  }

  // ---------------------------------------------------------------- derived pages

  /** The last word of page k ends no later than the next page's first word starts. */
  ghost predicate BoundaryClear(words: seq<Word>, pages: seq<Page>, k: nat) {
    k + 1 < |pages| && 0 <= pages[k].endWordIndex < |words| && pages[k + 1].startWordIndex < |words| ==>
      words[pages[k].endWordIndex].endMs <= words[pages[k + 1].startWordIndex].startMs
  }

  ghost predicate BoundariesClear(words: seq<Word>, pages: seq<Page>) {
    forall k :: 0 <= k < |pages| ==> BoundaryClear(words, pages, k)
  }

  lemma SliceIsText(words: seq<Word>, s: nat, e: nat)
    requires s <= e < |words|
    ensures SliceText(words, s, e) == Seg.TextOf(words, s, e)
  {
  }

  lemma DerivedLine(words: seq<Word>, page: Page, s: nat, ranges: seq<Range>, q: nat)
    requires forall k :: 0 <= k < |ranges| ==> ranges[k].start <= ranges[k].end && s + ranges[k].end < |words|
    requires forall j, k :: 0 <= j < k == j + 1 < |ranges| ==> ranges[k].start == ranges[j].end + 1
    requires |ranges| > 0 ==> ranges[0].start == 0
    requires page.startWordIndex == s && page.lines == Seg.LinesOf(words, s, ranges) && q < |page.lines|
    ensures page.lines[q].endWordIndex >= 0 && LineFaithful(words, page, q)
  {
    var r := ranges[q];
    assert page.lines[q] == Seg.LineOf(words, s, r);
    SliceIsText(words, s + r.start, s + r.end);
    if q > 0 {
      assert page.lines[q - 1] == Seg.LineOf(words, s, ranges[q - 1]);
      assert ranges[q].start == ranges[q - 1].end + 1;
    }
  }

  lemma DerivedLines(words: seq<Word>, page: Page, s: nat, ranges: seq<Range>, n: nat)
    requires forall k :: 0 <= k < |ranges| ==> ranges[k].start <= ranges[k].end && s + ranges[k].end < |words|
    requires Tiles(ranges, n) && n > 0
    requires page.startWordIndex == s && page.lines == Seg.LinesOf(words, s, ranges)
    ensures forall q :: 0 <= q < |page.lines| ==> page.lines[q].endWordIndex >= 0
    ensures LinesFaithful(words, page, |page.lines|)
    ensures LineCursor(page, |page.lines|) == s + n
  {
    TilesFromFront(ranges, n);
    forall q | 0 <= q < |page.lines|
      ensures page.lines[q].endWordIndex >= 0 && LineFaithful(words, page, q)
    {
      DerivedLine(words, page, s, ranges, q);
    }
    assert page.lines[|ranges| - 1] == Seg.LineOf(words, s, ranges[|ranges| - 1]);
  }

  /** Everything the check asks of page k except that it ends before the next one starts. */
  ghost predicate Placed(words: seq<Word>, pages: seq<Page>, k: nat)
    requires k < |pages|
  {
    var page := pages[k];
    && page.startWordIndex == PageCursor(pages, k)
    && page.startWordIndex <= page.endWordIndex < |words|
    && (forall q :: 0 <= q < |page.lines| ==> page.lines[q].endWordIndex >= 0)
    && LinesFaithful(words, page, |page.lines|)
    && LineCursor(page, |page.lines|) == page.endWordIndex + 1
    && page.text == SliceText(words, page.startWordIndex, page.endWordIndex)
  }

  /** Page k ends at or after its last word, and reaches the next word's start only if its last word does. */
  ghost predicate Ends(words: seq<Word>, pages: seq<Page>, k: nat)
    requires k < |pages| && Placed(words, pages, k)
  {
    var last := pages[k].endWordIndex;
    && words[last].endMs <= pages[k].endMs
    && (last + 1 < |words| ==> pages[k].endMs <= Max(words[last].endMs, words[last + 1].startMs - 1))
    && pages[k].startMs == words[pages[k].startWordIndex].startMs
  }

  lemma DerivedPagePlaced(o: Oracle, words: seq<Word>, p: Params, seed: string, forced: set<int>, pages: seq<Page>, k: nat,
                          s: nat, e: int)
    requires s <= e < |words| && Usable(p) && k < |pages|
    requires pages[k] == Seg.PageOf(o, words, p, seed, forced, k, s, e) && s == PageCursor(pages, k)
    ensures Placed(words, pages, k) && Ends(words, pages, k)
  {
    var page := pages[k];
    DerivedLines(words, page, s, Seg.LineRanges(words, p, s, e), e + 1 - s);
    assert page.text == SliceText(words, s, e) by {
      SliceIsText(words, s, e);
    }
    assert page.endMs == Seg.PageEnd(words, p, s, e);
    DerivedPageEnds(words, p, pages, k);
  }

  lemma DerivedPageEnds(words: seq<Word>, p: Params, pages: seq<Page>, k: nat)
    requires Usable(p) && k < |pages| && Placed(words, pages, k)
    requires pages[k].endMs == Seg.PageEnd(words, p, pages[k].startWordIndex, pages[k].endWordIndex)
    requires pages[k].startMs == words[pages[k].startWordIndex].startMs
    ensures Ends(words, pages, k)
  {
    Seg.PageEndBounds(words, p, pages[k].startWordIndex, pages[k].endWordIndex);
  }

  lemma DerivedPagesPlaced(o: Oracle, words: seq<Word>, p: Params, seed: string, forced: set<int>, ranges: seq<Range>)
    requires Usable(p) && Tiles(ranges, |words|) && Seg.InWords(ranges, words)
    ensures var pages := Seg.PagesOf(o, words, p, seed, forced, ranges);
            && (forall k :: 0 <= k < |pages| ==> Placed(words, pages, k) && Ends(words, pages, k))
            && PageCursor(pages, |pages|) == |words|
  {
    TilesFromFront(ranges, |words|);
    var pages := Seg.PagesOf(o, words, p, seed, forced, ranges);
    forall k | 0 <= k < |pages|
      ensures Placed(words, pages, k) && Ends(words, pages, k)
    {
      assert k > 0 ==> ranges[k].start == ranges[k - 1].end + 1;
      DerivedPagePlaced(o, words, p, seed, forced, pages, k, ranges[k].start, ranges[k].end);
    }
  }

  /** Placed pages are faithful exactly when the words at their boundaries do not overlap. */
  lemma PlacedPagesAreFaithful(words: seq<Word>, pages: seq<Page>)
    requires forall k :: 0 <= k < |pages| ==> Placed(words, pages, k) && Ends(words, pages, k)
    requires PageCursor(pages, |pages|) == |words|
    ensures SchemaPages(pages)
    ensures Faithful(words, pages) <==> BoundariesClear(words, pages)
  {
    forall k | 0 <= k < |pages|
      ensures pages[k].endWordIndex >= 0 && forall q :: 0 <= q < |pages[k].lines| ==> pages[k].lines[q].endWordIndex >= 0
    {
      assert Placed(words, pages, k);
    }
    forall k | 0 <= k < |pages|
      ensures PageFaithful(words, pages, k) <==> BoundaryClear(words, pages, k)
    {
      assert Placed(words, pages, k) && Ends(words, pages, k);
      if k + 1 < |pages| {
        assert Placed(words, pages, k + 1) && Ends(words, pages, k + 1);
      }
    }
  }

  // ---------------------------------------------------------------- main results

  /**
   * Whatever edits led to a consistent state, the check reports fidelity exactly when at every page boundary the last
   * word ends no later than the next word starts; in particular whenever words do not overlap in time.
   */
  lemma FidelityOfConsistentStates(cfg: Config, st: State)
    requires Consistent(cfg, st)
    ensures SchemaPages(st.pages)
    ensures forall k :: 0 <= k < |st.pages| ==> Placed(st.words, st.pages, k)
    ensures PageCursor(st.pages, |st.pages|) == |st.words|
    ensures Faithful(st.words, st.pages) <==> BoundariesClear(st.words, st.pages)
    ensures NonOverlapping(st.words) ==> Faithful(st.words, st.pages)
  {
    var forced := Positions(st.manualBreaks, st.words);
    var forbidden := Positions(st.manualJoins, st.words) - forced;
    PagesOfConsistent(cfg, st, forced, forbidden);
    PlacedPagesAreFaithful(st.words, st.pages);
    if NonOverlapping(st.words) {
      NonOverlappingIsClear(st.words, st.pages);
    }
  }

  lemma PagesOfConsistent(cfg: Config, st: State, forced: set<int>, forbidden: set<int>)
    requires Consistent(cfg, st)
    requires forced == Positions(st.manualBreaks, st.words) && forbidden == Positions(st.manualJoins, st.words) - forced
    ensures forall k :: 0 <= k < |st.pages| ==> Placed(st.words, st.pages, k) && Ends(st.words, st.pages, k)
    ensures PageCursor(st.pages, |st.pages|) == |st.words|
  {
    var problem := Seg.ProblemOf(cfg.oracle, st.words, st.segmentation, forced, forbidden);
    Seg.BestRangesTile(problem);
    TilesFromFront(Seg.BestRanges(problem), |st.words|);
    DerivedPagesPlaced(cfg.oracle, st.words, st.segmentation, st.revisionSeed, forced, Seg.BestRanges(problem));
  }

  lemma NonOverlappingIsClear(words: seq<Word>, pages: seq<Page>)
    requires NonOverlapping(words) && forall k :: 0 <= k < |pages| ==> Placed(words, pages, k)
    ensures BoundariesClear(words, pages)
  {
    forall k | 0 <= k < |pages|
      ensures BoundaryClear(words, pages, k)
    {
      assert Placed(words, pages, k);
      if k + 1 < |pages| {
        assert Placed(words, pages, k + 1);
      }
    }
  }

  /** The same for every history of requests from a freshly created state. */
  lemma HistoryIsFaithful(cfg: Config, newId: nat -> string, title: string, words: seq<Word>, style: Style,
                          segmentation: Params, language: Option<string>, seed: string, requests: seq<seq<Op>>)
    requires ValidConfig(cfg) && ValidStyle(cfg, style) && Usable(segmentation)
    requires forall k :: 0 <= k < |requests| ==> ValidOps(cfg, requests[k])
    ensures var st0 := Created(cfg, title, words, style, segmentation, language, seed);
            Request(cfg, st0, []) &&
            var st := History(cfg, newId, st0, 0, requests, |requests|).0;
            && Consistent(cfg, st)
            && Named(st.manualBreaks, st.words) && Named(st.manualJoins, st.words)
            && SchemaPages(st.pages) && PageCursor(st.pages, |st.pages|) == |st.words|
            && (Faithful(st.words, st.pages) <==> BoundariesClear(st.words, st.pages))
            && (NonOverlapping(st.words) ==> Faithful(st.words, st.pages))
  {
    CreatedIsConsistent(cfg, title, words, style, segmentation, language, seed);
    var st0 := Created(cfg, title, words, style, segmentation, language, seed);
    ConsistentNames(cfg, st0);
    var st := History(cfg, newId, st0, 0, requests, |requests|).0;
    FidelityOfConsistentStates(cfg, st);
  }

  // ---------------------------------------------------------------- consistent states can be played

  lemma {:induction false} StartsOrdered(words: seq<Word>, j: nat, k: nat)
    requires NonOverlapping(words) && j <= k < |words|
    ensures words[j].startMs <= words[k].startMs
  {
    if j < k {
      StartsOrdered(words, j, k - 1);
      assert words[k - 1].endMs <= words[k].startMs;
    }
  }

  lemma {:induction false} PagesOrdered(pages: seq<Page>, j: nat, k: nat)
    requires forall q :: 0 <= q < |pages| ==> pages[q].startMs <= pages[q].endMs
    requires forall p, q :: 0 <= p < q == p + 1 < |pages| ==> pages[p].endMs <= pages[q].startMs
    requires j < k < |pages|
    ensures pages[j].endMs <= pages[k].startMs
  {
    if j + 1 < k {
      PagesOrdered(pages, j, k - 1);
      assert pages[k - 1].endMs <= pages[k].startMs;
    }
  }

  lemma PlacedPageOverWords(words: seq<Word>, pages: seq<Page>, k: nat)
    requires NonOverlapping(words) && k < |pages| && Placed(words, pages, k) && Ends(words, pages, k)
    ensures Timeline.PageOverWords(words, pages[k]) && pages[k].startMs <= pages[k].endMs
  {
    StartsOrdered(words, pages[k].startWordIndex, pages[k].endWordIndex);
  }

  lemma PlacedPagesFollow(words: seq<Word>, pages: seq<Page>, p: nat, q: nat)
    requires NonOverlapping(words) && p < q == p + 1 < |pages|
    requires Placed(words, pages, p) && Ends(words, pages, p) && Placed(words, pages, q) && Ends(words, pages, q)
    ensures pages[p].endMs <= pages[q].startMs
  {
    var last := pages[p].endWordIndex;
    assert pages[q].startWordIndex == last + 1;
    assert words[last].endMs <= words[last + 1].startMs;
  }

  lemma PlacedPagesOrdered(words: seq<Word>, pages: seq<Page>)
    requires NonOverlapping(words)
    requires forall k :: 0 <= k < |pages| ==> Placed(words, pages, k) && Ends(words, pages, k)
    ensures Timeline.OrderedPages(pages) && forall k :: 0 <= k < |pages| ==> Timeline.PageOverWords(words, pages[k])
  {
    forall k | 0 <= k < |pages|
      ensures Timeline.PageOverWords(words, pages[k]) && pages[k].startMs <= pages[k].endMs
    {
      PlacedPageOverWords(words, pages, k);
    }
    forall p, q | 0 <= p < q == p + 1 < |pages|
      ensures pages[p].endMs <= pages[q].startMs
    {
      PlacedPagesFollow(words, pages, p, q);
    }
    forall j, k | 0 <= j < k < |pages|
      ensures pages[j].endMs <= pages[k].startMs
    {
      PagesOrdered(pages, j, k);
    }
  }

  /** A consistent state over words that do not overlap meets what the timeline planner needs. */
  lemma ConsistentIsPlayable(cfg: Config, st: State)
    requires Consistent(cfg, st) && NonOverlapping(st.words)
    ensures Timeline.Playable(st.words, st.pages)
  {
    var forced := Positions(st.manualBreaks, st.words);
    PagesOfConsistent(cfg, st, forced, Positions(st.manualJoins, st.words) - forced);
    PlacedPagesOrdered(st.words, st.pages);
    forall j, k | 0 <= j < k < |st.words|
      ensures st.words[j].startMs <= st.words[k].startMs
    {
      StartsOrdered(st.words, j, k);
    }
  }
}
