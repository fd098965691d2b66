/** Page segmentation by dynamic programming, and page construction (packages/core/src/segmentation.ts). */
module Segmentation {
  import opened Common
  import opened Ranges
  import opened Transcript
  import LineBreaking

  // ---------------------------------------------------------------- the price of a page

  /** Price of a page of words [j, i), without the one unit every page costs. */
  function PageCost(o: Oracle, words: seq<Word>, p: Params, j: nat, i: nat): real
    requires j < i <= |words| && Usable(p)
  {
    var n := |words|;
    var chars := LineBreaking.LineLen(Texts(words), j, i);
    var durationMs := Max(1, words[i - 1].endMs - words[j].startMs);
    var cps := chars as real / (durationMs as real / 1000.0);
    var oversize :=
      if chars <= p.maxCharsPerPage then 0.0
      else if i - j == 1 then 10.0
      else 40.0 + (chars - p.maxCharsPerPage) as real * 6.0;
    var tooLong :=
      if durationMs > p.maxPageDurationMs then 12.0 + (durationMs - p.maxPageDurationMs) as real / 250.0 else 0.0;
    var tooShort := if durationMs < p.minPageDurationMs && i != n then 3.0 else 0.0;
    var speed :=
      if cps > p.maxCps then 8.0 + (cps - p.maxCps) * 2.0
      else if cps > p.targetCps then (cps - p.targetCps) * 0.6
      else 0.0;
    var fill := chars as real / p.maxCharsPerPage as real;
    var underfull := if fill < 0.35 && i != n then (0.35 - fill) * 12.0 else 0.0;
    var orphan := if i - j == 1 && n > 1 then (if i == n then 6.0 else 4.0) else 0.0;
    var pair := if i - j == 2 && i == n && n > 4 then 1.5 else 0.0;
    var atBoundary := if i < n then o.boundary(words, i, p) else 0.0;
    oversize + tooLong + tooShort + speed + underfull + orphan + pair + atBoundary
  }

  /** A segmentation problem: `cost` prices a page of words [j, i). */
  datatype Problem = Problem(n: nat, maxWords: nat, forced: set<int>, forbidden: set<int>, cost: (int, int) -> real)

  function ProblemOf(o: Oracle, words: seq<Word>, p: Params, forced: set<int>, forbidden: set<int>): Problem
    requires Usable(p)
  {
    Problem(|words|, p.maxWordsPerPage, forced, forbidden,
            (j: int, i: int) => if 0 <= j < i <= |words| then PageCost(o, words, p, j, i) else 0.0)
  }

  // ---------------------------------------------------------------- legal segmentations

  predicate HidesForced(forced: set<int>, j: int, i: int) {
    exists k :: j < k < i && k in forced
  }

  /** A page may hold words [j, i). */
  ghost predicate Legal(p: Problem, j: int, i: int) {
    && 0 <= j < i && i - j <= p.maxWords
    && (j > 0 ==> j !in p.forbidden)
    && !HidesForced(p.forced, j, i)
  }

  ghost predicate Segmentation(p: Problem, ranges: seq<Range>, n: nat) {
    && Tiles(ranges, n)
    && forall k :: 0 <= k < |ranges| ==> Legal(p, ranges[k].start, ranges[k].end + 1)
  }

  ghost function Price(p: Problem, ranges: seq<Range>): real {
    if ranges == [] then 0.0
    else
      var last := ranges[|ranges| - 1];
      Price(p, ranges[..|ranges| - 1]) + p.cost(last.start, last.end + 1) + 1.0
  }

  // ---------------------------------------------------------------- the table

  datatype Cell = Cell(best: Option<real>, from: int)

  function TableCell(p: Problem, i: nat): Cell
    decreases i, i + 1
  {
    if i == 0 then Cell(Some(0.0), -1) else Scan(p, i, i - 1, Cell(None, -1))
  }

  /** The inner loop from start j downwards, with `acc` found so far. */
  function Scan(p: Problem, i: nat, j: int, acc: Cell): Cell
    requires j < i
    decreases i, Max(0, j + 1)
  {
    if j < Max(0, i - p.maxWords) then acc
    else
      var prev := TableCell(p, j).best;
      if prev.None? then Scan(p, i, j - 1, acc)
      else if j > 0 && j in p.forbidden then Scan(p, i, j - 1, acc)
      else if HidesForced(p.forced, j, i) then acc
      else Scan(p, i, j - 1, Relax(p, prev.value, i, j, acc))
  }

  function Relax(p: Problem, prev: real, i: nat, j: int, acc: Cell): Cell {
    var total := prev + p.cost(j, i) + 1.0;
    if acc.best.None? || total < acc.best.value then Cell(Some(total), j) else acc
  }

  function Trace(p: Problem, i: nat): seq<Range> {
    if i == 0 then []
    else
      var j := TableCell(p, i).from;
      if 0 <= j < i then Trace(p, j) + [Range(j, i - 1)] else []
  }

  /** Chunks of maxWords words from word s on. */
  function Greedy(s: nat, n: nat, maxWords: nat): seq<Range>
    requires maxWords > 0
    decreases n - s
  {
    if s >= n then [] else [Range(s, Min(n, s + maxWords) - 1)] + Greedy(s + maxWords, n, maxWords)
  }

  /** The ranges the source reconstructs. */
  function BestRanges(p: Problem): seq<Range>
    requires p.maxWords > 0
  {
    if p.n > 0 && TableCell(p, p.n).from < 0 then Greedy(0, p.n, p.maxWords) else Trace(p, p.n)
  }

  // ---------------------------------------------------------------- the table is right

  ghost predicate NoWorse(c: Cell, p: Problem, i: nat, j: nat) {
    Legal(p, j, i) && TableCell(p, j).best.Some? ==>
      c.best.Some? && c.best.value <= TableCell(p, j).best.value + p.cost(j, i) + 1.0
  }

  /** Even with the early exit on a forced break, the inner loop misses no legal start. */
  lemma {:induction false} ScanFindsMinimum(p: Problem, i: nat, j: int, acc: Cell)
    requires -1 <= j < i
    requires acc.best.Some? ==> acc.from >= 0
    ensures var r := Scan(p, i, j, acc);
            && (acc.best.Some? ==> r.best.Some? && r.best.value <= acc.best.value)
            && (forall q: nat :: q <= j ==> NoWorse(r, p, i, q))
            && (r == acc || (0 <= r.from <= j && Legal(p, r.from, i) && TableCell(p, r.from).best.Some? &&
                             r.best == Some(TableCell(p, r.from).best.value + p.cost(r.from, i) + 1.0)))
    decreases j + 1
  {
    if j >= Max(0, i - p.maxWords) {
      var prev := TableCell(p, j).best;
      if prev.None? || (j > 0 && j in p.forbidden) {
        ScanFindsMinimum(p, i, j - 1, acc);
      } else if HidesForced(p.forced, j, i) {
        var k :| j < k < i && k in p.forced;
        assert forall q: nat :: q <= j ==> q < k < i && HidesForced(p.forced, q, i);
      } else {
        ScanFindsMinimum(p, i, j - 1, Relax(p, prev.value, i, j, acc));
      }
    }
  }

  /** The table is at most the price of every segmentation of the first i words. */
  lemma {:induction false} CellIsLowerBound(p: Problem, ranges: seq<Range>, i: nat)
    requires Segmentation(p, ranges, i)
    ensures TableCell(p, i).best.Some? && TableCell(p, i).best.value <= Price(p, ranges)
    decreases |ranges|
  {
    if ranges != [] {
      var front := ranges[..|ranges| - 1];
      var j := ranges[|ranges| - 1].start;
      assert forall k :: 0 <= k < |front| ==> front[k] == ranges[k];
      CellIsLowerBound(p, front, j);
      ScanFindsMinimum(p, i, i - 1, Cell(None, -1));
      assert NoWorse(TableCell(p, i), p, i, j);
    }
  }

  /** A finite cell is the price of the segmentation its back pointers describe; an infinite one has no pointer. */
  lemma {:induction false} CellIsAttained(p: Problem, i: nat)
    ensures var c := TableCell(p, i);
            && (c.best.Some? ==> Segmentation(p, Trace(p, i), i) && Price(p, Trace(p, i)) == c.best.value)
            && (i > 0 ==> (c.from >= 0 <==> c.best.Some?))
            && (i > 0 && c.best.Some? ==> c.from < i && TableCell(p, c.from).best.Some?)
  {
    if i > 0 {
      ScanFindsMinimum(p, i, i - 1, Cell(None, -1));
      var c := TableCell(p, i);
      if c.best.Some? {
        CellIsAttained(p, c.from);
        var r := Trace(p, i);
        assert r[..|r| - 1] == Trace(p, c.from);
      }
    }
  }

  // ---------------------------------------------------------------- when a segmentation exists

  /** No forced word is forbidden, and no run of maxWords forbidden words lies before the end. */
  ghost predicate Feasible(p: Problem) {
    && (forall k :: 0 < k < p.n && k in p.forced ==> k !in p.forbidden)
    && (forall s: nat :: s + p.maxWords < p.n ==> !ForbiddenRun(p, s))
  }

  /** All of the words s+1 .. s+maxWords are forbidden. */
  ghost predicate ForbiddenRun(p: Problem, s: nat) {
    forall k :: s < k <= s + p.maxWords ==> k in p.forbidden
  }

  ghost predicate Cut(p: Problem, i: nat) {
    i == 0 || i == p.n || (i < p.n && i !in p.forbidden)
  }

  /** The last possible page start before word i. */
  lemma LastCut(p: Problem, i: nat, lo: nat) returns (j: nat)
    requires lo < i && Cut(p, lo)
    ensures lo <= j < i && Cut(p, j) && forall k :: j < k < i ==> !Cut(p, k)
    decreases i - lo
  {
    if q: nat :| lo < q < i && Cut(p, q) {
      j := LastCut(p, i, q);
    } else {
      j := lo;
    }
  }

  /** Some page start lies within maxWords before word i. */
  lemma NearCut(p: Problem, i: nat) returns (lo: nat)
    requires p.maxWords > 0 && Feasible(p) && 0 < i <= p.n
    ensures lo < i <= lo + p.maxWords && Cut(p, lo)
  {
    if i <= p.maxWords {
      lo := 0;
    } else {
      var s := i - 1 - p.maxWords;
      assert !ForbiddenRun(p, s);
      lo :| s < lo <= s + p.maxWords && lo !in p.forbidden;
    }
  }

  lemma NoCutBetween(p: Problem, j: nat, i: nat)
    requires Feasible(p) && j < i <= p.n && i - j <= p.maxWords && Cut(p, j) && forall k :: j < k < i ==> !Cut(p, k)
    ensures Legal(p, j, i)
  {
    forall k | j < k < i
      ensures k !in p.forced
    {
      assert !Cut(p, k);
    }
  }

  lemma SegmentationSnoc(p: Problem, front: seq<Range>, j: nat, i: nat)
    requires Segmentation(p, front, j) && Legal(p, j, i)
    ensures Segmentation(p, front + [Range(j, i - 1)], i)
  {
    var ranges := front + [Range(j, i - 1)];
    assert ranges[..|front|] == front;
    forall k | 0 <= k < |ranges|
      ensures Legal(p, ranges[k].start, ranges[k].end + 1)
    {
      assert k < |front| ==> ranges[k] == front[k];
    }
  }

  lemma {:induction false} FeasibleHasSegmentation(p: Problem, i: nat) returns (ranges: seq<Range>)
    requires p.maxWords > 0 && Feasible(p) && i <= p.n && Cut(p, i)
    ensures Segmentation(p, ranges, i)
  {
    if i == 0 {
      ranges := [];
    } else {
      var lo := NearCut(p, i);
      var j := LastCut(p, i, lo);
      NoCutBetween(p, j, i);
      var front := FeasibleHasSegmentation(p, j);
      SegmentationSnoc(p, front, j, i);
      ranges := front + [Range(j, i - 1)];
    }
  }

  lemma SegmentationIsFeasible(p: Problem, ranges: seq<Range>)
    requires Segmentation(p, ranges, p.n)
    ensures Feasible(p)
  {
    TilesFromFront(ranges, p.n);
    forall k | 0 < k < p.n && k in p.forced
      ensures k !in p.forbidden
    {
      var q := RangeOf(ranges, p.n, k);
      assert Legal(p, ranges[q].start, ranges[q].end + 1);
      assert ranges[q].start == k;
    }
    forall s: nat | s + p.maxWords < p.n
      ensures !ForbiddenRun(p, s)
    {
      var q := RangeOf(ranges, p.n, s);
      assert Legal(p, ranges[q].start, ranges[q].end + 1);
      assert Legal(p, ranges[q + 1].start, ranges[q + 1].end + 1);
      assert ranges[q + 1].start !in p.forbidden;
    }
  }

  // ---------------------------------------------------------------- main results

  lemma {:induction false} GreedyTiles(front: seq<Range>, s: nat, n: nat, maxWords: nat)
    requires maxWords > 0 && Tiles(front, Min(s, n))
    ensures Tiles(front + Greedy(s, n, maxWords), n)
    decreases n - s
  {
    if s < n {
      var next := front + [Range(s, Min(n, s + maxWords) - 1)];
      assert next[..|next| - 1] == front;
      GreedyTiles(next, s + maxWords, n, maxWords);
      assert front + Greedy(s, n, maxWords) == next + Greedy(s + maxWords, n, maxWords);
    } else {
      assert front + [] == front;
    }
  }

  lemma {:induction false} GreedyIsShort(s: nat, n: nat, maxWords: nat)
    requires maxWords > 0
    ensures forall r :: r in Greedy(s, n, maxWords) ==> r.end + 1 - r.start <= maxWords
    decreases n - s
  {
    if s < n {
      GreedyIsShort(s + maxWords, n, maxWords);
    }
  }

  /** Every word is on exactly one page, in order, and no page has too many, whatever the constraints. */
  lemma BestRangesTile(p: Problem)
    requires p.maxWords > 0
    ensures Tiles(BestRanges(p), p.n)
    ensures forall r :: r in BestRanges(p) ==> r.end + 1 - r.start <= p.maxWords
  {
    GreedyIsShort(0, p.n, p.maxWords);
    CellIsAttained(p, p.n);
    GreedyTiles([], 0, p.n, p.maxWords);
    assert [] + Greedy(0, p.n, p.maxWords) == Greedy(0, p.n, p.maxWords);
  }

  /** No segmentation within the constraints is cheaper than the one returned, which is itself within them. */
  lemma BestRangesAreOptimal(p: Problem, other: seq<Range>)
    requires p.maxWords > 0 && Segmentation(p, other, p.n)
    ensures Segmentation(p, BestRanges(p), p.n)
    ensures Price(p, BestRanges(p)) <= Price(p, other)
  {
    CellIsAttained(p, p.n);
    CellIsLowerBound(p, other, p.n);
  }

  /**
   * The greedy fallback runs exactly when a forced word is also forbidden or maxWords consecutive words are forbidden
   * before the end: merging more words than a page may hold drops every manual constraint.
   */
  lemma FallbackExactlyWhenInfeasible(p: Problem)
    requires p.n > 0 && p.maxWords > 0
    ensures TableCell(p, p.n).from < 0 <==> !Feasible(p)
    ensures Feasible(p) <==> exists ranges :: Segmentation(p, ranges, p.n)
  {
    CellIsAttained(p, p.n);
    if Feasible(p) {
      var ranges := FeasibleHasSegmentation(p, p.n);
      CellIsLowerBound(p, ranges, p.n);
    }
    forall ranges | Segmentation(p, ranges, p.n)
      ensures Feasible(p)
    {
      SegmentationIsFeasible(p, ranges);
    }
  }

  ghost predicate StartsAt(ranges: seq<Range>, i: int) {
    exists k :: 0 <= k < |ranges| && ranges[k].start == i
  }

  /** Every forced word starts a page, and no forbidden one does. */
  ghost predicate Respects(p: Problem, ranges: seq<Range>) {
    && (forall i :: 0 < i < p.n && i in p.forced ==> StartsAt(ranges, i))
    && (forall i :: 0 < i < p.n && i in p.forbidden ==> !StartsAt(ranges, i))
  }

  lemma SegmentationRespects(p: Problem, ranges: seq<Range>)
    requires Segmentation(p, ranges, p.n)
    ensures Respects(p, ranges)
  {
    TilesFromFront(ranges, p.n);
    forall i | 0 < i < p.n && i in p.forced
      ensures StartsAt(ranges, i)
    {
      var q := RangeOf(ranges, p.n, i);
      assert Legal(p, ranges[q].start, ranges[q].end + 1);
      assert ranges[q].start == i;
    }
  }

  /** Chunks of maxWords words start somewhere among any maxWords words in a row. */
  lemma {:induction false} GreedyStartsSomewhere(s: nat, n: nat, maxWords: nat, low: nat) returns (i: nat)
    requires maxWords > 0 && s <= low && low + maxWords < n
    ensures low < i <= low + maxWords && StartsAt(Greedy(s, n, maxWords), i)
    decreases n - s
  {
    var rest := Greedy(s + maxWords, n, maxWords);
    if low < s + maxWords {
      i := s + maxWords;
      assert rest[0].start == i;
    } else {
      i := GreedyStartsSomewhere(s + maxWords, n, maxWords, low);
    }
    var k :| 0 <= k < |rest| && rest[k].start == i;
    assert Greedy(s, n, maxWords)[k + 1] == rest[k];
  }

  /**
   * When nothing is both forced and forbidden, forced and forbidden words are respected exactly when no maxWords words in a
   * row are forbidden.
   */
  lemma RespectedExactly(p: Problem)
    requires p.maxWords > 0 && forall i :: i in p.forced ==> i !in p.forbidden
    ensures Respects(p, BestRanges(p)) <==> forall s: nat :: s + p.maxWords < p.n ==> !ForbiddenRun(p, s)
  {
    if forall s: nat :: s + p.maxWords < p.n ==> !ForbiddenRun(p, s) {
      var ranges := FeasibleHasSegmentation(p, p.n);
      BestRangesAreOptimal(p, ranges);
      SegmentationRespects(p, BestRanges(p));
    } else {
      var s: nat :| s + p.maxWords < p.n && ForbiddenRun(p, s);
      assert !Feasible(p);
      FallbackExactlyWhenInfeasible(p);
      var i := GreedyStartsSomewhere(0, p.n, p.maxWords, s);
    }
  }

  // ---------------------------------------------------------------- pages

  /** The end of a page of words [s, e]: padded into the following silence, stretched to the minimum duration. */
  function PageEnd(words: seq<Word>, p: Params, s: nat, e: int): int
    requires s <= e < |words|
  {
    var first := words[s];
    var last := words[e];
    var hasNext := e + 1 < |words|;
    var padded :=
      last.endMs + (if hasNext then Min(p.tailPaddingMs, Max(0, words[e + 1].startMs - last.endMs - 1)) else p.tailPaddingMs);
    if padded - first.startMs < p.minPageDurationMs then
      var wanted := first.startMs + p.minPageDurationMs;
      var stretched := if hasNext then Min(wanted, words[e + 1].startMs - 1) else wanted;
      if stretched <= last.endMs then last.endMs else stretched
    else padded

  }

  function TextOf(words: seq<Word>, s: nat, e: int): string
    requires s <= e < |words|
  {
    Join(Texts(words[s..e + 1]))
  }

  function LineOf(words: seq<Word>, s: nat, r: Range): Line
    requires r.start <= r.end && s + r.end < |words|
  {
    Line(s + r.start, s + r.end, TextOf(words, s + r.start, s + r.end))
  }

  function LinesOf(words: seq<Word>, s: nat, ranges: seq<Range>): (lines: seq<Line>)
    requires forall k :: 0 <= k < |ranges| ==> ranges[k].start <= ranges[k].end && s + ranges[k].end < |words|
    ensures |lines| == |ranges| && forall k :: 0 <= k < |lines| ==> lines[k] == LineOf(words, s, ranges[k])
  {
    seq(|ranges|, k requires 0 <= k < |ranges| => LineOf(words, s, ranges[k]))
  }

  /** The lines of a page of words [s, e]. */
  function LineRanges(words: seq<Word>, p: Params, s: nat, e: int): (ranges: seq<Range>)
    requires s <= e < |words|
    ensures Tiles(ranges, e + 1 - s)
    ensures forall k :: 0 <= k < |ranges| ==> ranges[k].start <= ranges[k].end && s + ranges[k].end < |words|
  {
    var texts := Texts(words[s..e + 1]);
    var ranges := LineBreaking.Lines(texts, p.maxCharsPerLine, p.maxLinesPerPage);
    LineBreaking.LinesTile(texts, p.maxCharsPerLine, p.maxLinesPerPage);
    TilesFromFront(ranges, e + 1 - s);
    ranges
  }

  function PageOf(o: Oracle, words: seq<Word>, p: Params, seed: string, forced: set<int>, index: nat, s: nat, e: int): Page
    requires s <= e < |words|
  {
    Page(o.pageId(seed, s, e), index, s, e, words[s].startMs, PageEnd(words, p, s, e),
         LinesOf(words, s, LineRanges(words, p, s, e)), TextOf(words, s, e), s in forced)
  }

  ghost predicate InWords(ranges: seq<Range>, words: seq<Word>) {
    forall k :: 0 <= k < |ranges| ==> ranges[k].start <= ranges[k].end < |words|
  }

  function PagesOf(o: Oracle, words: seq<Word>, p: Params, seed: string, forced: set<int>, ranges: seq<Range>): (pages: seq<Page>)
    requires InWords(ranges, words)
    ensures |pages| == |ranges|
    ensures forall k :: 0 <= k < |pages| ==> pages[k] == PageOf(o, words, p, seed, forced, k, ranges[k].start, ranges[k].end)
  {
    seq(|ranges|, k requires 0 <= k < |ranges| => PageOf(o, words, p, seed, forced, k, ranges[k].start, ranges[k].end))
  }

  /** What segmentWords returns. */
  function Segmented(o: Oracle, words: seq<Word>, p: Params, forced: set<int>, forbidden: set<int>, seed: string): (pages: seq<Page>)
    requires Usable(p)
  {
    var problem := ProblemOf(o, words, p, forced, forbidden);
    BestRangesTile(problem);
    TilesFromFront(BestRanges(problem), |words|);
    PagesOf(o, words, p, seed, forced, BestRanges(problem))
  }

  /** A page ends no earlier than its last word and never reaches the next word unless its last word already does. */
  lemma PageEndBounds(words: seq<Word>, p: Params, s: nat, e: int)
    requires s <= e < |words| && Usable(p)
    ensures words[e].endMs <= PageEnd(words, p, s, e)
    ensures e + 1 < |words| ==> PageEnd(words, p, s, e) <= Max(words[e].endMs, words[e + 1].startMs - 1)
    ensures e + 1 == |words| ==> PageEnd(words, p, s, e) <= Max(words[e].endMs + p.tailPaddingMs, words[s].startMs + p.minPageDurationMs)
  {
  }

  // ---------------------------------------------------------------- the algorithms

  method BuildPage(o: Oracle, words: seq<Word>, p: Params, seed: string, forced: set<int>, index: nat, s: nat, e: int)
    returns (page: Page)
    requires s <= e < |words|
    ensures page == PageOf(o, words, p, seed, forced, index, s, e)
  {
    var slice := words[s..e + 1];
    var first, last := slice[0], slice[|slice| - 1];
    var endMs := last.endMs;
    if e + 1 < |words| {
      endMs := endMs + Min(p.tailPaddingMs, Max(0, words[e + 1].startMs - last.endMs - 1));
    } else {
      endMs := endMs + p.tailPaddingMs;
    }
    if endMs - first.startMs < p.minPageDurationMs {
      endMs := if e + 1 < |words| then Min(first.startMs + p.minPageDurationMs, words[e + 1].startMs - 1)
               else first.startMs + p.minPageDurationMs;
      if endMs <= last.endMs {
        endMs := last.endMs;
      }
    }
    assert endMs == PageEnd(words, p, s, e);
    var lineRanges := LineBreaking.BreakLines(Texts(slice), p.maxCharsPerLine, p.maxLinesPerPage);
    assert lineRanges == LineRanges(words, p, s, e);
    page := Page(o.pageId(seed, s, e), index, s, e, first.startMs, endMs, LinesOf(words, s, lineRanges),
                 Join(Texts(slice)), s in forced);
  }

  lemma PagesOfNext(o: Oracle, words: seq<Word>, p: Params, seed: string, forced: set<int>, ranges: seq<Range>, k: nat)
    requires InWords(ranges, words) && k < |ranges|
    ensures InWords(ranges[..k], words) && InWords(ranges[..k + 1], words)
    ensures PagesOf(o, words, p, seed, forced, ranges[..k + 1]) ==
            PagesOf(o, words, p, seed, forced, ranges[..k]) + [PageOf(o, words, p, seed, forced, k, ranges[k].start, ranges[k].end)]
  {
  }

  method BuildPages(o: Oracle, words: seq<Word>, ranges: seq<Range>, p: Params, seed: string, forced: set<int>)
    returns (pages: seq<Page>)
    requires InWords(ranges, words)
    ensures pages == PagesOf(o, words, p, seed, forced, ranges)
  {
    pages := [];
    for k := 0 to |ranges|
      invariant InWords(ranges[..k], words) && pages == PagesOf(o, words, p, seed, forced, ranges[..k])
    {
      PagesOfNext(o, words, p, seed, forced, ranges, k);
      var page := BuildPage(o, words, p, seed, forced, k, ranges[k].start, ranges[k].end);
      pages := pages + [page];
    }
    assert ranges[..|ranges|] == ranges;
  }

  /** One row of the table: every start position of a page ending before word i. */
  method FillRow(p: Problem, best: array<Option<real>>, from: array<int>, i: nat)
    requires best.Length == from.Length == p.n + 1 && 1 <= i <= p.n
    requires forall q: nat :: q < i ==> Holds(p, best, from, q)
    requires best[i] == None && from[i] == -1
    modifies best, from
    ensures Holds(p, best, from, i)
    ensures forall q: nat :: q <= p.n && q != i ==> best[q] == old(best[q]) && from[q] == old(from[q])
    ensures forall q: nat :: q <= p.n && old(Holds(p, best, from, q)) ==> Holds(p, best, from, q)
  {
    var minJ := Max(0, i - p.maxWords);
    var j := i - 1;
    while j >= minJ
      invariant -1 <= j < i
      invariant Scan(p, i, j, Cell(best[i], from[i])) == TableCell(p, i)
      invariant forall q: nat :: q <= p.n && q != i ==> best[q] == old(best[q]) && from[q] == old(from[q])
    {
      assert old(Holds(p, best, from, j));
      if best[j].None? {
        j := j - 1;
        continue;
      }
      if j > 0 && j in p.forbidden {
        j := j - 1;
        continue;
      }
      var containsForced := ContainsForced(p.forced, j, i);
      if containsForced {
        break;
      }
      var total := best[j].value + p.cost(j, i) + 1.0;
      if best[i].None? || total < best[i].value {
        best[i] := Some(total);
        from[i] := j;
      }
      j := j - 1;
    }
  }

  ghost predicate Holds(p: Problem, best: array<Option<real>>, from: array<int>, i: nat)
    requires i < best.Length == from.Length
    reads best, from
  {
    Cell(best[i], from[i]) == TableCell(p, i)
  }

  method ContainsForced(forced: set<int>, j: int, i: int) returns (found: bool)
    requires j < i
    ensures found == HidesForced(forced, j, i)
  {
    found := false;
    for k := j + 1 to i
      invariant !found
      invariant forall q :: j < q < k ==> q !in forced
    {
      if k in forced {
        return true;
      }
    }
  }

  method SegmentWords(o: Oracle, words: seq<Word>, params: Params, forced: set<int>, forbidden: set<int>, seed: string)
    returns (pages: seq<Page>)
    requires Usable(params)
    ensures pages == Segmented(o, words, params, forced, forbidden, seed)
  {
    var n := |words|;
    var p := ProblemOf(o, words, params, forced, forbidden);
    BestRangesTile(p);
    TilesFromFront(BestRanges(p), n);
    if n == 0 {
      return [];
    }
    var best := new Option<real>[n + 1](_ => None);
    var from := new int[n + 1](_ => -1);
    best[0] := Some(0.0);
    for i := 1 to n + 1
      invariant forall q: nat :: q < i ==> Holds(p, best, from, q)
      invariant forall q: nat :: i <= q <= n ==> best[q] == None && from[q] == -1
    {
      FillRow(p, best, from, i);
    }
    var ranges := Reconstruct(p, best, from);
    pages := BuildPages(o, words, ranges, params, seed, forced);
  }

  method GreedyChunks(n: nat, maxWords: nat) returns (ranges: seq<Range>)
    requires maxWords > 0
    ensures ranges == Greedy(0, n, maxWords)
  {
    ranges := [];
    var s := 0;
    while s < n
      invariant ranges + Greedy(s, n, maxWords) == Greedy(0, n, maxWords)
      decreases n - s
    {
      ranges := ranges + [Range(s, Min(n, s + maxWords) - 1)];
      s := s + maxWords;
    }
  }

  lemma TraceStep(p: Problem, i: nat)
    requires i > 0 && TableCell(p, i).from >= 0
    ensures var j := TableCell(p, i).from;
            j < i && Trace(p, i) == Trace(p, j) + [Range(j, i - 1)] && (j > 0 ==> TableCell(p, j).from >= 0)
  {
    CellIsAttained(p, i);
    CellIsAttained(p, TableCell(p, i).from);
  }

  method Reconstruct(p: Problem, best: array<Option<real>>, from: array<int>) returns (ranges: seq<Range>)
    requires p.maxWords > 0 && best.Length == from.Length == p.n + 1
    requires forall q: nat :: q <= p.n ==> Holds(p, best, from, q)
    ensures ranges == BestRanges(p)
  {
    ranges := [];
    var i: nat := p.n;
    while i > 0
      invariant i <= p.n
      invariant i < p.n ==> TableCell(p, p.n).from >= 0 && (i > 0 ==> TableCell(p, i).from >= 0)
      invariant Trace(p, i) + ranges == Trace(p, p.n)
      decreases i
    {
      assert Holds(p, best, from, i);
      var j := from[i];
      if j < 0 {
        ranges := GreedyChunks(p.n, p.maxWords);
        return;
      }
      TraceStep(p, i);
      ranges, i := [Range(j, i - 1)] + ranges, j;
    }
    assert [] + ranges == ranges;
  }
}
