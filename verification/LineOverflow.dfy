/** When lines overflow (packages/core/src/lines.ts). */
module LineOverflow {
  import opened Common
  import opened Ranges
  import opened LineBreaking

  // ---------------------------------------------------------------- which layout is chosen

  /** Of two layouts with as many lines: the last line that starts differently starts earlier in `a`. */
  ghost predicate Earlier(a: seq<Range>, b: seq<Range>) {
    && |a| == |b| && a != []
    && var (x, y) := (a[|a| - 1].start, b[|b| - 1].start);
       x < y || (x == y && Earlier(a[..|a| - 1], b[..|b| - 1]))
  }

  /** What a layout costs in all: its lines, and four for each line after the first. */
  ghost function Total(texts: seq<string>, limit: int, ranges: seq<Range>): int
    requires Tiles(ranges, |texts|)
  {
    LayoutCost(ranges, texts, limit, |texts|) + 4 * (|ranges| - 1)
  }

  /** `a` is chosen rather than `b`: it costs less, or as much with fewer lines, or its lines start earlier from the end. */
  ghost predicate Preferred(texts: seq<string>, limit: int, a: seq<Range>, b: seq<Range>)
    requires Tiles(a, |texts|) && Tiles(b, |texts|)
  {
    var (p, q) := (Total(texts, limit, a), Total(texts, limit, b));
    p < q || (p == q && (|a| < |b| || Earlier(a, b)))
  }

  lemma {:induction false} EarlierIsStrict(a: seq<Range>, b: seq<Range>)
    ensures !(Earlier(a, b) && Earlier(b, a)) && (Earlier(a, b) ==> a != b)
  {
    if a != [] && b != [] {
      EarlierIsStrict(a[..|a| - 1], b[..|b| - 1]);
    }
  }

  /** Of equally cheap starts the inner loop takes the first. */
  lemma {:induction false} ScanTakesFirst(texts: seq<string>, limit: int, k: nat, i: nat, j: nat, acc: Cell, p: nat)
    requires 0 < k && i <= |texts| && j <= p < i && (acc.cost.Some? ==> acc.from < j)
    requires TableCell(texts, limit, k - 1, p).cost.Some?
    requires Scan(texts, limit, k, i, j, acc).cost == Some(TableCell(texts, limit, k - 1, p).cost.value + LineCost(texts, limit, p, i))
    ensures Scan(texts, limit, k, i, j, acc).from <= p
    decreases i - j
  {
    var next := Relax(texts, limit, TableCell(texts, limit, k - 1, j).cost, i, j, acc);
    if j < p {
      ScanTakesFirst(texts, limit, k, i, j + 1, next, p);
    } else {
      ScanStays(texts, limit, k, i, j + 1, next);
    }
  }

  /** A start that no later one beats is kept. */
  lemma {:induction false} ScanStays(texts: seq<string>, limit: int, k: nat, i: nat, j: nat, acc: Cell)
    requires 0 < k && i <= |texts| && acc.cost.Some?
    ensures var r := Scan(texts, limit, k, i, j, acc); r.cost.Some? && r.cost.value <= acc.cost.value && (r.cost == acc.cost ==> r == acc)
    decreases i - j
  {
    if j < i {
      ScanStays(texts, limit, k, i, j + 1, Relax(texts, limit, TableCell(texts, limit, k - 1, j).cost, i, j, acc));
    }
  }

  lemma LastLineExtends(a: seq<Range>, b: seq<Range>)
    requires |a| == |b| > 0 && a[|a| - 1] == b[|b| - 1]
    requires a[..|a| - 1] == b[..|b| - 1] || Earlier(a[..|a| - 1], b[..|b| - 1])
    ensures a == b || Earlier(a, b)
  {
    if a[..|a| - 1] == b[..|b| - 1] {
      assert a == a[..|a| - 1] + [a[|a| - 1]] && b == b[..|b| - 1] + [b[|b| - 1]];
    }
  }

  /** A layout as cheap as the cell is the one its back pointers describe, or that one starts earlier. */
  lemma {:induction false} LayoutIsEarliest(texts: seq<string>, limit: int, ranges: seq<Range>, i: nat)
    requires i <= |texts| && Tiles(ranges, i)
    requires TableCell(texts, limit, |ranges|, i).cost == Some(LayoutCost(ranges, texts, limit, i))
    ensures ranges == Layout(texts, limit, |ranges|, i) || Earlier(Layout(texts, limit, |ranges|, i), ranges)
  {
    var k := |ranges|;
    if k > 0 {
      var front, j := ranges[..k - 1], ranges[k - 1].start;
      LastLineIsFirst(texts, limit, ranges, i);
      var from := TableCell(texts, limit, k, i).from;
      CellIsAttained(texts, limit, k, i);
      var mine := Layout(texts, limit, k, i);
      assert mine[..k - 1] == Layout(texts, limit, k - 1, from) && mine[k - 1].start == from;
      if from == j {
        LayoutIsEarliest(texts, limit, front, j);
        LastLineExtends(mine, ranges);
      }
    }
  }

  /** The last line of such a layout starts no earlier than the cell's back pointer, and what is before it is as cheap as its cell. */
  lemma LastLineIsFirst(texts: seq<string>, limit: int, ranges: seq<Range>, i: nat)
    requires i <= |texts| && ranges != [] && Tiles(ranges, i)
    requires TableCell(texts, limit, |ranges|, i).cost == Some(LayoutCost(ranges, texts, limit, i))
    ensures var (front, j) := (ranges[..|ranges| - 1], ranges[|ranges| - 1].start);
            && TableCell(texts, limit, |ranges|, i).from <= j
            && TableCell(texts, limit, |ranges| - 1, j).cost == Some(LayoutCost(front, texts, limit, j))
  {
    var k := |ranges|;
    var front, j := ranges[..k - 1], ranges[k - 1].start;
    CellIsLowerBound(front, texts, limit, j);
    RangesNeedWords(front, j);
    ScanFindsMinimum(texts, limit, k, i, k - 1, Cell(None, -1));
    assert NoWorse(TableCell(texts, limit, k, i), texts, limit, k, i, j);
    ScanTakesFirst(texts, limit, k, i, k - 1, Cell(None, -1), j);
  }

  lemma {:induction false} SingleLine(ranges: seq<Range>, n: nat)
    requires Tiles(ranges, n) && n > 0 && (|ranges| <= 1 || n == 1)
    ensures ranges == [Range(0, n - 1)]
  {
    RangesNeedWords(ranges, n);
    assert ranges[..|ranges| - 1] == [];
  }

  /** The chosen layout is preferred over every other one within the number of lines. */
  lemma LinesArePreferred(texts: seq<string>, limit: int, maxLines: int, other: seq<Range>)
    requires Tiles(other, |texts|) && |other| <= Max(1, maxLines)
    ensures Tiles(Lines(texts, limit, maxLines), |texts|)
    ensures other == Lines(texts, limit, maxLines) || Preferred(texts, limit, Lines(texts, limit, maxLines), other)
  {
    var n, mine := |texts|, Lines(texts, limit, maxLines);
    LinesTile(texts, limit, maxLines);
    if n == 0 {
      RangesNeedWords(other, n);
    } else if n == 1 || maxLines <= 1 {
      SingleLine(other, n);
    } else {
      LinesAreOptimal(texts, limit, maxLines, other);
      if Total(texts, limit, mine) == Total(texts, limit, other) && |mine| == |other| {
        ChosenIsCell(texts, limit, maxLines);
        LayoutIsEarliest(texts, limit, other, n);
      }
    }
  }

  /** The chosen layout is that of its table cell, and costs what the cell says. */
  lemma ChosenIsCell(texts: seq<string>, limit: int, maxLines: int)
    requires |texts| >= 2 && maxLines >= 2
    ensures var mine := Lines(texts, limit, maxLines);
            && Tiles(mine, |texts|) && mine == Layout(texts, limit, |mine|, |texts|)
            && TableCell(texts, limit, |mine|, |texts|).cost == Some(LayoutCost(mine, texts, limit, |texts|))
  {
    OneLineIsFinite(texts, limit);
    PickIsCheapest(texts, limit, maxLines, 1, 1, None);
    CellIsAttained(texts, limit, PickLines(texts, limit, maxLines, 1, 1, None), |texts|);
  }

  // ---------------------------------------------------------------- staying within the limit

  ghost predicate LineFits(texts: seq<string>, limit: int, r: Range) {
    r.start <= r.end < |texts| && LineLen(texts, r.start, r.end + 1) <= limit
  }

  /** No line is longer than the limit. */
  ghost predicate Within(texts: seq<string>, limit: int, ranges: seq<Range>) {
    forall k :: 0 <= k < |ranges| ==> LineFits(texts, limit, ranges[k])
  }

  /** Some layout without overflow is preferred over every layout with an overflowing line. */
  ghost predicate FittingWins(texts: seq<string>, limit: int, maxLines: int) {
    exists fit :: Tiles(fit, |texts|) && |fit| <= Max(1, maxLines) && Within(texts, limit, fit) && BeatsOverflow(texts, limit, maxLines, fit)
  }

  ghost predicate BeatsOverflow(texts: seq<string>, limit: int, maxLines: int, fit: seq<Range>)
    requires Tiles(fit, |texts|)
  {
    forall over :: Tiles(over, |texts|) && |over| <= Max(1, maxLines) && !Within(texts, limit, over) ==> Preferred(texts, limit, fit, over)
  }

  /**
   * The chosen lines stay within the limit exactly when a layout without overflow is preferred, by cost, then by number of
   * lines, then by earlier starts from the end, over every layout with an overflowing line.
   */
  lemma StaysWithinExactly(texts: seq<string>, limit: int, maxLines: int)
    ensures Within(texts, limit, Lines(texts, limit, maxLines)) <==> FittingWins(texts, limit, maxLines)
  {
    var mine := Lines(texts, limit, maxLines);
    LinesTile(texts, limit, maxLines);
    if Within(texts, limit, mine) {
      forall over | Tiles(over, |texts|) && |over| <= Max(1, maxLines) && !Within(texts, limit, over)
        ensures Preferred(texts, limit, mine, over)
      {
        LinesArePreferred(texts, limit, maxLines, over);
      }
      assert BeatsOverflow(texts, limit, maxLines, mine);
    } else if FittingWins(texts, limit, maxLines) {
      var fit :| Tiles(fit, |texts|) && |fit| <= Max(1, maxLines) && Within(texts, limit, fit) && BeatsOverflow(texts, limit, maxLines, fit);
      LinesArePreferred(texts, limit, maxLines, fit);
      EarlierIsStrict(mine, fit);
    }
  }

  // ---------------------------------------------------------------- a condition to check before

  lemma CostParts(slack: int, over: int)
    ensures slack * slack + over * over * 40 >= 0 && (over >= 1 ==> slack * slack + over * over * 40 >= 40)
  {
    assert slack * slack >= 0 && over * over >= 0;
    assert over >= 1 ==> over * over >= 1;
  }

  /** A line costs nothing less than zero, and at least forty when it overflows. */
  lemma LineCostBounds(texts: seq<string>, limit: int, j: nat, i: nat)
    requires j <= i <= |texts|
    ensures LineCost(texts, limit, j, i) >= 0 && (LineLen(texts, j, i) > limit ==> LineCost(texts, limit, j, i) >= 40)
  {
    var len := LineLen(texts, j, i);
    CostParts(Max(0, limit - len), Max(0, len - limit));
  }

  /** So does a layout. */
  lemma {:induction false} OverflowCosts(texts: seq<string>, limit: int, ranges: seq<Range>, n: nat)
    requires Tiles(ranges, n) && n <= |texts|
    ensures LayoutCost(ranges, texts, limit, n) >= 0
    ensures !Within(texts, limit, ranges) ==> LayoutCost(ranges, texts, limit, n) >= 40
  {
    if ranges != [] {
      var k := |ranges| - 1;
      OverflowCosts(texts, limit, ranges[..k], ranges[k].start);
      LineCostBounds(texts, limit, ranges[k].start, n);
      assert Within(texts, limit, ranges[..k]) && LineFits(texts, limit, ranges[k]) ==> Within(texts, limit, ranges);
    }
  }

  /** A layout without overflow that costs less than forty in all keeps every chosen line within the limit. */
  lemma CheapFitSuffices(texts: seq<string>, limit: int, maxLines: int, fit: seq<Range>)
    requires Tiles(fit, |texts|) && |fit| <= Max(1, maxLines) && Within(texts, limit, fit) && Total(texts, limit, fit) < 40
    ensures Within(texts, limit, Lines(texts, limit, maxLines))
  {
    forall over | Tiles(over, |texts|) && |over| <= Max(1, maxLines) && !Within(texts, limit, over)
      ensures Preferred(texts, limit, fit, over)
    {
      OverflowCosts(texts, limit, over, |texts|);
      RangesNeedWords(over, |texts|);
    }
    assert BeatsOverflow(texts, limit, maxLines, fit);
    StaysWithinExactly(texts, limit, maxLines);
  }

  // ---------------------------------------------------------------- two cases

  /** The layouts of two words. */
  lemma TwoWords(ranges: seq<Range>)
    requires Tiles(ranges, 2)
    ensures ranges == [Range(0, 1)] || ranges == [Range(0, 0), Range(1, 1)]
  {
    RangesNeedWords(ranges, 2);
    if |ranges| == 1 {
      SingleLine(ranges, 2);
    } else {
      TilesFromFront(ranges, 2);
    }
  }

  lemma FirstLineCost(texts: seq<string>, limit: int, n: nat)
    requires 0 < n <= |texts|
    ensures Tiles([Range(0, n - 1)], n) && LayoutCost([Range(0, n - 1)], texts, limit, n) == LineCost(texts, limit, 0, n)
  {
    var one := [Range(0, n - 1)];
    assert one[..0] == [];
    assert LayoutCost(one[..0], texts, limit, 0) == 0;
  }

  lemma TwoWordCosts(texts: seq<string>, limit: int)
    requires |texts| == 2
    ensures Tiles([Range(0, 1)], 2) && Tiles([Range(0, 0), Range(1, 1)], 2)
    ensures Total(texts, limit, [Range(0, 1)]) == LineCost(texts, limit, 0, 2)
    ensures Total(texts, limit, [Range(0, 0), Range(1, 1)]) == LineCost(texts, limit, 0, 1) + LineCost(texts, limit, 1, 2) + 4
    ensures LineLen(texts, 0, 1) == |texts[0]| && LineLen(texts, 1, 2) == |texts[1]| && LineLen(texts, 0, 2) == |texts[0]| + |texts[1]| + 1
  {
    var two := [Range(0, 0), Range(1, 1)];
    FirstLineCost(texts, limit, 2);
    FirstLineCost(texts, limit, 1);
    assert two[..1] == [Range(0, 0)];
    assert LayoutCost(two, texts, limit, 2) == LayoutCost(two[..1], texts, limit, 1) + LineCost(texts, limit, 1, 2);
    assert LineLen(texts, 0, 1) == LineLen(texts, 0, 0) + |texts[0]|;
    assert LineLen(texts, 1, 2) == LineLen(texts, 1, 1) + |texts[1]|;
  }

  /** Two words of five characters fit on two lines of ten, but are put on one line of eleven. */
  lemma OverflowThoughItFits(texts: seq<string>)
    requires |texts| == 2 && |texts[0]| == |texts[1]| == 5
    ensures Lines(texts, 10, 2) == [Range(0, 1)] && !Within(texts, 10, Lines(texts, 10, 2))
    ensures Tiles([Range(0, 0), Range(1, 1)], 2) && Within(texts, 10, [Range(0, 0), Range(1, 1)])
  {
    TwoWordCosts(texts, 10);
    LinesTile(texts, 10, 2);
    LinesAreOptimal(texts, 10, 2, [Range(0, 1)]);
    OneLineIsCheaper(texts, Lines(texts, 10, 2));
  }

  lemma OneLineIsCheaper(texts: seq<string>, lines: seq<Range>)
    requires |texts| == 2 && |texts[0]| == |texts[1]| == 5
    requires Tiles(lines, 2) && Tiles([Range(0, 1)], 2) && Total(texts, 10, lines) <= Total(texts, 10, [Range(0, 1)])
    ensures lines == [Range(0, 1)] && !Within(texts, 10, lines)
  {
    TwoWordCosts(texts, 10);
    TwoWords(lines);
    assert !LineFits(texts, 10, [Range(0, 1)][0]);
  }

  /** When the limit cannot be kept it need not be the last line that overflows. */
  lemma FirstLineOverflows(texts: seq<string>)
    requires |texts| == 2 && |texts[0]| == 12 && |texts[1]| == 1
    ensures Lines(texts, 10, 2) == [Range(0, 0), Range(1, 1)]
    ensures !LineFits(texts, 10, Range(0, 0)) && LineFits(texts, 10, Range(1, 1))
  {
    TwoWordCosts(texts, 10);
    LinesTile(texts, 10, 2);
    LinesAreOptimal(texts, 10, 2, [Range(0, 0), Range(1, 1)]);
    TwoWords(Lines(texts, 10, 2));
  }
}
