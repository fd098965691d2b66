/** Line breaking by dynamic programming over (lines, words) (packages/core/src/lines.ts). */
module LineBreaking {
  import opened Common
  import opened Ranges

  // ---------------------------------------------------------------- what a layout costs

  /** Characters of words [j, i) on one line, with single spaces between them. */
  function LineLen(texts: seq<string>, j: nat, i: nat): int
    requires j <= i <= |texts|
  {
    if i == j then 0 else LineLen(texts, j, i - 1) + |texts[i - 1]| + (if i - 1 > j then 1 else 0)
  }

  /** Squared slack, and forty times squared overflow. */
  function LineCost(texts: seq<string>, limit: int, j: nat, i: nat): int
    requires j <= i <= |texts|
  {
    var len := LineLen(texts, j, i);
    var over := Max(0, len - limit);
    var slack := Max(0, limit - len);
    slack * slack + over * over * 40
  }

  ghost function LayoutCost(ranges: seq<Range>, texts: seq<string>, limit: int, n: nat): int
    requires Tiles(ranges, n) && n <= |texts|
  {
    if ranges == [] then 0
    else
      var last := ranges[|ranges| - 1];
      LayoutCost(ranges[..|ranges| - 1], texts, limit, last.start) + LineCost(texts, limit, last.start, n)
  }

  // ---------------------------------------------------------------- the two tables

  /** A table cell: the cheapest cost so far (None is infinite) and where its last line starts. */
  datatype Cell = Cell(cost: Option<int>, from: int)

  function TableCell(texts: seq<string>, limit: int, k: nat, i: nat): Cell
    requires i <= |texts|
    decreases k, 1, 0
  {
    if k == 0 then Cell(if i == 0 then Some(0) else None, -1)
    else Scan(texts, limit, k, i, k - 1, Cell(None, -1))
  }

  /** The inner loop from start position j on, with `acc` found so far. */
  function Scan(texts: seq<string>, limit: int, k: nat, i: nat, j: nat, acc: Cell): Cell
    requires 0 < k && i <= |texts|
    decreases k, 0, i - j
  {
    if j >= i then acc
    else Scan(texts, limit, k, i, j + 1, Relax(texts, limit, TableCell(texts, limit, k - 1, j).cost, i, j, acc))
  }

  function Relax(texts: seq<string>, limit: int, prev: Option<int>, i: nat, j: nat, acc: Cell): Cell
    requires j < i <= |texts|
  {
    if prev.None? then acc
    else
      var cost := prev.value + LineCost(texts, limit, j, i);
      if acc.cost.None? || cost < acc.cost.value then Cell(Some(cost), j) else acc
  }

  /** The layout the back pointers describe. */
  function Layout(texts: seq<string>, limit: int, k: nat, i: nat): seq<Range>
    requires i <= |texts|
  {
    if k == 0 then []
    else
      var j := TableCell(texts, limit, k, i).from;
      if 0 <= j < i then Layout(texts, limit, k - 1, j) + [Range(j, i - 1)] else []
  }

  /** The number of lines the source settles on, scanning k upwards from `k` with `best` found so far. */
  function PickLines(texts: seq<string>, limit: int, maxLines: int, k: nat, bestK: nat, best: Option<int>): nat
    requires 1 <= k
    decreases maxLines - k
  {
    if k > maxLines then bestK
    else
      var c := TableCell(texts, limit, k, |texts|).cost;
      if c.Some? && (best.None? || c.value + (k - 1) * 4 < best.value)
      then PickLines(texts, limit, maxLines, k + 1, k, Some(c.value + (k - 1) * 4))
      else PickLines(texts, limit, maxLines, k + 1, bestK, best)
  }

  function Lines(texts: seq<string>, limit: int, maxLines: int): seq<Range> {
    var n := |texts|;
    if n == 0 then []
    else if n == 1 || maxLines <= 1 then [Range(0, n - 1)]
    else Layout(texts, limit, PickLines(texts, limit, maxLines, 1, 1, None), n)
  }

  // ---------------------------------------------------------------- the tables are right

  /** `c` is no worse than ending line k at word i with a line that starts at j. */
  ghost predicate NoWorse(c: Cell, texts: seq<string>, limit: int, k: nat, i: nat, j: nat)
    requires 0 < k && j < i <= |texts|
  {
    var prev := TableCell(texts, limit, k - 1, j).cost;
    prev.Some? ==> c.cost.Some? && c.cost.value <= prev.value + LineCost(texts, limit, j, i)
  }

  /** The inner loop ends no worse than `acc` and than every start it looked at, and takes one of them. */
  lemma {:induction false} ScanFindsMinimum(texts: seq<string>, limit: int, k: nat, i: nat, j: nat, acc: Cell)
    requires 0 < k && i <= |texts|
    ensures var r := Scan(texts, limit, k, i, j, acc);
            && (acc.cost.Some? ==> r.cost.Some? && r.cost.value <= acc.cost.value)
            && (forall p: nat :: j <= p < i ==> NoWorse(r, texts, limit, k, i, p))
            && (r == acc || (j <= r.from < i && TableCell(texts, limit, k - 1, r.from).cost.Some? &&
                             r.cost == Some(TableCell(texts, limit, k - 1, r.from).cost.value + LineCost(texts, limit, r.from, i))))
    decreases i - j
  {
    if j < i {
      var prev := TableCell(texts, limit, k - 1, j).cost;
      ScanFindsMinimum(texts, limit, k, i, j + 1, Relax(texts, limit, prev, i, j, acc));
    }
  }

  /** Cell (k, i) is at most the cost of every layout of i words in exactly k lines. */
  lemma {:induction false} CellIsLowerBound(ranges: seq<Range>, texts: seq<string>, limit: int, i: nat)
    requires i <= |texts| && Tiles(ranges, i)
    ensures var c := TableCell(texts, limit, |ranges|, i).cost;
            c.Some? && c.value <= LayoutCost(ranges, texts, limit, i)
  {
    var k := |ranges|;
    if k > 0 {
      var j := ranges[k - 1].start;
      CellIsLowerBound(ranges[..k - 1], texts, limit, j);
      RangesNeedWords(ranges[..k - 1], j);
      ScanFindsMinimum(texts, limit, k, i, k - 1, Cell(None, -1));
      assert NoWorse(TableCell(texts, limit, k, i), texts, limit, k, i, j);
    }
  }

  /** A finite cell is the cost of the layout its back pointers describe. */
  lemma {:induction false} CellIsAttained(texts: seq<string>, limit: int, k: nat, i: nat)
    requires i <= |texts| && TableCell(texts, limit, k, i).cost.Some?
    ensures var r := Layout(texts, limit, k, i);
            && Tiles(r, i) && |r| == k
            && LayoutCost(r, texts, limit, i) == TableCell(texts, limit, k, i).cost.value
    ensures k > 0 ==> var j := TableCell(texts, limit, k, i).from;
                      && 0 <= j < i && TableCell(texts, limit, k - 1, j).cost.Some?
                      && Layout(texts, limit, k, i) == Layout(texts, limit, k - 1, j) + [Range(j, i - 1)]
  {
    if k > 0 {
      ScanFindsMinimum(texts, limit, k, i, k - 1, Cell(None, -1));
      var j := TableCell(texts, limit, k, i).from;
      CellIsAttained(texts, limit, k - 1, j);
      var r := Layout(texts, limit, k, i);
      assert r[..|r| - 1] == Layout(texts, limit, k - 1, j);
    }
  }

  // ---------------------------------------------------------------- the choice of line count

  /** Total price of the best layout in exactly k lines, four per extra line. */
  ghost function Price(texts: seq<string>, limit: int, k: nat): Option<int> {
    var c := TableCell(texts, limit, k, |texts|).cost;
    if c.Some? then Some(c.value + (k - 1) * 4) else None
  }

  ghost predicate Cheapest(texts: seq<string>, limit: int, chosen: nat, price: int, upTo: int) {
    && 1 <= chosen && Price(texts, limit, chosen) == Some(price)
    && forall k: nat :: 1 <= k <= upTo && Price(texts, limit, k).Some? ==>
                          && price <= Price(texts, limit, k).value
                          && (price == Price(texts, limit, k).value ==> chosen <= k)
  }

  lemma {:induction false} PickIsCheapest(texts: seq<string>, limit: int, maxLines: int, k: nat, bestK: nat, best: Option<int>)
    requires 1 <= k && bestK <= maxLines
    requires best.Some? ==> bestK < k && Cheapest(texts, limit, bestK, best.value, k - 1)
    requires best.None? ==> forall q: nat :: 1 <= q < k ==> Price(texts, limit, q).None?
    requires best.Some? || exists q: nat :: k <= q <= maxLines && Price(texts, limit, q).Some?
    ensures var r := PickLines(texts, limit, maxLines, k, bestK, best);
            && 1 <= r <= maxLines && Price(texts, limit, r).Some?
            && Cheapest(texts, limit, r, Price(texts, limit, r).value, maxLines)
    decreases maxLines - k
  {
    if k <= maxLines {
      var c := Price(texts, limit, k);
      if c.Some? && (best.None? || c.value < best.value) {
        PickIsCheapest(texts, limit, maxLines, k + 1, k, c);
      } else {
        PickIsCheapest(texts, limit, maxLines, k + 1, bestK, best);
      }
    }
  }

  lemma OneLineIsFinite(texts: seq<string>, limit: int)
    requires |texts| > 0
    ensures Price(texts, limit, 1).Some?
  {
    var one := [Range(0, |texts| - 1)];
    assert one[..0] == [];
    CellIsLowerBound(one, texts, limit, |texts|);
  }

  // ---------------------------------------------------------------- main results

  /** Every word is on exactly one line, in order, and there are at most max(1, maxLines) lines. */
  lemma LinesTile(texts: seq<string>, limit: int, maxLines: int)
    ensures Tiles(Lines(texts, limit, maxLines), |texts|)
    ensures |Lines(texts, limit, maxLines)| <= Max(1, maxLines)
  {
    var n := |texts|;
    if n == 1 || (n > 0 && maxLines <= 1) {
      var one := [Range(0, n - 1)];
      assert one[..0] == [];
    } else if n > 0 {
      OneLineIsFinite(texts, limit);
      PickIsCheapest(texts, limit, maxLines, 1, 1, None);
      CellIsAttained(texts, limit, PickLines(texts, limit, maxLines, 1, 1, None), n);
    }
  }

  /** No layout within the line limit is cheaper, and none as cheap uses fewer lines. */
  lemma LinesAreOptimal(texts: seq<string>, limit: int, maxLines: int, other: seq<Range>)
    requires |texts| >= 2 && maxLines >= 2
    requires Tiles(other, |texts|) && |other| <= maxLines
    ensures Tiles(Lines(texts, limit, maxLines), |texts|)
    ensures var r := Lines(texts, limit, maxLines);
            var mine := LayoutCost(r, texts, limit, |texts|) + 4 * (|r| - 1);
            var theirs := LayoutCost(other, texts, limit, |texts|) + 4 * (|other| - 1);
            mine <= theirs && (mine == theirs ==> |r| <= |other|)
  {
    LinesTile(texts, limit, maxLines);
    OneLineIsFinite(texts, limit);
    PickIsCheapest(texts, limit, maxLines, 1, 1, None);
    var k := PickLines(texts, limit, maxLines, 1, 1, None);
    CellIsAttained(texts, limit, k, |texts|);
    CellIsLowerBound(other, texts, limit, |texts|);
    RangesNeedWords(other, |texts|);
    assert Price(texts, limit, |other|).Some?;
  }

  // ---------------------------------------------------------------- the algorithm

  method LineLength(texts: seq<string>, j: nat, i: nat) returns (sum: int)
    requires j <= i <= |texts|
    ensures sum == LineLen(texts, j, i)
  {
    sum := 0;
    for k := j to i
      invariant sum == LineLen(texts, j, k)
    {
      sum := sum + |texts[k]| + (if k > j then 1 else 0);
    }
  }

  /** One cell of both tables: the loop over the possible starts of line k. */
  method FillCell(dp: array2<Option<int>>, from: array2<int>, texts: seq<string>, maxCharsPerLine: int, maxLines: int,
                  k: nat, i: nat)
    requires TableShape(dp, from, texts, maxLines) && 1 <= k <= maxLines && 1 <= i <= |texts|
    requires forall p: nat, q: nat :: p == k - 1 && q < i ==> Holds(dp, from, texts, maxCharsPerLine, p, q)
    requires dp[k, i] == None && from[k, i] == -1
    modifies dp, from
    ensures Holds(dp, from, texts, maxCharsPerLine, k, i)
    ensures forall p: nat, q: nat :: p <= maxLines && q <= |texts| && (p != k || q != i) ==>
                                       dp[p, q] == old(dp[p, q]) && from[p, q] == old(from[p, q])
    ensures forall p: nat, q: nat :: p <= maxLines && q <= |texts| && old(Holds(dp, from, texts, maxCharsPerLine, p, q)) ==>
                                       Holds(dp, from, texts, maxCharsPerLine, p, q)
  {
    var j := k - 1;
    while j < i
      invariant k - 1 <= j
      invariant Scan(texts, maxCharsPerLine, k, i, j, Cell(dp[k, i], from[k, i])) == TableCell(texts, maxCharsPerLine, k, i)
      invariant forall p: nat, q: nat :: p <= maxLines && q <= |texts| && (p != k || q != i) ==>
                                           dp[p, q] == old(dp[p, q]) && from[p, q] == old(from[p, q])
    {
      assert old(Holds(dp, from, texts, maxCharsPerLine, k - 1, j));
      var prev := dp[k - 1, j];
      if prev.Some? {
        var len := LineLength(texts, j, i);
        var over := Max(0, len - maxCharsPerLine);
        var slack := Max(0, maxCharsPerLine - len);
        var cost := prev.value + slack * slack + over * over * 40;
        if dp[k, i].None? || cost < dp[k, i].value {
          dp[k, i] := Some(cost);
          from[k, i] := j;
        }
      }
      j := j + 1;
    }
  }

  ghost predicate TableShape(dp: array2<Option<int>>, from: array2<int>, texts: seq<string>, maxLines: int) {
    dp.Length0 == from.Length0 == maxLines + 1 && dp.Length1 == from.Length1 == |texts| + 1
  }

  method BreakLines(texts: seq<string>, maxCharsPerLine: int, maxLines: int) returns (ranges: seq<Range>)
    ensures ranges == Lines(texts, maxCharsPerLine, maxLines)
  {
    var n := |texts|;
    if n == 0 {
      return [];
    }
    if n == 1 || maxLines <= 1 {
      return [Range(0, n - 1)];
    }
    var dp := new Option<int>[maxLines + 1, n + 1]((_, _) => None);
    var from := new int[maxLines + 1, n + 1]((_, _) => -1);
    dp[0, 0] := Some(0);
    for k := 1 to maxLines + 1
      invariant forall p: nat, q: nat :: p < k && q <= n ==> Holds(dp, from, texts, maxCharsPerLine, p, q)
      invariant forall p: nat, q: nat :: k <= p <= maxLines && q <= n ==> dp[p, q] == None && from[p, q] == -1
    {
      assert Holds(dp, from, texts, maxCharsPerLine, k, 0);
      for i := 1 to n + 1
        invariant forall p: nat, q: nat :: (p < k && q <= n) || (p == k && q < i) ==>
                                             Holds(dp, from, texts, maxCharsPerLine, p, q)
        invariant forall p: nat, q: nat :: p <= maxLines && q <= n && (k < p || (p == k && i <= q)) ==>
                                             dp[p, q] == None && from[p, q] == -1
      {
        FillCell(dp, from, texts, maxCharsPerLine, maxLines, k, i);
      }
    }
    ranges := Choose(dp, from, texts, maxCharsPerLine, maxLines);
  }

  ghost predicate Holds(dp: array2<Option<int>>, from: array2<int>, texts: seq<string>, limit: int, k: nat, i: nat)
    requires k < dp.Length0 == from.Length0 && i < dp.Length1 == from.Length1 && i <= |texts|
    reads dp, from
  {
    Cell(dp[k, i], from[k, i]) == TableCell(texts, limit, k, i)
  }

  /** The number of lines, then the back pointers from the last word. */
  method Choose(dp: array2<Option<int>>, from: array2<int>, texts: seq<string>, limit: int, maxLines: int)
    returns (ranges: seq<Range>)
    requires |texts| >= 2 && maxLines >= 2
    requires TableShape(dp, from, texts, maxLines)
    requires forall p: nat, q: nat :: p <= maxLines && q <= |texts| ==> Holds(dp, from, texts, limit, p, q)
    ensures ranges == Lines(texts, limit, maxLines)
  {
    var n := |texts|;
    var bestK, bestCost := 1, None;
    for k := 1 to maxLines + 1
      invariant 1 <= bestK <= maxLines
      invariant PickLines(texts, limit, maxLines, k, bestK, bestCost) == PickLines(texts, limit, maxLines, 1, 1, None)
    {
      assert Holds(dp, from, texts, limit, k, n);
      var c := dp[k, n];
      if c.Some? && (bestCost.None? || c.value + (k - 1) * 4 < bestCost.value) {
        bestCost := Some(c.value + (k - 1) * 4);
        bestK := k;
      }
    }
    OneLineIsFinite(texts, limit);
    PickIsCheapest(texts, limit, maxLines, 1, 1, None);
    ranges := [];
    var i: nat := n;
    for k := bestK downto 0
      invariant i <= n && TableCell(texts, limit, k, i).cost.Some?
      invariant Layout(texts, limit, bestK, n) == Layout(texts, limit, k, i) + ranges
    {
      CellIsAttained(texts, limit, k + 1, i);
      assert Holds(dp, from, texts, limit, k + 1, i);
      var j := from[k + 1, i];
      ranges := [Range(j, i - 1)] + ranges;
      i := j;
    }
  }
}
