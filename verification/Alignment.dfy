/** Token alignment by edit distance (packages/transcription/src/align.ts). */
module Alignment {
  import opened Common

  datatype AlignStep = Match(ref: nat, hyp: nat) | Sub(ref: nat, hyp: nat) | Ins(hyp: nat) | Del(ref: nat)

  /** Token normalisation is a parameter: it is a regular expression in the source. */
  function Normalized(norm: string -> string, tokens: seq<string>): (r: seq<string>)
    ensures |r| == |tokens|
    ensures forall k :: 0 <= k < |r| ==> r[k] == norm(tokens[k])
  {
    seq(|tokens|, k requires 0 <= k < |tokens| => norm(tokens[k]))
  }

  // ---------------------------------------------------------------- what an alignment is

  /** `steps` walks from position (i, j) to the ends of `a` and `b`, using every token once and in order. */
  ghost predicate Aligns(steps: seq<AlignStep>, a: seq<string>, b: seq<string>, i: nat, j: nat)
    decreases |steps|
  {
    if steps == [] then i == |a| && j == |b|
    else match steps[0]
      case Match(r, h) => r == i < |a| && h == j < |b| && a[i] == b[j] && Aligns(steps[1..], a, b, i + 1, j + 1)
      case Sub(r, h) => r == i < |a| && h == j < |b| && Aligns(steps[1..], a, b, i + 1, j + 1)
      case Del(r) => r == i < |a| && Aligns(steps[1..], a, b, i + 1, j)
      case Ins(h) => h == j < |b| && Aligns(steps[1..], a, b, i, j + 1)
  }

  /** The number of steps that are not matches. */
  ghost function Cost(steps: seq<AlignStep>): nat {
    if steps == [] then 0 else (if steps[0].Match? then 0 else 1) + Cost(steps[1..])
  }

  // ---------------------------------------------------------------- the distance recurrence

  function Distance(a: seq<string>, b: seq<string>, i: nat, j: nat): nat
    requires i <= |a| && j <= |b|
  {
    if i == 0 then j
    else if j == 0 then i
    else
      var diag := Distance(a, b, i - 1, j - 1) + (if a[i - 1] == b[j - 1] then 0 else 1);
      var up := Distance(a, b, i - 1, j) + 1;
      var left := Distance(a, b, i, j - 1) + 1;
      Min(diag, Min(up, left))
  }

  /** A matrix cell never exceeds the longer sequence, so the 32-bit cells of the source cannot wrap. */
  lemma DistanceFitsCell(a: seq<string>, b: seq<string>, i: nat, j: nat)
    requires i <= |a| && j <= |b|
    ensures Distance(a, b, i, j) <= Max(i, j)
  {
  }

  /** Moving one step right or down changes the distance by at most one upwards. */
  lemma DistanceStep(a: seq<string>, b: seq<string>, i: nat, j: nat)
    requires i <= |a| && j <= |b|
    ensures i < |a| ==> Distance(a, b, i + 1, j) <= Distance(a, b, i, j) + 1
    ensures j < |b| ==> Distance(a, b, i, j + 1) <= Distance(a, b, i, j) + 1
    ensures i < |a| && j < |b| ==>
              Distance(a, b, i + 1, j + 1) <= Distance(a, b, i, j) + (if a[i] == b[j] then 0 else 1)
  {
  }

  /** No walk from (i, j) to the end can cost less than the distance it has to make up. */
  lemma {:induction false} WalkCostsAtLeast(steps: seq<AlignStep>, a: seq<string>, b: seq<string>, i: nat, j: nat)
    requires i <= |a| && j <= |b| && Aligns(steps, a, b, i, j)
    ensures Distance(a, b, |a|, |b|) <= Distance(a, b, i, j) + Cost(steps)
    decreases |steps|
  {
    if steps != [] {
      DistanceStep(a, b, i, j);
      match steps[0] {
        case Match(_, _) => WalkCostsAtLeast(steps[1..], a, b, i + 1, j + 1);
        case Sub(_, _) => WalkCostsAtLeast(steps[1..], a, b, i + 1, j + 1);
        case Del(_) => WalkCostsAtLeast(steps[1..], a, b, i + 1, j);
        case Ins(_) => WalkCostsAtLeast(steps[1..], a, b, i, j + 1);
      }
    }
  }

  // ---------------------------------------------------------------- the flat matrices

  /** Row-major position of cell (i, j), the source's i * cols + j. */
  function Flat(i: nat, j: nat, cols: nat): nat {
    if i == 0 then j else Flat(i - 1, j, cols) + cols
  }

  lemma {:induction false} FlatIsRowMajor(i: nat, j: nat, cols: nat)
    ensures Flat(i, j, cols) == i * cols + j
  {
    if i > 0 {
      FlatIsRowMajor(i - 1, j, cols);
    }
  }

  lemma {:induction false} FlatOrdersRows(i: nat, j: nat, p: nat, q: nat, cols: nat)
    requires j < cols && i < p
    ensures Flat(i, j, cols) < Flat(p, q, cols)
  {
    if i == p - 1 {
      FlatIsRowMajor(i, j, cols);
      FlatIsRowMajor(i, q, cols);
    } else {
      FlatOrdersRows(i, j, p - 1, q, cols);
    }
  }

  lemma FlatInjective(i: nat, j: nat, p: nat, q: nat, cols: nat)
    requires j < cols && q < cols && (i != p || j != q)
    ensures Flat(i, j, cols) != Flat(p, q, cols)
  {
    if i < p {
      FlatOrdersRows(i, j, p, q, cols);
    } else if p < i {
      FlatOrdersRows(p, q, i, j, cols);
    } else {
      FlatIsRowMajor(i, j, cols);
      FlatIsRowMajor(p, q, cols);
    }
  }

  lemma FlatBound(i: nat, j: nat, rows: nat, cols: nat)
    requires i < rows && j < cols
    ensures Flat(i, j, cols) < rows * cols
  {
    FlatOrdersRows(i, j, rows, 0, cols);
    FlatIsRowMajor(rows, 0, cols);
  }

  /** What the back pointer of cell (i, j) promises about the distance: 0 match, 1 sub, 2 up, 3 left. */
  ghost predicate PointsBack(dir: int, a: seq<string>, b: seq<string>, i: nat, j: nat)
    requires i <= |a| && j <= |b|
  {
    var d := Distance(a, b, i, j);
    match dir
    case 0 => i + j > 0 ==> i > 0 && j > 0 && a[i - 1] == b[j - 1] && d == Distance(a, b, i - 1, j - 1)
    case 1 => i > 0 && j > 0 && a[i - 1] != b[j - 1] && d == Distance(a, b, i - 1, j - 1) + 1
    case 2 => i > 0 && d == Distance(a, b, i - 1, j) + 1
    case 3 => j > 0 && d == Distance(a, b, i, j - 1) + 1
    case _ => false
  }

  ghost predicate CellDone(dist: seq<int>, back: seq<int>, a: seq<string>, b: seq<string>, i: nat, j: nat)
    requires i <= |a| && j <= |b|
  {
    var k := Flat(i, j, |b| + 1);
    k < |dist| == |back| && dist[k] == Distance(a, b, i, j) && PointsBack(back[k], a, b, i, j)
  }

  lemma OtherCellStays(dist: seq<int>, back: seq<int>, dist': seq<int>, back': seq<int>, a: seq<string>, b: seq<string>,
                       at: nat, p: nat, q: nat)
    requires p <= |a| && q <= |b| && CellDone(dist, back, a, b, p, q) && at != Flat(p, q, |b| + 1)
    requires |dist'| == |dist| && |back'| == |back|
    requires forall k :: 0 <= k < |dist| && k != at ==> dist'[k] == dist[k] && back'[k] == back[k]
    ensures CellDone(dist', back', a, b, p, q)
  {
  }

  /** Writing a correct cell keeps every cell that was already done, and does this one. */
  lemma WriteCell(dist: seq<int>, back: seq<int>, dist': seq<int>, back': seq<int>, a: seq<string>, b: seq<string>,
                  i: nat, j: nat)
    requires i <= |a| && j <= |b|
    requires |dist| == |back| == (|a| + 1) * (|b| + 1)
    requires Flat(i, j, |b| + 1) < |dist|
    requires dist' == dist[Flat(i, j, |b| + 1) := Distance(a, b, i, j)]
    requires |back'| == |back| && back' == back[Flat(i, j, |b| + 1) := back'[Flat(i, j, |b| + 1)]]
    requires PointsBack(back'[Flat(i, j, |b| + 1)], a, b, i, j)
    ensures forall p: nat, q: nat :: p <= |a| && q <= |b| && ((p == i && q == j) || CellDone(dist, back, a, b, p, q)) ==>
                                       CellDone(dist', back', a, b, p, q)
  {
    forall p: nat, q: nat | p <= |a| && q <= |b| && ((p == i && q == j) || CellDone(dist, back, a, b, p, q))
      ensures CellDone(dist', back', a, b, p, q)
    {
      if p != i || q != j {
        FlatInjective(i, j, p, q, |b| + 1);
        OtherCellStays(dist, back, dist', back', a, b, Flat(i, j, |b| + 1), p, q);
      }
    }
  }

  // ---------------------------------------------------------------- the algorithm

  ghost predicate Matrices(dist: array<int>, back: array<int>, a: seq<string>, b: seq<string>) {
    dist != back && dist.Length == back.Length == (|a| + 1) * (|b| + 1)
  }

  /** The first column and the first row. */
  method FillBorder(n: nat, m: nat, ghost a: seq<string>, ghost b: seq<string>) returns (dist: array<int>, back: array<int>)
    requires n == |a| && m == |b|
    ensures Matrices(dist, back, a, b) && fresh(dist) && fresh(back)
    ensures forall p: nat, q: nat :: p <= n && q <= m && (p == 0 || q == 0) ==> CellDone(dist[..], back[..], a, b, p, q)
  {
    var cols := m + 1;
    dist := new int[(n + 1) * cols](_ => 0);
    back := new int[(n + 1) * cols](_ => 0);
    FlatBound(0, 0, n + 1, cols);
    assert CellDone(dist[..], back[..], a, b, 0, 0);
    for i := 1 to n + 1
      invariant forall p: nat :: p < i ==> CellDone(dist[..], back[..], a, b, p, 0)
    {
      WriteBack(dist, back, a, b, i, 0, i, 2, cols);
    }
    for j := 1 to m + 1
      invariant forall p: nat :: p <= n ==> CellDone(dist[..], back[..], a, b, p, 0)
      invariant forall q: nat :: q < j ==> CellDone(dist[..], back[..], a, b, 0, q)
    {
      WriteBack(dist, back, a, b, 0, j, j, 3, cols);
    }
  }

  /** Fill both matrices. */
  method FillMatrices(norm: string -> string, ref: seq<string>, hyp: seq<string>)
    returns (dist: array<int>, back: array<int>)
    ensures var a, b := Normalized(norm, ref), Normalized(norm, hyp);
            && Matrices(dist, back, a, b)
            && forall p: nat, q: nat :: p <= |a| && q <= |b| ==> CellDone(dist[..], back[..], a, b, p, q)
  {
    ghost var a, b := Normalized(norm, ref), Normalized(norm, hyp);
    var n, m := |ref|, |hyp|;
    var cols := m + 1;
    dist, back := FillBorder(n, m, a, b);
    for i := 1 to n + 1
      invariant forall p: nat, q: nat :: p <= n && q <= m && (p < i || q == 0) ==> CellDone(dist[..], back[..], a, b, p, q)
    {
      var r := norm(ref[i - 1]);
      for j := 1 to m + 1
        invariant forall p: nat, q: nat :: p <= n && q <= m && (p < i || q == 0 || (p == i && q < j)) ==>
                                             CellDone(dist[..], back[..], a, b, p, q)
      {
        FillCell(dist, back, a, b, i, j, r == norm(hyp[j - 1]), cols);
      }
    }
  }

  /** One inner iteration: the cheapest of the three predecessors, the diagonal first among ties. */
  method FillCell(dist: array<int>, back: array<int>, ghost a: seq<string>, ghost b: seq<string>, i: nat, j: nat,
                  same: bool, cols: nat)
    requires cols == |b| + 1 && 0 < i <= |a| && 0 < j <= |b|
    requires Matrices(dist, back, a, b)
    requires same == (a[i - 1] == b[j - 1])
    requires CellDone(dist[..], back[..], a, b, i - 1, j - 1)
    requires CellDone(dist[..], back[..], a, b, i - 1, j)
    requires CellDone(dist[..], back[..], a, b, i, j - 1)
    modifies dist, back
    ensures forall p: nat, q: nat ::
              p <= |a| && q <= |b| && ((p == i && q == j) || CellDone(old(dist[..]), old(back[..]), a, b, p, q)) ==>
                CellDone(dist[..], back[..], a, b, p, q)
  {
    var diag := dist[Flat(i - 1, j - 1, cols)] + (if same then 0 else 1);
    var up := dist[Flat(i - 1, j, cols)] + 1;
    var left := dist[Flat(i, j - 1, cols)] + 1;
    var best := diag;
    var dir := if same then 0 else 1;
    if up < best {
      best := up;
      dir := 2;
    }
    if left < best {
      best := left;
      dir := 3;
    }
    WriteBack(dist, back, a, b, i, j, best, dir, cols);
  }

  method WriteBack(dist: array<int>, back: array<int>, ghost a: seq<string>, ghost b: seq<string>, i: nat, j: nat,
                   best: int, dir: int, cols: nat)
    requires cols == |b| + 1 && i <= |a| && j <= |b|
    requires Matrices(dist, back, a, b)
    requires best == Distance(a, b, i, j) && PointsBack(dir, a, b, i, j)
    modifies dist, back
    ensures forall p: nat, q: nat ::
              p <= |a| && q <= |b| && ((p == i && q == j) || CellDone(old(dist[..]), old(back[..]), a, b, p, q)) ==>
                CellDone(dist[..], back[..], a, b, p, q)
  {
    FlatBound(i, j, |a| + 1, cols);
    dist[Flat(i, j, cols)] := best;
    back[Flat(i, j, cols)] := dir;
    WriteCell(old(dist[..]), old(back[..]), dist[..], back[..], a, b, i, j);
  }

  /** A walk through the end of both sequences in which every substitution replaces a different token. */
  ghost predicate TrueSubs(steps: seq<AlignStep>, a: seq<string>, b: seq<string>) {
    forall s :: s in steps && s.Sub? ==> s.ref < |a| && s.hyp < |b| && a[s.ref] != b[s.hyp]
  }

  /** The walk from (i, j) is true and exactly makes up the distance still missing there. */
  ghost predicate CheapestWalk(steps: seq<AlignStep>, a: seq<string>, b: seq<string>, i: nat, j: nat) {
    && i <= |a| && j <= |b|
    && Aligns(steps, a, b, i, j)
    && TrueSubs(steps, a, b)
    && Cost(steps) + Distance(a, b, i, j) == Distance(a, b, |a|, |b|)
  }

  /** The step the back pointer names, and the cell it comes from. */
  function StepBack(dir: int, i: nat, j: nat): (r: (AlignStep, nat, nat))
    requires i > 0 || j > 0
    requires dir == 3 ==> j > 0
    ensures r.1 + r.2 < i + j
  {
    if i > 0 && j > 0 && (dir == 0 || dir == 1) then
      (if dir == 0 then Match(i - 1, j - 1) else Sub(i - 1, j - 1), i - 1, j - 1)
    else if i > 0 && (dir == 2 || j == 0) then (Del(i - 1), i - 1, j)
    else (Ins(j - 1), i, j - 1)
  }

  lemma StepBackKeepsWalk(dir: int, steps: seq<AlignStep>, a: seq<string>, b: seq<string>, i: nat, j: nat)
    requires (i > 0 || j > 0) && CheapestWalk(steps, a, b, i, j) && PointsBack(dir, a, b, i, j)
    ensures var (step, i', j') := StepBack(dir, i, j); CheapestWalk([step] + steps, a, b, i', j')
  {
    var (step, i', j') := StepBack(dir, i, j);
    assert ([step] + steps)[1..] == steps;
  }

  lemma CheapestWalkIsOptimal(steps: seq<AlignStep>, a: seq<string>, b: seq<string>)
    requires CheapestWalk(steps, a, b, 0, 0)
    ensures Cost(steps) == Distance(a, b, |a|, |b|)
    ensures forall other :: Aligns(other, a, b, 0, 0) ==> Cost(steps) <= Cost(other)
  {
    forall other | Aligns(other, a, b, 0, 0)
      ensures Cost(steps) <= Cost(other)
    {
      WalkCostsAtLeast(other, a, b, 0, 0);
    }
  }

  method AlignTokens(norm: string -> string, ref: seq<string>, hyp: seq<string>) returns (steps: seq<AlignStep>)
    ensures var a, b := Normalized(norm, ref), Normalized(norm, hyp);
            && Aligns(steps, a, b, 0, 0)
            && Cost(steps) == Distance(a, b, |a|, |b|)
            && TrueSubs(steps, a, b)
            && forall other :: Aligns(other, a, b, 0, 0) ==> Cost(steps) <= Cost(other)
  {
    ghost var a, b := Normalized(norm, ref), Normalized(norm, hyp);
    var n, m := |ref|, |hyp|;
    var cols := m + 1;
    var dist, back := FillMatrices(norm, ref, hyp);
    var reversed: seq<AlignStep> := [];
    var i: nat, j: nat := n, m;
    while i > 0 || j > 0
      invariant CheapestWalk(Reverse(reversed), a, b, i, j)
      invariant forall p: nat, q: nat :: p <= n && q <= m ==> CellDone(dist[..], back[..], a, b, p, q)
      decreases i + j
    {
      assert CellDone(dist[..], back[..], a, b, i, j);
      var dir := back[Flat(i, j, cols)];
      StepBackKeepsWalk(dir, Reverse(reversed), a, b, i, j);
      var (step, p, q) := StepBack(dir, i, j);
      assert Reverse(reversed + [step]) == [step] + Reverse(reversed);
      reversed, i, j := reversed + [step], p, q;
    }
    steps := Reverse(reversed);
    CheapestWalkIsOptimal(steps, a, b);
  }

  function Reverse<T>(s: seq<T>): (r: seq<T>)
    ensures |r| == |s|
    ensures forall k :: 0 <= k < |s| ==> r[k] == s[|s| - 1 - k]
  {
    if s == [] then [] else [s[|s| - 1]] + Reverse(s[..|s| - 1])
  }
}
