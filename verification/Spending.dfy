/** In which order credit pools are spent, and how much is taken from each (packages/storage/src/postgres-store.ts). */
module Spending {
  import opened Common
  import opened Sums

  datatype PoolKind = SUBSCRIPTION | FREE | ADMIN | PURCHASED

  /** Idempotency keys: any text a client sends, and the keys the store derives for its own ledger entries. */
  datatype Key = Client(text: string) | ForReserve(quote: string) | ForSettle(reservation: nat) | ForRelease(reservation: nat)

  /** A credit pool row; its id is its position in the table. */
  datatype Pool = Pool(ws: string, kind: PoolKind, original: int, available: int, reserved: int, expiresAt: Option<int>,
                       key: Key, createdAt: int)

  // ---------------------------------------------------------------- spending order

  function Rank(kind: PoolKind): int {
    match kind
    case SUBSCRIPTION => 0
    case FREE => 1
    case ADMIN => 2
    case PURCHASED => 3
  }

  /** `a` is spent before `b`: by kind, then pools that expire first, then earlier expiry, then earlier creation. */
  predicate Before(a: Pool, b: Pool) {
    if Rank(a.kind) != Rank(b.kind) then Rank(a.kind) < Rank(b.kind)
    else if a.expiresAt.None? != b.expiresAt.None? then b.expiresAt.None?
    else if a.expiresAt.Some? && a.expiresAt.value != b.expiresAt.value then a.expiresAt.value < b.expiresAt.value
    else a.createdAt < b.createdAt
  }

  predicate Spendable(p: Pool, ws: string, now: int) {
    p.ws == ws && p.available > 0 && (p.expiresAt.None? || p.expiresAt.value > now)
  }

  ghost predicate IndicesOf(order: seq<nat>, pools: seq<Pool>) {
    forall k :: 0 <= k < |order| ==> order[k] < |pools|
  }

  /** Insert pool i behind every pool that is not spent after it. */
  function Insert(order: seq<nat>, pools: seq<Pool>, i: nat): (r: seq<nat>)
    requires IndicesOf(order, pools) && i < |pools|
    ensures IndicesOf(r, pools) && |r| == |order| + 1
  {
    if order == [] || !Before(pools[i], pools[order[|order| - 1]]) then order + [i]
    else Insert(order[..|order| - 1], pools, i) + [order[|order| - 1]]
  }

  /** The spendable ones among the first n pools, in spending order. */
  function SpendOrder(pools: seq<Pool>, ws: string, now: int, n: nat): (r: seq<nat>)
    requires n <= |pools|
    ensures IndicesOf(r, pools)
  {
    if n == 0 then []
    else
      var rest := SpendOrder(pools, ws, now, n - 1);
      if Spendable(pools[n - 1], ws, now) then Insert(rest, pools, n - 1) else rest
  }

  ghost predicate Distinct(order: seq<nat>) {
    forall j, k :: 0 <= j < k < |order| ==> order[j] != order[k]
  }

  ghost predicate InSpendOrder(order: seq<nat>, pools: seq<Pool>)
    requires IndicesOf(order, pools)
  {
    forall j, k :: 0 <= j < k < |order| ==> !Before(pools[order[k]], pools[order[j]])
  }

  lemma BeforeIsStrictOrder(a: Pool, b: Pool, c: Pool)
    ensures !(Before(a, b) && Before(b, a))
    ensures !Before(b, a) && !Before(c, b) ==> !Before(c, a)
  {
  }

  lemma Snoc(front: seq<nat>, last: nat)
    ensures forall x :: x in front + [last] <==> x in front || x == last
    ensures Distinct(front) && last !in front ==> Distinct(front + [last])
  {
  }

  lemma {:induction false} InsertMembers(order: seq<nat>, pools: seq<Pool>, i: nat)
    requires IndicesOf(order, pools) && i < |pools| && Distinct(order) && i !in order
    ensures var r := Insert(order, pools, i); Distinct(r) && forall x :: x in r <==> x in order || x == i
  {
    if order == [] || !Before(pools[i], pools[order[|order| - 1]]) {
      Snoc(order, i);
    } else {
      var front, last := order[..|order| - 1], order[|order| - 1];
      assert order == front + [last];
      InsertMembers(front, pools, i);
      Snoc(front, last);
      Snoc(Insert(front, pools, i), last);
    }
  }

  /** No listed pool is spent after `last`. */
  ghost predicate NoneAfter(order: seq<nat>, pools: seq<Pool>, last: nat)
    requires IndicesOf(order, pools) && last < |pools|
  {
    forall x :: x in order ==> !Before(pools[last], pools[x])
  }

  lemma SnocInOrder(front: seq<nat>, pools: seq<Pool>, last: nat)
    requires IndicesOf(front, pools) && last < |pools|
    ensures InSpendOrder(front, pools) && NoneAfter(front, pools, last) ==> InSpendOrder(front + [last], pools)
    ensures InSpendOrder(front + [last], pools) ==> InSpendOrder(front, pools) && NoneAfter(front, pools, last)
  {
    var r := front + [last];
    assert forall k :: 0 <= k < |front| ==> r[k] == front[k];
    if InSpendOrder(r, pools) {
      forall x | x in front
        ensures !Before(pools[last], pools[x])
      {
        var j :| 0 <= j < |front| && front[j] == x;
        assert r[j] == x && r[|front|] == last;
      }
      forall j, k | 0 <= j < k < |front|
        ensures !Before(pools[front[k]], pools[front[j]])
      {
        assert r[j] == front[j] && r[k] == front[k];
      }
    }
  }

  lemma {:induction false} InsertKeepsOrder(order: seq<nat>, pools: seq<Pool>, i: nat)
    requires IndicesOf(order, pools) && i < |pools| && InSpendOrder(order, pools)
    requires Distinct(order) && i !in order
    ensures InSpendOrder(Insert(order, pools, i), pools)
  {
    if order != [] {
      var front, last := order[..|order| - 1], order[|order| - 1];
      assert order == front + [last];
      SnocInOrder(front, pools, last);
      if Before(pools[i], pools[last]) {
        InsertKeepsOrder(front, pools, i);
        InsertMembers(front, pools, i);
        BeforeIsStrictOrder(pools[i], pools[last], pools[last]);
        SnocInOrder(Insert(front, pools, i), pools, last);
      } else {
        forall x | x in order
          ensures !Before(pools[i], pools[x])
        {
          BeforeIsStrictOrder(pools[x], pools[last], pools[i]);
          BeforeIsStrictOrder(pools[last], pools[last], pools[last]);
        }
        SnocInOrder(order, pools, i);
      }
    }
  }

  /** The order lists every spendable pool once, none after a pool that is spent after it. */
  lemma {:induction false} SpendOrderIsRight(pools: seq<Pool>, ws: string, now: int, n: nat)
    requires n <= |pools|
    ensures var r := SpendOrder(pools, ws, now, n); InSpendOrder(r, pools) && Distinct(r)
    ensures forall i: nat :: i in SpendOrder(pools, ws, now, n) <==> i < n && Spendable(pools[i], ws, now)
  {
    if n > 0 {
      var rest := SpendOrder(pools, ws, now, n - 1);
      SpendOrderIsRight(pools, ws, now, n - 1);
      if Spendable(pools[n - 1], ws, now) {
        assert n - 1 !in rest;
        InsertMembers(rest, pools, n - 1);
        InsertKeepsOrder(rest, pools, n - 1);
      }
    }
  }

  // ---------------------------------------------------------------- taking an amount along an order

  function Zeros(n: nat): (z: seq<int>)
    ensures |z| == n && forall i :: 0 <= i < n ==> z[i] == 0
  {
    seq(n, _ => 0)
  }

  predicate Indexes(order: seq<nat>, avail: seq<int>) {
    forall k :: 0 <= k < |order| ==> order[k] < |avail|
  }

  /** What is left of `need` after the first n entries of `order` have given what they have. */
  function Left(order: seq<nat>, avail: seq<int>, need: int, n: nat): int
    requires n <= |order| && Indexes(order, avail)
  {
    if n == 0 then need
    else
      var left := Left(order, avail, need, n - 1);
      left - Min(left, avail[order[n - 1]])
  }

  /** What each entry of `avail` has given by then. */
  function Drain(order: seq<nat>, avail: seq<int>, need: int, n: nat): (r: seq<int>)
    requires n <= |order| && Indexes(order, avail)
    ensures |r| == |avail|
  {
    if n == 0 then Zeros(|avail|)
    else Drain(order, avail, need, n - 1)[order[n - 1] := Min(Left(order, avail, need, n - 1), avail[order[n - 1]])]
  }

  ghost predicate Drainable(order: seq<nat>, avail: seq<int>) {
    && Indexes(order, avail) && Distinct(order)
    && forall k :: 0 <= k < |order| ==> avail[order[k]] >= 0
  }

  ghost predicate Listed(order: seq<nat>, n: nat, i: nat)
    requires n <= |order|
  {
    exists k :: 0 <= k < n && order[k] == i
  }

  lemma {:induction false} LeftFalls(order: seq<nat>, avail: seq<int>, need: nat, k: nat, n: nat)
    requires Drainable(order, avail) && k <= n <= |order|
    ensures 0 <= Left(order, avail, need, n) <= Left(order, avail, need, k)
    decreases n
  {
    if k < n {
      LeftFalls(order, avail, need, k, n - 1);
    } else if n > 0 {
      LeftFalls(order, avail, need, n - 1, n - 1);
    }
  }

  lemma {:induction false} DrainAt(order: seq<nat>, avail: seq<int>, need: int, k: nat, n: nat)
    requires Drainable(order, avail) && k < n <= |order|
    ensures Drain(order, avail, need, n)[order[k]] == Min(Left(order, avail, need, k), avail[order[k]])
  {
    if k < n - 1 {
      DrainAt(order, avail, need, k, n - 1);
    }
  }

  lemma {:induction false} DrainElsewhere(order: seq<nat>, avail: seq<int>, need: int, n: nat, i: nat)
    requires n <= |order| && Indexes(order, avail) && i < |avail| && !Listed(order, n, i)
    ensures Drain(order, avail, need, n)[i] == 0
  {
    if n > 0 {
      assert !Listed(order, n - 1, i) by {
        if k: nat :| k < n - 1 && order[k] == i {
          assert Listed(order, n, i);
        }
      }
      assert order[n - 1] != i;
      DrainElsewhere(order, avail, need, n - 1, i);
    }
  }

  /** Entries give at most what they have, and those outside the order nothing. */
  lemma DrainBounds(order: seq<nat>, avail: seq<int>, need: nat, n: nat, i: nat)
    requires Drainable(order, avail) && n <= |order| && i < |avail|
    ensures var given := Drain(order, avail, need, n)[i];
            if Listed(order, n, i) then 0 <= given <= avail[i] else given == 0
  {
    if k: nat :| k < n && order[k] == i {
      DrainAt(order, avail, need, k, n);
      LeftFalls(order, avail, need, k, k);
    } else {
      DrainElsewhere(order, avail, need, n, i);
    }
  }

  /** When nothing is needed any more the rest of the order is left alone. */
  lemma {:induction false} DrainStops(order: seq<nat>, avail: seq<int>, need: nat, k: nat, n: nat)
    requires Drainable(order, avail) && k <= n <= |order| && Left(order, avail, need, k) == 0
    ensures Drain(order, avail, need, n) == Drain(order, avail, need, k) && Left(order, avail, need, n) == 0
    decreases n
  {
    if k < n {
      DrainStops(order, avail, need, k, n - 1);
      DrainElsewhere(order, avail, need, n - 1, order[n - 1]);
    }
  }

  /** Whatever is taken from an entry, every entry earlier in the order has been emptied first. */
  lemma DrainsInOrder(order: seq<nat>, avail: seq<int>, need: nat, j: nat, k: nat)
    requires Drainable(order, avail) && j < k < |order|
    ensures var r := Drain(order, avail, need, |order|);
            r[order[k]] > 0 ==> r[order[j]] == avail[order[j]]
  {
    DrainAt(order, avail, need, j, |order|);
    DrainAt(order, avail, need, k, |order|);
    LeftFalls(order, avail, need, j + 1, k);
  }

  /** The entries listed among the first n of `order`, zero elsewhere. */
  ghost function Masked(avail: seq<int>, order: seq<nat>, n: nat): (r: seq<int>)
    requires n <= |order|
    ensures |r| == |avail|
  {
    seq(|avail|, i requires 0 <= i < |avail| => if Listed(order, n, i) then avail[i] else 0)
  }

  lemma MaskedNext(avail: seq<int>, order: seq<nat>, n: nat)
    requires 0 < n <= |order| && Distinct(order) && Indexes(order, avail)
    ensures !Listed(order, n - 1, order[n - 1]) && Masked(avail, order, n - 1)[order[n - 1]] == 0
    ensures Masked(avail, order, n) == Masked(avail, order, n - 1)[order[n - 1] := avail[order[n - 1]]]
  {
    forall i: nat | i < |avail|
      ensures Listed(order, n, i) <==> i == order[n - 1] || Listed(order, n - 1, i)
    {
      if i == order[n - 1] {
        assert Listed(order, n, i);
      } else if k: nat :| k < n - 1 && order[k] == i {
        assert Listed(order, n, i);
      }
    }
  }

  ghost predicate Balanced(order: seq<nat>, avail: seq<int>, need: int, n: nat, masked: seq<int>)
    requires n <= |order| && Indexes(order, avail)
  {
    && Sum(Drain(order, avail, need, n)) == Min(need, Sum(masked))
    && Left(order, avail, need, n) == need - Sum(Drain(order, avail, need, n))
  }

  lemma BalancedNext(order: seq<nat>, avail: seq<int>, need: int, n: nat, masked: seq<int>)
    requires 0 < n <= |order| && Indexes(order, avail) && |masked| == |avail| && avail[order[n - 1]] >= 0
    requires Drain(order, avail, need, n - 1)[order[n - 1]] == 0 && masked[order[n - 1]] == 0
    requires Balanced(order, avail, need, n - 1, masked)
    ensures Balanced(order, avail, need, n, masked[order[n - 1] := avail[order[n - 1]]])
  {
    var x, before := order[n - 1], Drain(order, avail, need, n - 1);
    SumUpdate(before, x, Min(Left(order, avail, need, n - 1), avail[x]));
    SumUpdate(masked, x, avail[x]);
  }

  /** Exactly the need is taken if there is enough, else everything. */
  lemma {:induction false} DrainSum(order: seq<nat>, avail: seq<int>, need: nat, n: nat)
    requires Drainable(order, avail) && n <= |order|
    ensures Balanced(order, avail, need, n, Masked(avail, order, n))
  {
    if n == 0 {
      SumZero(Zeros(|avail|));
      SumZero(Masked(avail, order, 0));
    } else {
      DrainSum(order, avail, need, n - 1);
      MaskedNext(avail, order, n);
      DrainElsewhere(order, avail, need, n - 1, order[n - 1]);
      BalancedNext(order, avail, need, n, Masked(avail, order, n - 1));
    }
  }
}
