/** What settling and releasing give back (packages/storage/src/postgres-store.ts). */
module LedgerRoundTrips {
  import opened Common
  import opened Sums
  import opened Spending
  import opened Ledger
  import opened LedgerInvariant

  /** The charge asked for, kept between nothing and the whole reservation; the whole of it when none is asked for. */
  ghost predicate IsCharge(amount: int, actual: Option<int>, charge: int) {
    if actual.None? || actual.value >= amount then charge == amount
    else charge == if actual.value <= 0 then 0 else actual.value
  }

  lemma UsedInOrder(db: Db, r: nat, charge: nat, p: nat, q: nat)
    requires Inv(db) && r < |db.reservations| && charge <= db.reservations[r].amount && p < q < |db.pools|
    ensures Consumed(db, r, charge)[q] > 0 ==> Consumed(db, r, charge)[p] == Allocated(db.allocations, r, p)
  {
    var n := |db.pools|;
    var row := AllocRow(db.allocations, r, n);
    forall i: nat | i < n
      ensures row[i] >= 0
    {
      assert AllocationOk(db, r, i);
    }
    assert Identity(n)[p] == p && Identity(n)[q] == q;
    DrainsInOrder(Identity(n), row, charge, p, q);
  }

  /** Pools after reservation r ended: what it held leaves the hold, and what was not used comes back. */
  ghost predicate PoolsSettled(db: Db, db': Db, r: nat, used: seq<int>) {
    && |db'.pools| == |db.pools| == |used|
    && forall p: nat :: p < |db.pools| ==>
                          var held := Allocated(db.allocations, r, p);
                          && 0 <= used[p] <= held
                          && db'.pools[p] == db.pools[p].(reserved := db.pools[p].reserved - held,
                                                          available := db.pools[p].available + held - used[p])
  }

  lemma ClosedPools(db: Db, r: nat, charge: nat, status: Status, kind: EntryKind, key: Key)
    requires Closes(db, r, charge, status, kind)
    ensures PoolsSettled(db, Closed(db, r, charge, status, kind, key), r, Consumed(db, r, charge))
  {
    ClampsNeverBind(db, r);
    ConsumedIsRight(db, r, charge);
    var db' := Closed(db, r, charge, status, kind, key);
    var row, used := AllocRow(db.allocations, r, |db.pools|), Consumed(db, r, charge);
    forall p: nat | p < |db.pools|
      ensures 0 <= used[p] <= Allocated(db.allocations, r, p)
      ensures db'.pools[p] == db.pools[p].(reserved := db.pools[p].reserved - Allocated(db.allocations, r, p),
                                           available := db.pools[p].available + Allocated(db.allocations, r, p) - used[p])
    {
      assert row[p] == Allocated(db.allocations, r, p);
    }
  }

  /** The charge is taken from the allocated pools in order of their rows, one emptied before the next. */
  ghost predicate ChargedInOrder(db: Db, db': Db, r: nat, charge: int) {
    exists used :: Sum(used) == charge && PoolsSettled(db, db', r, used) &&
                   forall p: nat, q: nat :: p < q < |used| && used[q] > 0 ==> used[p] == Allocated(db.allocations, r, p)
  }

  lemma ClosedInOrder(db: Db, r: nat, charge: nat, status: Status, kind: EntryKind, key: Key)
    requires Closes(db, r, charge, status, kind)
    ensures ChargedInOrder(db, Closed(db, r, charge, status, kind, key), r, charge)
  {
    var used := Consumed(db, r, charge);
    ConsumedIsRight(db, r, charge);
    ClosedPools(db, r, charge, status, kind, key);
    forall p: nat, q: nat | p < q < |used| && used[q] > 0
      ensures used[p] == Allocated(db.allocations, r, p)
    {
      UsedInOrder(db, r, charge, p, q);
    }
    assert Sum(used) == charge && PoolsSettled(db, Closed(db, r, charge, status, kind, key), r, used);
  }

  lemma ClosedBalance(db: Db, r: nat, charge: nat, status: Status, kind: EntryKind, key: Key)
    requires Closes(db, r, charge, status, kind)
    ensures var res, db' := db.reservations[r], Closed(db, r, charge, status, kind, key);
            && Balance(db', res.ws) == Account(Balance(db, res.ws).available + res.amount - charge, Balance(db, res.ws).reserved - res.amount)
            && forall w :: w != res.ws ==> Balance(db', w) == Balance(db, w)
  {
    ClampsNeverBind(db, r);
  }

  /** The first settlement charges what was asked for within the reservation; the hold ends, the rest is available again. */
  lemma SettleMovesExactly(db: Db, r: nat, actual: Option<int>)
    requires Inv(db) && r < |db.reservations| && db.reservations[r].status.RESERVED?
    requires !KeyUsed(db.ledger, db.reservations[r].ws, ForSettle(r))
    ensures var res, o := db.reservations[r], Settle(db, r, actual);
            && o.Ok? && o.value.changed && r < |o.value.db.reservations| && o.value.db.reservations[r].status.SETTLED?
            && var db' := o.value.db;
               var charge := db'.reservations[r].status.actual;
               && IsCharge(res.amount, actual, charge) && ChargedInOrder(db, db', r, charge)
               && Balance(db', res.ws) == Account(Balance(db, res.ws).available + res.amount - charge, Balance(db, res.ws).reserved - res.amount)
               && forall w :: w != res.ws ==> Balance(db', w) == Balance(db, w)
  {
    assert ReservationOk(db, r);
    var charge := Charge(db.reservations[r].amount, actual);
    ClosedInOrder(db, r, charge, SETTLED(charge), SETTLE, ForSettle(r));
    ClosedBalance(db, r, charge, SETTLED(charge), SETTLE, ForSettle(r));
  }

  /** Nothing is consumed when nothing is charged. */
  lemma NothingConsumed(db: Db, r: nat)
    requires Inv(db) && r < |db.reservations|
    ensures forall p :: 0 <= p < |db.pools| ==> Consumed(db, r, 0)[p] == 0
  {
    var c := Consumed(db, r, 0);
    assert ReservationOk(db, r);
    ConsumedIsRight(db, r, 0);
    forall p: nat | p < |db.pools|
      ensures c[p] == 0
    {
      ElementAtMostSum(c, p);
    }
  }

  /** What a reservation took from the pools returns to them when it is released. */
  lemma TakesReturn(db: Db, ws: string, quote: string, task: nat, amount: int, takes: seq<int>)
    requires |takes| == |db.pools| && |db.allocations| == |db.reservations| && Inv(ReservedWith(db, ws, quote, task, amount, takes))
    requires amount >= 0
    ensures var db1 := ReservedWith(db, ws, quote, task, amount, takes);
            Closed(db1, |db.reservations|, 0, RELEASED, RELEASE, ForRelease(|db.reservations|)).pools == db.pools
  {
    var db1, r := ReservedWith(db, ws, quote, task, amount, takes), |db.reservations|;
    ClampsNeverBind(db1, r);
    ClosedPools(db1, r, 0, RELEASED, RELEASE, ForRelease(r));
    NothingConsumed(db1, r);
    var pools' := Closed(db1, r, 0, RELEASED, RELEASE, ForRelease(r)).pools;
    forall p: nat | p < |db.pools|
      ensures pools'[p] == db.pools[p]
    {
      assert Allocated(db1.allocations, r, p) == takes[p];
    }
  }

  lemma HoldReturns(db: Db, ws: string, quote: string, task: nat, amount: int, takes: seq<int>, w: string)
    requires |takes| == |db.pools| && Inv(ReservedWith(db, ws, quote, task, amount, takes)) && amount >= 0
    ensures var db1 := ReservedWith(db, ws, quote, task, amount, takes);
            Balance(Closed(db1, |db.reservations|, 0, RELEASED, RELEASE, ForRelease(|db.reservations|)), w) == Balance(db, w)
  {
    var db1, r := ReservedWith(db, ws, quote, task, amount, takes), |db.reservations|;
    ClampsNeverBind(db1, r);
  }

  /** Releasing a reservation just made puts every pool and every balance back as it was. */
  lemma ReleaseUndoesReserve(db: Db, ws: string, quote: string, task: nat, amount: int, now: int)
    requires Inv(db) && Reserve(db, ws, quote, task, amount, now).Ok? && Reserve(db, ws, quote, task, amount, now).value.created
    requires !KeyUsed(db.ledger, ws, ForRelease(|db.reservations|))
    ensures var reserved := Reserve(db, ws, quote, task, amount, now).value;
            var released := Release(reserved.db, reserved.reservation);
            && released.Ok? && released.value.changed
            && released.value.db.pools == db.pools && forall w :: Balance(released.value.db, w) == Balance(db, w)
  {
    var r, takes := |db.reservations|, Takes(db, ws, amount, now);
    ReserveKeepsInv(db, ws, quote, task, amount, now);
    ReleasedNow(db, ws, quote, task, amount, takes);
    TakesReturn(db, ws, quote, task, amount, takes);
    forall w
      ensures Balance(Closed(ReservedWith(db, ws, quote, task, amount, takes), r, 0, RELEASED, RELEASE, ForRelease(r)), w) == Balance(db, w)
    {
      HoldReturns(db, ws, quote, task, amount, takes, w);
    }
  }

  lemma ReleasedNow(db: Db, ws: string, quote: string, task: nat, amount: int, takes: seq<int>)
    requires |takes| == |db.pools| && !KeyUsed(db.ledger, ws, ForRelease(|db.reservations|))
    ensures var db1, r := ReservedWith(db, ws, quote, task, amount, takes), |db.reservations|;
            Release(db1, r) == Ok(CloseOutcome(Closed(db1, r, 0, RELEASED, RELEASE, ForRelease(r)), true))
  {
    var db1 := ReservedWith(db, ws, quote, task, amount, takes);
    assert db1.reservations[|db.reservations|] == Reservation(ws, quote, task, amount, RESERVED);
    assert !KeyUsed(db1.ledger, ws, ForRelease(|db.reservations|));
  }
}
