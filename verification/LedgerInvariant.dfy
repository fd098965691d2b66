/** Every credit operation keeps the aggregate, the pools, the reservations and the ledger in agreement. */
module LedgerInvariant {
  import opened Common
  import opened Sums
  import opened Spending
  import opened Ledger

  // ---------------------------------------------------------------- sums over grown or changed tables

  lemma ReservationAppended(res: seq<Reservation>, x: Reservation, ws: string)
    ensures Sum(Holds(res + [x], ws)) == Sum(Holds(res, ws)) + Hold(x, ws)
    ensures Sum(Charges(res + [x], ws)) == Sum(Charges(res, ws)) + Charged(x, ws)
  {
    assert Holds(res + [x], ws) == Holds(res, ws) + [Hold(x, ws)];
    assert Charges(res + [x], ws) == Charges(res, ws) + [Charged(x, ws)];
    SumAppend(Holds(res, ws), Hold(x, ws));
    SumAppend(Charges(res, ws), Charged(x, ws));
  }

  lemma ReservationChanged(res: seq<Reservation>, r: nat, x: Reservation, ws: string)
    requires r < |res|
    ensures Sum(Holds(res[r := x], ws)) == Sum(Holds(res, ws)) - Hold(res[r], ws) + Hold(x, ws)
    ensures Sum(Charges(res[r := x], ws)) == Sum(Charges(res, ws)) - Charged(res[r], ws) + Charged(x, ws)
  {
    assert Holds(res[r := x], ws) == Holds(res, ws)[r := Hold(x, ws)];
    assert Charges(res[r := x], ws) == Charges(res, ws)[r := Charged(x, ws)];
    SumUpdate(Holds(res, ws), r, Hold(x, ws));
    SumUpdate(Charges(res, ws), r, Charged(x, ws));
  }

  lemma {:induction false} SameBalance(a: seq<Entry>, b: seq<Entry>, n: nat, ws: string)
    requires n <= |a| && n <= |b| && forall i :: 0 <= i < n ==> a[i] == b[i]
    ensures BalanceUpTo(a, n, ws) == BalanceUpTo(b, n, ws)
  {
    if n > 0 {
      SameBalance(a, b, n - 1, ws);
    }
  }

  lemma EntryAppended(ledger: seq<Entry>, e: Entry, ws: string)
    ensures Sum(Amounts(ledger + [e], ws)) == Sum(Amounts(ledger, ws)) + EntryAmount(e, ws)
    ensures Sum(Grants(ledger + [e], ws)) == Sum(Grants(ledger, ws)) + GrantAmount(e, ws)
    ensures LastBalance(ledger + [e], ws) ==
            if e.ws == ws then Account(e.availableAfter, e.reservedAfter) else LastBalance(ledger, ws)
  {
    assert Amounts(ledger + [e], ws) == Amounts(ledger, ws) + [EntryAmount(e, ws)];
    assert Grants(ledger + [e], ws) == Grants(ledger, ws) + [GrantAmount(e, ws)];
    SumAppend(Amounts(ledger, ws), EntryAmount(e, ws));
    SumAppend(Grants(ledger, ws), GrantAmount(e, ws));
    SameBalance(ledger, ledger + [e], |ledger|, ws);
  }

  /** The views still agree when every sum moves with the balance and the new entry shows it. */
  lemma ViewsMove(db: Db, db': Db, e: Entry, ws: string, available: int, reserved: int, charged: int)
    requires ViewsAgree(db, ws) && db'.ledger == db.ledger + [e]
    requires Balance(db', ws) == Account(Balance(db, ws).available + available, Balance(db, ws).reserved + reserved)
    requires EntryAmount(e, ws) == available && GrantAmount(e, ws) == available + reserved + charged
    requires if e.ws == ws then Balance(db', ws) == Account(e.availableAfter, e.reservedAfter) else available == reserved == 0
    requires Sum(PoolAvailable(db'.pools, ws)) == Sum(PoolAvailable(db.pools, ws)) + available
    requires Sum(PoolReserved(db'.pools, ws)) == Sum(PoolReserved(db.pools, ws)) + reserved
    requires Sum(Holds(db'.reservations, ws)) == Sum(Holds(db.reservations, ws)) + reserved
    requires Sum(Charges(db'.reservations, ws)) == Sum(Charges(db.reservations, ws)) + charged
    ensures ViewsAgree(db', ws)
  {
    EntryAppended(db.ledger, e, ws);
  }

  lemma MoveAppended(ledger: seq<Entry>, e: Entry, r: nat)
    ensures Moves(ledger + [e], r) == Moves(ledger, r) + MoveOf(e, r)
  {
    assert MovesOf(ledger + [e], r) == MovesOf(ledger, r) + [MoveOf(e, r)];
    SumAppend(MovesOf(ledger, r), MoveOf(e, r));
  }

  lemma PoolAppended(pools: seq<Pool>, x: Pool, ws: string)
    ensures Sum(PoolAvailable(pools + [x], ws)) == Sum(PoolAvailable(pools, ws)) + (if x.ws == ws then x.available else 0)
    ensures Sum(PoolReserved(pools + [x], ws)) == Sum(PoolReserved(pools, ws)) + (if x.ws == ws then x.reserved else 0)
  {
    assert PoolAvailable(pools + [x], ws) == PoolAvailable(pools, ws) + [if x.ws == ws then x.available else 0];
    assert PoolReserved(pools + [x], ws) == PoolReserved(pools, ws) + [if x.ws == ws then x.reserved else 0];
    SumAppend(PoolAvailable(pools, ws), if x.ws == ws then x.available else 0);
    SumAppend(PoolReserved(pools, ws), if x.ws == ws then x.reserved else 0);
  }

  /** Pools change by `da` and `dr`, which are zero outside workspace `ws`. */
  ghost predicate Shifted(pools: seq<Pool>, pools': seq<Pool>, da: seq<int>, dr: seq<int>, ws: string) {
    && |pools| == |pools'| == |da| == |dr|
    && forall i :: 0 <= i < |pools| ==>
         && pools'[i] == pools[i].(available := pools[i].available + da[i], reserved := pools[i].reserved + dr[i])
         && (pools[i].ws != ws ==> da[i] == 0 && dr[i] == 0)
  }

  lemma PoolsShifted(pools: seq<Pool>, pools': seq<Pool>, da: seq<int>, dr: seq<int>, ws: string, w: string)
    requires Shifted(pools, pools', da, dr, ws)
    ensures Sum(PoolAvailable(pools', w)) == Sum(PoolAvailable(pools, w)) + (if w == ws then Sum(da) else 0)
    ensures Sum(PoolReserved(pools', w)) == Sum(PoolReserved(pools, w)) + (if w == ws then Sum(dr) else 0)
  {
    if w == ws {
      SumOfSums(PoolAvailable(pools, w), da, PoolAvailable(pools', w));
      SumOfSums(PoolReserved(pools, w), dr, PoolReserved(pools', w));
    } else {
      assert PoolAvailable(pools', w) == PoolAvailable(pools, w);
      assert PoolReserved(pools', w) == PoolReserved(pools, w);
    }
  }

  function Negated(s: seq<int>): (r: seq<int>)
    ensures |r| == |s| && forall i :: 0 <= i < |r| ==> r[i] == -s[i]
  {
    seq(|s|, i requires 0 <= i < |s| => -s[i])
  }

  lemma SumNegated(s: seq<int>)
    ensures Sum(Negated(s)) == -Sum(s)
  {
    var z := Zeros(|s|);
    SumZero(z);
    SumOfSums(s, Negated(s), z);
  }

  lemma NoMoves(ledger: seq<Entry>, r: nat)
    requires forall i :: 0 <= i < |ledger| && ledger[i].reservation.Some? ==> ledger[i].reservation.value < r
    ensures Moves(ledger, r) == 0
  {
    SumZero(MovesOf(ledger, r));
  }

  // ---------------------------------------------------------------- granting

  lemma GrantedPool(db: Db, ws: string, amount: int, kind: PoolKind, expiresAt: Option<int>, key: Key, now: int, p: nat)
    requires Inv(db) && p < |Granted(db, ws, amount, kind, expiresAt, key, now).pools|
    ensures PoolOk(Granted(db, ws, amount, kind, expiresAt, key, now), p)
  {
    if p < |db.pools| {
      assert PoolOk(db, p);
    } else {
      forall r: nat | r < |db.reservations|
        ensures Allocated(db.allocations, r, p) == 0
      {
        assert AllocationOk(db, r, p);
      }
      SumZero(LiveAllocations(db.reservations, db.allocations, p));
    }
  }

  lemma LongerRow(allocations: seq<seq<int>>, r: nat, n: nat)
    requires Allocated(allocations, r, n) == 0
    ensures Sum(AllocRow(allocations, r, n + 1)) == Sum(AllocRow(allocations, r, n))
  {
    assert AllocRow(allocations, r, n + 1) == AllocRow(allocations, r, n) + [0];
    SumAppend(AllocRow(allocations, r, n), 0);
  }

  lemma GrantedReservation(db: Db, ws: string, amount: int, kind: PoolKind, expiresAt: Option<int>, key: Key, now: int, r: nat)
    requires Inv(db) && r < |db.reservations|
    ensures ReservationOk(Granted(db, ws, amount, kind, expiresAt, key, now), r)
  {
    assert ReservationOk(db, r);
    MoveAppended(db.ledger, Granted(db, ws, amount, kind, expiresAt, key, now).ledger[|db.ledger|], r);
    assert AllocationOk(db, r, |db.pools|);
    LongerRow(db.allocations, r, |db.pools|);
  }

  lemma KeyAppended(db: Db, db': Db, e: Entry)
    requires Unique(db) && !KeyUsed(db.ledger, e.ws, e.key)
    requires db'.ledger == db.ledger + [e]
    requires |db.reservations| <= |db'.reservations|
    requires e.reservation.Some? ==> e.reservation.value < |db'.reservations|
    requires forall i, j :: 0 <= i < j < |db'.reservations| ==> db'.reservations[i].quote != db'.reservations[j].quote
    requires forall i, j :: 0 <= i < j < |db'.reservations| ==> db'.reservations[i].task != db'.reservations[j].task
    requires |db.pools| <= |db'.pools| <= |db.pools| + 1
    requires forall p :: 0 <= p < |db.pools| ==> db'.pools[p].ws == db.pools[p].ws && db'.pools[p].key == db.pools[p].key
    requires |db'.pools| > |db.pools| ==> db'.pools[|db.pools|].ws == e.ws && db'.pools[|db.pools|].key == e.key
    ensures Unique(db')
  {
    forall p | 0 <= p < |db'.pools|
      ensures KeyUsed(db'.ledger, db'.pools[p].ws, db'.pools[p].key)
    {
      if p < |db.pools| {
        var i :| 0 <= i < |db.ledger| && db.ledger[i].ws == db.pools[p].ws && db.ledger[i].key == db.pools[p].key;
        assert db'.ledger[i] == db.ledger[i];
      } else {
        assert db'.ledger[|db.ledger|] == e;
      }
    }
  }

  lemma GrantedViews(db: Db, ws: string, amount: int, kind: PoolKind, expiresAt: Option<int>, key: Key, now: int, w: string)
    requires ViewsAgree(db, w) && amount >= 0
    ensures ViewsAgree(Granted(db, ws, amount, kind, expiresAt, key, now), w)
  {
    var db' := Granted(db, ws, amount, kind, expiresAt, key, now);
    if amount > 0 {
      PoolAppended(db.pools, db'.pools[|db.pools|], w);
    }
    ViewsMove(db, db', db'.ledger[|db.ledger|], w, if w == ws then amount else 0, 0, 0);
  }

  lemma LockedInv(db: Db, ws: string)
    requires Inv(db)
    ensures Inv(Locked(db, ws))
  {
    var db' := Locked(db, ws);
    forall w
      ensures ViewsAgree(db', w)
    {
      assert ViewsAgree(db, w);
    }
    forall p: nat | p < |db'.pools|
      ensures PoolOk(db', p)
    {
      assert PoolOk(db, p);
      assert LiveAllocations(db'.reservations, db'.allocations, p) == LiveAllocations(db.reservations, db.allocations, p);
    }
    forall r: nat | r < |db'.reservations|
      ensures ReservationOk(db', r)
    {
      assert ReservationOk(db, r);
      assert AllocRow(db'.allocations, r, |db'.pools|) == AllocRow(db.allocations, r, |db.pools|);
    }
    forall r: nat, p: nat
      ensures AllocationOk(db', r, p)
    {
      assert AllocationOk(db, r, p);
    }
    forall p | 0 <= p < |db'.pools|
      ensures KeyUsed(db'.ledger, db'.pools[p].ws, db'.pools[p].key)
    {
      assert KeyUsed(db.ledger, db.pools[p].ws, db.pools[p].key);
    }
  }

  lemma GrantKeepsInv(db: Db, ws: string, amount: int, kind: PoolKind, expiresAt: Option<int>, key: Key, now: int)
    requires Inv(db) && amount >= 0
    ensures var r := Grant(db, ws, amount, kind, expiresAt, key, now); r.Ok? && Inv(r.value)
  {
    if KeyUsed(db.ledger, ws, key) {
      LockedInv(db, ws);
    } else {
      assert !PoolKeyUsed(db.pools, ws, key);
      var db' := Granted(db, ws, amount, kind, expiresAt, key, now);
      forall w
        ensures ViewsAgree(db', w)
      {
        assert ViewsAgree(db, w);
        GrantedViews(db, ws, amount, kind, expiresAt, key, now, w);
      }
      forall p: nat | p < |db'.pools|
        ensures PoolOk(db', p)
      {
        GrantedPool(db, ws, amount, kind, expiresAt, key, now, p);
      }
      forall r: nat | r < |db'.reservations|
        ensures ReservationOk(db', r)
      {
        GrantedReservation(db, ws, amount, kind, expiresAt, key, now, r);
      }
      forall r: nat, p: nat
        ensures AllocationOk(db', r, p)
      {
        assert AllocationOk(db, r, p);
      }
      KeyAppended(db, db', db'.ledger[|db.ledger|]);
    }
  }

  /** A grant under a new key keeps the views in agreement exactly when it does not take credits away. */
  lemma GrantKeepsViewsExactly(db: Db, ws: string, amount: int, kind: PoolKind, expiresAt: Option<int>, key: Key, now: int)
    requires Inv(db) && !KeyUsed(db.ledger, ws, key)
    ensures var r := Grant(db, ws, amount, kind, expiresAt, key, now);
            r.Ok? && (ViewsAgree(r.value, ws) <==> amount >= 0)
  {
    assert ViewsAgree(db, ws);
    assert !PoolKeyUsed(db.pools, ws, key);
    var db' := Granted(db, ws, amount, kind, expiresAt, key, now);
    EntryAppended(db.ledger, db'.ledger[|db.ledger|], ws);
    if amount >= 0 {
      GrantedViews(db, ws, amount, kind, expiresAt, key, now, ws);
    }
  }

  // ---------------------------------------------------------------- reserving

  /** What the unexpired pools of the workspace hold together. */
  function Spare(pools: seq<Pool>, ws: string, now: int): (s: seq<int>)
    ensures |s| == |pools| && forall i :: 0 <= i < |s| ==> s[i] == if Spendable(pools[i], ws, now) then pools[i].available else 0
  {
    seq(|pools|, i requires 0 <= i < |pools| => if Spendable(pools[i], ws, now) then pools[i].available else 0)
  }

  lemma PoolsNonNegative(db: Db)
    requires Inv(db)
    ensures forall p: nat :: p < |db.pools| ==> db.pools[p].available >= 0
  {
    forall p: nat | p < |db.pools|
      ensures db.pools[p].available >= 0
    {
      assert PoolOk(db, p);
    }
  }

  /** A reservation takes from spendable pools only, at most what they have, and as much as is asked if there is enough. */
  lemma TakesAreRight(db: Db, ws: string, amount: nat, now: int)
    requires forall p: nat :: p < |db.pools| ==> db.pools[p].available >= 0
    ensures var takes := Takes(db, ws, amount, now);
            && (forall i :: 0 <= i < |takes| ==> 0 <= takes[i] <= db.pools[i].available)
            && (forall i :: 0 <= i < |takes| && !Spendable(db.pools[i], ws, now) ==> takes[i] == 0)
            && Sum(takes) == Min(amount, Sum(Spare(db.pools, ws, now)))
  {
    var order := SpendOrder(db.pools, ws, now, |db.pools|);
    var avail := Available(db.pools);
    SpendOrderIsRight(db.pools, ws, now, |db.pools|);
    forall i | 0 <= i < |db.pools|
      ensures var takes := Takes(db, ws, amount, now);
              0 <= takes[i] <= db.pools[i].available && (!Spendable(db.pools[i], ws, now) ==> takes[i] == 0)
    {
      DrainBounds(order, avail, amount, |order|, i);
    }
    DrainSum(order, avail, amount, |order|);
    assert Masked(avail, order, |order|) == Spare(db.pools, ws, now);
  }

  /** What a reservation needs of the amounts it takes. */
  ghost predicate GoodTakes(db: Db, ws: string, amount: int, takes: seq<int>) {
    && |takes| == |db.pools| && amount >= 0 && Sum(takes) == amount
    && (forall i :: 0 <= i < |takes| ==> 0 <= takes[i] <= db.pools[i].available)
    && (forall i :: 0 <= i < |takes| && db.pools[i].ws != ws ==> takes[i] == 0)
  }

  lemma LiveAppended(reservations: seq<Reservation>, x: Reservation, allocations: seq<seq<int>>, takes: seq<int>, p: nat)
    requires p < |takes| && |allocations| == |reservations| && x.status == RESERVED
    ensures LiveAllocations(reservations + [x], allocations + [takes], p) ==
            LiveAllocations(reservations, allocations, p) + [takes[p]]
  {
  }

  lemma ReservedPool(db: Db, ws: string, quote: string, task: nat, amount: int, takes: seq<int>, p: nat)
    requires GoodTakes(db, ws, amount, takes) && p < |db.pools| && PoolOk(db, p)
    requires |db.allocations| == |db.reservations|
    ensures PoolOk(ReservedWith(db, ws, quote, task, amount, takes), p)
  {
    var live := LiveAllocations(db.reservations, db.allocations, p);
    LiveAppended(db.reservations, Reservation(ws, quote, task, amount, RESERVED), db.allocations, takes, p);
    SumAppend(live, takes[p]);
  }

  lemma RowAppended(allocations: seq<seq<int>>, takes: seq<int>, r: nat)
    requires r <= |allocations|
    ensures AllocRow(allocations + [takes], r, |takes|) == if r == |allocations| then takes else AllocRow(allocations, r, |takes|)
  {
  }

  lemma ReservedReservation(db: Db, ws: string, quote: string, task: nat, amount: int, takes: seq<int>, r: nat)
    requires GoodTakes(db, ws, amount, takes) && r <= |db.reservations|
    requires if r < |db.reservations| then ReservationOk(db, r) else Moves(db.ledger, r) == 0
    requires |db.allocations| == |db.reservations|
    ensures ReservationOk(ReservedWith(db, ws, quote, task, amount, takes), r)
  {
    RowAppended(db.allocations, takes, r);
    MoveAppended(db.ledger, ReservedWith(db, ws, quote, task, amount, takes).ledger[|db.ledger|], r);
  }

  lemma HeldSums(pools: seq<Pool>, takes: seq<int>, ws: string, w: string)
    requires |takes| == |pools| && forall i :: 0 <= i < |takes| && pools[i].ws != ws ==> takes[i] == 0
    ensures var (pools', moved) := (Held(pools, takes), if w == ws then Sum(takes) else 0);
            && Sum(PoolAvailable(pools', w)) == Sum(PoolAvailable(pools, w)) - moved
            && Sum(PoolReserved(pools', w)) == Sum(PoolReserved(pools, w)) + moved
  {
    SumNegated(takes);
    PoolsShifted(pools, Held(pools, takes), Negated(takes), takes, ws, w);
  }

  lemma ReservedViews(db: Db, ws: string, quote: string, task: nat, amount: int, takes: seq<int>, w: string)
    requires GoodTakes(db, ws, amount, takes) && ViewsAgree(db, w)
    ensures ViewsAgree(ReservedWith(db, ws, quote, task, amount, takes), w)
  {
    var db' := ReservedWith(db, ws, quote, task, amount, takes);
    HeldSums(db.pools, takes, ws, w);
    ReservationAppended(db.reservations, db'.reservations[|db.reservations|], w);
    var moved := if w == ws then amount else 0;
    ViewsMove(db, db', db'.ledger[|db.ledger|], w, -moved, moved, 0);
  }

  lemma ReservedInv(db: Db, ws: string, quote: string, task: nat, amount: int, takes: seq<int>)
    requires Inv(db) && GoodTakes(db, ws, amount, takes)
    requires FindQuote(db.reservations, quote).None? && !TaskUsed(db.reservations, task) && !KeyUsed(db.ledger, ws, ForReserve(quote))
    ensures Inv(ReservedWith(db, ws, quote, task, amount, takes))
  {
    var db' := ReservedWith(db, ws, quote, task, amount, takes);
    forall w
      ensures ViewsAgree(db', w)
    {
      ReservedViews(db, ws, quote, task, amount, takes, w);
    }
    forall p: nat | p < |db'.pools|
      ensures PoolOk(db', p)
    {
      ReservedPool(db, ws, quote, task, amount, takes, p);
    }
    NoMoves(db.ledger, |db.reservations|);
    forall q: nat | q < |db'.reservations|
      ensures ReservationOk(db', q)
    {
      assert q < |db.reservations| ==> ReservationOk(db, q);
      ReservedReservation(db, ws, quote, task, amount, takes, q);
    }
    forall q: nat, p: nat
      ensures AllocationOk(db', q, p)
    {
      assert AllocationOk(db, q, p);
    }
    KeyAppended(db, db', db'.ledger[|db.ledger|]);
  }

  lemma ReserveKeepsInv(db: Db, ws: string, quote: string, task: nat, amount: int, now: int)
    requires Inv(db)
    ensures var r := Reserve(db, ws, quote, task, amount, now); r.Ok? ==> Inv(r.value.db)
  {
    var r := Reserve(db, ws, quote, task, amount, now);
    if r.Ok? {
      if r.value.created {
        PoolsNonNegative(db);
        TakesAreRight(db, ws, amount, now);
        ReservedInv(db, ws, quote, task, amount, Takes(db, ws, amount, now));
      } else {
        LockedInv(db, ws);
      }
    }
  }

  /** A fresh reservation succeeds exactly when the unexpired pools together hold the amount. */
  lemma ReserveSucceedsExactly(db: Db, ws: string, quote: string, task: nat, amount: nat, now: int)
    requires Inv(db) && FindQuote(db.reservations, quote).None? && !TaskUsed(db.reservations, task) && !KeyUsed(db.ledger, ws, ForReserve(quote))
    ensures var r := Reserve(db, ws, quote, task, amount, now);
            && (r.Ok? <==> Sum(Spare(db.pools, ws, now)) >= amount)
            && (r.Ok? ==>
                  && r.value.created && r.value.reservation == |db.reservations|
                  && Sum(AllocRow(r.value.db.allocations, r.value.reservation, |db.pools|)) == amount)
            && (r.Err? ==> r.error in {INSUFFICIENT_CREDITS, INVALID_STATE})
  {
    assert ViewsAgree(db, ws);
    PoolsNonNegative(db);
    TakesAreRight(db, ws, amount, now);
    SumMonotone(Spare(db.pools, ws, now), PoolAvailable(db.pools, ws));
    if Reserve(db, ws, quote, task, amount, now).Ok? {
      RowAppended(db.allocations, Takes(db, ws, amount, now), |db.reservations|);
    }
  }

  /** A reservation takes its amount from what the unexpired pools hold together. */
  lemma ReserveSpends(db: Db, ws: string, quote: string, task: nat, amount: nat, now: int)
    requires Inv(db) && Reserve(db, ws, quote, task, amount, now).Ok? && Reserve(db, ws, quote, task, amount, now).value.created
    ensures Sum(Spare(Reserve(db, ws, quote, task, amount, now).value.db.pools, ws, now)) == Sum(Spare(db.pools, ws, now)) - amount
  {
    var takes := Takes(db, ws, amount, now);
    PoolsNonNegative(db);
    TakesAreRight(db, ws, amount, now);
    SpareAfter(db.pools, takes, ws, now);
  }

  lemma SpareAfter(pools: seq<Pool>, takes: seq<int>, ws: string, now: int)
    requires |takes| == |pools| && forall i :: 0 <= i < |pools| ==> 0 <= takes[i] <= pools[i].available
    requires forall i :: 0 <= i < |pools| && !Spendable(pools[i], ws, now) ==> takes[i] == 0
    ensures Sum(Spare(Held(pools, takes), ws, now)) == Sum(Spare(pools, ws, now)) - Sum(takes)
  {
    SumOfSums(Spare(Held(pools, takes), ws, now), takes, Spare(pools, ws, now));
  }

  /** Where in the spending order two spendable pools stand. */
  lemma PlacesOf(pools: seq<Pool>, ws: string, now: int, p: nat, q: nat) returns (j: nat, k: nat)
    requires p < |pools| && q < |pools|
    requires Spendable(pools[p], ws, now) && Spendable(pools[q], ws, now) && Before(pools[p], pools[q])
    ensures var order := SpendOrder(pools, ws, now, |pools|); j < k < |order| && order[j] == p && order[k] == q
  {
    var order := SpendOrder(pools, ws, now, |pools|);
    SpendOrderIsRight(pools, ws, now, |pools|);
    j :| 0 <= j < |order| && order[j] == p;
    k :| 0 <= k < |order| && order[k] == q;
    BeforeIsStrictOrder(pools[p], pools[q], pools[p]);
  }

  lemma DrainedBefore(db: Db, ws: string, amount: nat, now: int, j: nat, k: nat)
    requires Inv(db) && j < k < |SpendOrder(db.pools, ws, now, |db.pools|)|
    ensures var order, takes := SpendOrder(db.pools, ws, now, |db.pools|), Takes(db, ws, amount, now);
            takes[order[k]] > 0 ==> takes[order[j]] == db.pools[order[j]].available
  {
    PoolsNonNegative(db);
    SpendOrderIsRight(db.pools, ws, now, |db.pools|);
    DrainsInOrder(SpendOrder(db.pools, ws, now, |db.pools|), Available(db.pools), amount, j, k);
  }

  /** Pools are emptied in spending order: a pool is touched only after every pool spent before it is empty. */
  lemma ReserveDrainsInOrder(db: Db, ws: string, amount: nat, now: int, p: nat, q: nat)
    requires Inv(db) && p < |db.pools| && q < |db.pools|
    requires Spendable(db.pools[p], ws, now) && Spendable(db.pools[q], ws, now) && Before(db.pools[p], db.pools[q])
    ensures var takes := Takes(db, ws, amount, now); takes[q] > 0 ==> takes[p] == db.pools[p].available
  {
    var j, k := PlacesOf(db.pools, ws, now, p, q);
    DrainedBefore(db, ws, amount, now, j, k);
  }

  /** A pool that is drawn on has a place in the spending order. */
  lemma PlaceOf(db: Db, ws: string, amount: nat, now: int, p: nat) returns (k: nat)
    requires Inv(db) && p < |db.pools| && Takes(db, ws, amount, now)[p] > 0
    ensures k < |SpendOrder(db.pools, ws, now, |db.pools|)| && SpendOrder(db.pools, ws, now, |db.pools|)[k] == p
  {
    PoolsNonNegative(db);
    TakesAreRight(db, ws, amount, now);
    SpendOrderIsRight(db.pools, ws, now, |db.pools|);
    k :| 0 <= k < |SpendOrder(db.pools, ws, now, |db.pools|)| && SpendOrder(db.pools, ws, now, |db.pools|)[k] == p;
  }

  /** At most one pool is left partly drained. */
  lemma OnePoolPartlyDrained(db: Db, ws: string, amount: nat, now: int, p: nat, q: nat)
    requires Inv(db) && p < |db.pools| && q < |db.pools|
    requires var takes := Takes(db, ws, amount, now);
             0 < takes[p] < db.pools[p].available && 0 < takes[q] < db.pools[q].available
    ensures p == q
  {
    var j := PlaceOf(db, ws, amount, now, p);
    var k := PlaceOf(db, ws, amount, now, q);
    if j < k {
      DrainedBefore(db, ws, amount, now, j, k);
    } else if k < j {
      DrainedBefore(db, ws, amount, now, k, j);
    }
  }

  // ---------------------------------------------------------------- settling and releasing

  lemma ConsumedIsRight(db: Db, r: nat, actual: nat)
    requires Inv(db) && r < |db.reservations| && actual <= db.reservations[r].amount
    ensures var c := Consumed(db, r, actual);
            && Sum(c) == actual
            && forall i :: 0 <= i < |c| ==> 0 <= c[i] <= AllocRow(db.allocations, r, |db.pools|)[i]
  {
    var n := |db.pools|;
    var row := AllocRow(db.allocations, r, |db.pools|);
    assert ReservationOk(db, r);
    forall i: nat | i < n
      ensures row[i] >= 0
    {
      assert AllocationOk(db, r, i);
    }
    forall i: nat | i < n
      ensures Listed(Identity(n), n, i) && 0 <= Consumed(db, r, actual)[i] <= row[i]
    {
      assert Identity(n)[i] == i;
      DrainBounds(Identity(n), row, actual, n, i);
    }
    DrainSum(Identity(n), row, actual, n);
    assert Masked(row, Identity(n), n) == row;
  }

  /** The clamps at zero never bind. */
  lemma ClampsNeverBind(db: Db, r: nat)
    requires Inv(db) && r < |db.reservations| && db.reservations[r].status.RESERVED?
    ensures Balance(db, db.reservations[r].ws).reserved >= db.reservations[r].amount
    ensures forall p: nat :: p < |db.pools| ==> db.pools[p].reserved >= AllocRow(db.allocations, r, |db.pools|)[p] >= 0
    ensures forall p: nat :: p < |db.pools| && db.pools[p].ws != db.reservations[r].ws ==> AllocRow(db.allocations, r, |db.pools|)[p] == 0
  {
    var ws := db.reservations[r].ws;
    assert ViewsAgree(db, ws);
    forall q: nat | q < |db.reservations|
      ensures Holds(db.reservations, ws)[q] >= 0
    {
      assert ReservationOk(db, q);
    }
    ElementAtMostSum(Holds(db.reservations, ws), r);
    forall p: nat | p < |db.pools|
      ensures db.pools[p].reserved >= AllocRow(db.allocations, r, |db.pools|)[p] >= 0
      ensures db.pools[p].ws != ws ==> AllocRow(db.allocations, r, |db.pools|)[p] == 0
    {
      assert PoolOk(db, p);
      forall q: nat | q < |db.reservations|
        ensures LiveAllocations(db.reservations, db.allocations, p)[q] >= 0
      {
        assert AllocationOk(db, q, p);
      }
      ElementAtMostSum(LiveAllocations(db.reservations, db.allocations, p), r);
      assert AllocationOk(db, r, p);
    }
  }

  function Minus(a: seq<int>, b: seq<int>): (r: seq<int>)
    requires |a| == |b|
    ensures |r| == |a| && forall i :: 0 <= i < |r| ==> r[i] == a[i] - b[i]
  {
    seq(|a|, i requires 0 <= i < |a| => a[i] - b[i])
  }

  ghost predicate Closes(db: Db, r: nat, actual: int, status: Status, kind: EntryKind) {
    && Inv(db) && r < |db.reservations| && db.reservations[r].status.RESERVED?
    && 0 <= actual <= db.reservations[r].amount
    && ((kind == SETTLE && status == SETTLED(actual)) || (kind == RELEASE && status == RELEASED && actual == 0))
  }

  lemma ReturnedShift(pools: seq<Pool>, row: seq<int>, consumed: seq<int>, ws: string)
    requires |row| == |consumed| == |pools|
    requires forall p: nat :: p < |pools| ==> 0 <= consumed[p] <= row[p] <= pools[p].reserved && (pools[p].ws != ws ==> row[p] == 0)
    ensures Shifted(pools, Returned(pools, row, consumed), Minus(row, consumed), Negated(row), ws)
  {
  }

  lemma ClosedShift(db: Db, r: nat, actual: int, status: Status, kind: EntryKind, key: Key)
    requires Closes(db, r, actual, status, kind)
    ensures var row, consumed := AllocRow(db.allocations, r, |db.pools|), Consumed(db, r, actual);
            && Shifted(db.pools, Closed(db, r, actual, status, kind, key).pools, Minus(row, consumed), Negated(row), db.reservations[r].ws)
            && Sum(Minus(row, consumed)) == db.reservations[r].amount - actual
            && Sum(Negated(row)) == -db.reservations[r].amount
            && forall p: nat :: p < |db.pools| ==> 0 <= consumed[p] <= row[p]
  {
    var row, consumed := AllocRow(db.allocations, r, |db.pools|), Consumed(db, r, actual);
    ClampsNeverBind(db, r);
    ConsumedIsRight(db, r, actual);
    assert ReservationOk(db, r);
    ReturnedShift(db.pools, row, consumed, db.reservations[r].ws);
    SumNegated(row);
    SumOfSums(consumed, Minus(row, consumed), row);
  }

  lemma ClosedPoolSums(db: Db, r: nat, actual: int, status: Status, kind: EntryKind, key: Key, w: string)
    requires Closes(db, r, actual, status, kind)
    ensures var (res, pools') := (db.reservations[r], Closed(db, r, actual, status, kind, key).pools);
            && Sum(PoolAvailable(pools', w)) == Sum(PoolAvailable(db.pools, w)) + (if w == res.ws then res.amount - actual else 0)
            && Sum(PoolReserved(pools', w)) == Sum(PoolReserved(db.pools, w)) - (if w == res.ws then res.amount else 0)
  {
    var row, consumed := AllocRow(db.allocations, r, |db.pools|), Consumed(db, r, actual);
    ClosedShift(db, r, actual, status, kind, key);
    PoolsShifted(db.pools, Closed(db, r, actual, status, kind, key).pools, Minus(row, consumed), Negated(row), db.reservations[r].ws, w);
  }

  lemma EndedViews(db: Db, r: nat, actual: int, status: Status, kind: EntryKind, key: Key, w: string)
    requires ViewsAgree(db, w) && r < |db.reservations| && db.reservations[r].status.RESERVED?
    requires (kind == SETTLE && status == SETTLED(actual)) || (kind == RELEASE && status == RELEASED && actual == 0)
    requires Balance(db, db.reservations[r].ws).reserved >= db.reservations[r].amount
    requires var (res, pools') := (db.reservations[r], Closed(db, r, actual, status, kind, key).pools);
             && Sum(PoolAvailable(pools', w)) == Sum(PoolAvailable(db.pools, w)) + (if w == res.ws then res.amount - actual else 0)
             && Sum(PoolReserved(pools', w)) == Sum(PoolReserved(db.pools, w)) - (if w == res.ws then res.amount else 0)
    ensures ViewsAgree(Closed(db, r, actual, status, kind, key), w)
  {
    var db' := Closed(db, r, actual, status, kind, key);
    ReservationChanged(db.reservations, r, db'.reservations[r], w);
    var (held, charged) := if w == db.reservations[r].ws then (db.reservations[r].amount, actual) else (0, 0);
    ViewsMove(db, db', db'.ledger[|db.ledger|], w, held - charged, -held, charged);
  }

  lemma ClosedViews(db: Db, r: nat, actual: int, status: Status, kind: EntryKind, key: Key, w: string)
    requires Closes(db, r, actual, status, kind)
    ensures ViewsAgree(Closed(db, r, actual, status, kind, key), w)
  {
    assert ViewsAgree(db, w);
    ClampsNeverBind(db, r);
    ClosedPoolSums(db, r, actual, status, kind, key, w);
    EndedViews(db, r, actual, status, kind, key, w);
  }

  lemma LiveEnded(reservations: seq<Reservation>, x: Reservation, allocations: seq<seq<int>>, r: nat, p: nat)
    requires r < |reservations| && reservations[r].status.RESERVED? && !x.status.RESERVED?
    ensures Sum(LiveAllocations(reservations[r := x], allocations, p)) ==
            Sum(LiveAllocations(reservations, allocations, p)) - Allocated(allocations, r, p)
  {
    assert LiveAllocations(reservations[r := x], allocations, p) == LiveAllocations(reservations, allocations, p)[r := 0];
    SumUpdate(LiveAllocations(reservations, allocations, p), r, 0);
  }

  lemma ClosedPool(db: Db, r: nat, actual: int, status: Status, kind: EntryKind, key: Key, p: nat)
    requires Closes(db, r, actual, status, kind) && p < |db.pools|
    ensures PoolOk(Closed(db, r, actual, status, kind, key), p)
  {
    var db' := Closed(db, r, actual, status, kind, key);
    assert PoolOk(db, p);
    ClosedShift(db, r, actual, status, kind, key);
    LiveEnded(db.reservations, db'.reservations[r], db.allocations, r, p);
  }

  lemma ClosedReservation(db: Db, r: nat, actual: int, status: Status, kind: EntryKind, key: Key, q: nat)
    requires Closes(db, r, actual, status, kind) && q < |db.reservations|
    ensures ReservationOk(Closed(db, r, actual, status, kind, key), q)
  {
    assert ReservationOk(db, q);
    MoveAppended(db.ledger, Closed(db, r, actual, status, kind, key).ledger[|db.ledger|], q);
  }

  lemma ClosedInv(db: Db, r: nat, actual: int, status: Status, kind: EntryKind, key: Key)
    requires Closes(db, r, actual, status, kind) && !KeyUsed(db.ledger, db.reservations[r].ws, key)
    ensures Inv(Closed(db, r, actual, status, kind, key))
  {
    var db' := Closed(db, r, actual, status, kind, key);
    forall w
      ensures ViewsAgree(db', w)
    {
      ClosedViews(db, r, actual, status, kind, key, w);
    }
    forall p: nat | p < |db'.pools|
      ensures PoolOk(db', p)
    {
      ClosedPool(db, r, actual, status, kind, key, p);
    }
    forall q: nat | q < |db'.reservations|
      ensures ReservationOk(db', q)
    {
      ClosedReservation(db, r, actual, status, kind, key, q);
    }
    forall q: nat, p: nat
      ensures AllocationOk(db', q, p)
    {
      assert AllocationOk(db, q, p);
    }
    KeyAppended(db, db', db'.ledger[|db.ledger|]);
  }

  lemma SettleKeepsInv(db: Db, r: nat, actual: Option<int>)
    requires Inv(db)
    ensures var o := Settle(db, r, actual); o.Ok? ==> Inv(o.value.db)
  {
    if r < |db.reservations| {
      var res := db.reservations[r];
      assert ReservationOk(db, r);
      if res.status.SETTLED? {
        LockedInv(db, res.ws);
      } else if res.status.RESERVED? && !KeyUsed(db.ledger, res.ws, ForSettle(r)) {
        var charge := Charge(res.amount, actual);
        ClosedInv(db, r, charge, SETTLED(charge), SETTLE, ForSettle(r));
      }
    }
  }

  lemma ReleaseKeepsInv(db: Db, r: nat)
    requires Inv(db)
    ensures var o := Release(db, r); o.Ok? ==> Inv(o.value.db)
  {
    if r < |db.reservations| {
      var res := db.reservations[r];
      assert ReservationOk(db, r);
      if !res.status.RESERVED? {
        LockedInv(db, res.ws);
      } else if !KeyUsed(db.ledger, res.ws, ForRelease(r)) {
        ClosedInv(db, r, 0, RELEASED, RELEASE, ForRelease(r));
      }
    }
  }

  // ---------------------------------------------------------------- runs

  datatype Call =
    | GrantCall(ws: string, amount: int, kind: PoolKind, expiresAt: Option<int>, key: Key, now: int)
    | ReserveCall(ws: string, quote: string, task: nat, amount: int, now: int)
    | SettleCall(reservation: nat, actual: Option<int>)
    | ReleaseCall(reservation: nat)

  /** A call that fails is rolled back. */
  function Apply(db: Db, c: Call): Db {
    match c
    case GrantCall(ws, amount, kind, expiresAt, key, now) =>
      var r := Grant(db, ws, amount, kind, expiresAt, key, now); if r.Ok? then r.value else db
    case ReserveCall(ws, quote, task, amount, now) =>
      var r := Reserve(db, ws, quote, task, amount, now); if r.Ok? then r.value.db else db
    case SettleCall(id, actual) =>
      var r := Settle(db, id, actual); if r.Ok? then r.value.db else db
    case ReleaseCall(id) =>
      var r := Release(db, id); if r.Ok? then r.value.db else db
  }

  ghost predicate NoClawback(calls: seq<Call>) {
    forall k :: 0 <= k < |calls| && calls[k].GrantCall? ==> calls[k].amount >= 0
  }

  function Run(db: Db, calls: seq<Call>): Db {
    if calls == [] then db else Apply(Run(db, calls[..|calls| - 1]), calls[|calls| - 1])
  }

  lemma ApplyKeepsInv(db: Db, c: Call)
    requires Inv(db) && (c.GrantCall? ==> c.amount >= 0)
    ensures Inv(Apply(db, c))
  {
    match c {
      case GrantCall(ws, amount, kind, expiresAt, key, now) => GrantKeepsInv(db, ws, amount, kind, expiresAt, key, now);
      case ReserveCall(ws, quote, task, amount, now) => ReserveKeepsInv(db, ws, quote, task, amount, now);
      case SettleCall(id, actual) => SettleKeepsInv(db, id, actual);
      case ReleaseCall(id) => ReleaseKeepsInv(db, id);
    }
  }

  /** In every state reachable from empty tables all views agree, whatever is retried, repeated or refused on the way. */
  lemma {:induction false} EveryRunKeepsInv(calls: seq<Call>)
    requires NoClawback(calls)
    ensures Inv(Run(EMPTY, calls))
  {
    if calls == [] {
      EmptyInv();
    } else {
      EveryRunKeepsInv(calls[..|calls| - 1]);
      ApplyKeepsInv(Run(EMPTY, calls[..|calls| - 1]), calls[|calls| - 1]);
    }
  }

  /** Reservation r is as before and the ledger has no new settle or release entry for it. */
  ghost predicate Untouched(db: Db, db': Db, r: nat) {
    && r < |db.reservations| && r < |db'.reservations| && db'.reservations[r] == db.reservations[r]
    && Moves(db'.ledger, r) == Moves(db.ledger, r)
  }

  lemma AppendTouchesNothing(db: Db, db': Db, r: nat)
    requires r < |db.reservations| <= |db'.reservations| && db'.reservations[r] == db.reservations[r]
    requires |db'.ledger| == |db.ledger| + 1 && db'.ledger == db.ledger + [db'.ledger[|db.ledger|]]
    requires db'.ledger[|db.ledger|].kind !in {SETTLE, RELEASE}
    ensures Untouched(db, db', r)
  {
    MoveAppended(db.ledger, db'.ledger[|db.ledger|], r);
  }

  lemma CloseTouchesOnly(db: Db, r: nat, id: nat, actual: int, status: Status, kind: EntryKind, key: Key)
    requires r < |db.reservations| && id < |db.reservations| && id != r
    ensures Untouched(db, Closed(db, id, actual, status, kind, key), r)
  {
    MoveAppended(db.ledger, Closed(db, id, actual, status, kind, key).ledger[|db.ledger|], r);
  }

  lemma ReserveTouchesNothing(db: Db, ws: string, quote: string, task: nat, amount: int, now: int, r: nat)
    requires r < |db.reservations|
    ensures var o := Reserve(db, ws, quote, task, amount, now); o.Ok? ==> Untouched(db, o.value.db, r)
  {
    AppendTouchesNothing(db, ReservedWith(db, ws, quote, task, amount, Takes(db, ws, amount, now)), r);
  }

  lemma SettleTouchesOnly(db: Db, id: nat, actual: Option<int>, r: nat)
    requires r < |db.reservations| && !db.reservations[r].status.RESERVED?
    ensures var o := Settle(db, id, actual); o.Ok? ==> Untouched(db, o.value.db, r)
  {
    if id != r && id < |db.reservations| {
      var charge := Charge(db.reservations[id].amount, actual);
      CloseTouchesOnly(db, r, id, charge, SETTLED(charge), SETTLE, ForSettle(id));
    }
  }

  lemma ReleaseTouchesOnly(db: Db, id: nat, r: nat)
    requires r < |db.reservations| && !db.reservations[r].status.RESERVED?
    ensures var o := Release(db, id); o.Ok? ==> Untouched(db, o.value.db, r)
  {
    if id != r && id < |db.reservations| {
      CloseTouchesOnly(db, r, id, 0, RELEASED, RELEASE, ForRelease(id));
    }
  }

  /** A reservation that has been settled or released stays as it is, whatever is called. */
  lemma EndedIsFinal(db: Db, c: Call, r: nat)
    requires r < |db.reservations| && !db.reservations[r].status.RESERVED?
    ensures Untouched(db, Apply(db, c), r)
  {
    match c {
      case GrantCall(ws, amount, kind, expiresAt, key, now) =>
        AppendTouchesNothing(db, Granted(db, ws, amount, kind, expiresAt, key, now), r);
      case ReserveCall(ws, quote, task, amount, now) => ReserveTouchesNothing(db, ws, quote, task, amount, now, r);
      case SettleCall(id, actual) => SettleTouchesOnly(db, id, actual, r);
      case ReleaseCall(id) => ReleaseTouchesOnly(db, id, r);
    }
  }

  /** Over any run each reservation moves the balance back at most once: exactly once when it has ended. */
  lemma OneMovePerReservation(calls: seq<Call>, r: nat)
    requires NoClawback(calls) && r < |Run(EMPTY, calls).reservations|
    ensures var db := Run(EMPTY, calls); Moves(db.ledger, r) == (if db.reservations[r].status.RESERVED? then 0 else 1)
  {
    EveryRunKeepsInv(calls);
    assert ReservationOk(Run(EMPTY, calls), r);
  }
}
