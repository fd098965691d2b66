/** The credit methods of the store, each one transaction (packages/storage/src/postgres-store.ts). */
module CreditStore {
  import opened Common
  import opened Sums
  import opened Spending
  import opened Ledger
  import opened LedgerInvariant

  lemma HeldUpdate(pools: seq<Pool>, row: seq<int>, p: nat, take: int)
    requires |row| == |pools| && p < |pools| && row[p] == 0
    ensures var held := Held(pools, row);
            held[p := held[p].(available := held[p].available - take, reserved := held[p].reserved + take)] ==
            Held(pools, row[p := take])
  {
  }

  lemma StartDraining(db: Db, ws: string, amount: int, now: int)
    requires amount >= 0 && forall p: nat :: p < |db.pools| ==> db.pools[p].available >= 0
    ensures Drainable(SpendOrder(db.pools, ws, now, |db.pools|), Available(db.pools))
    ensures Held(db.pools, Zeros(|db.pools|)) == db.pools
  {
    SpendOrderIsRight(db.pools, ws, now, |db.pools|);
  }

  /** What the first k pools of the spending order gave; pool order[k] has given nothing yet. */
  lemma TakeStep(order: seq<nat>, avail: seq<int>, amount: nat, k: nat)
    requires Drainable(order, avail) && k < |order|
    ensures Left(order, avail, amount, k) >= 0 && Drain(order, avail, amount, k)[order[k]] == 0
  {
    LeftFalls(order, avail, amount, k, k);
    DrainElsewhere(order, avail, amount, k, order[k]);
  }

  lemma DrainDone(order: seq<nat>, avail: seq<int>, amount: nat, k: nat)
    requires Drainable(order, avail) && k <= |order| && (k < |order| ==> Left(order, avail, amount, k) <= 0)
    ensures Drain(order, avail, amount, k) == Drain(order, avail, amount, |order|)
    ensures Left(order, avail, amount, k) == amount - Sum(Drain(order, avail, amount, k))
  {
    LeftFalls(order, avail, amount, k, k);
    if k < |order| {
      DrainStops(order, avail, amount, k, |order|);
    }
    DrainSum(order, avail, amount, k);
  }

  /** The pools when the first n of them have been given back what the reservation does not consume. */
  function ReturnedUpTo(pools: seq<Pool>, row: seq<int>, consumed: seq<int>, n: nat): (r: seq<Pool>)
    requires |row| == |consumed| == |pools|
    ensures |r| == |pools|
    ensures forall i :: 0 <= i < |r| ==> r[i] == if i < n then Returned(pools, row, consumed)[i] else pools[i]
  {
    seq(|pools|, i requires 0 <= i < |pools| => if i < n then Returned(pools, row, consumed)[i] else pools[i])
  }

  lemma ReturnOne(pools: seq<Pool>, row: seq<int>, consumed: seq<int>, p: nat, used: int)
    requires |row| == |consumed| == |pools| && p < |pools|
    ensures var now := ReturnedUpTo(pools, row, consumed, p);
            var pool := now[p].(reserved := Max(0, now[p].reserved - row[p]), available := now[p].available + (row[p] - used));
            now[p := pool] == ReturnedUpTo(pools, row, consumed[p := used], p + 1)
  {
    var now := ReturnedUpTo(pools, row, consumed, p);
    var next := ReturnedUpTo(pools, row, consumed[p := used], p + 1);
    forall i | 0 <= i < |pools|
      ensures i != p ==> next[i] == now[i]
    {
      assert i != p ==> Returned(pools, row, consumed[p := used])[i] == Returned(pools, row, consumed)[i];
    }
  }

  /** A grant always finds its result; one that takes credits away is the only kind that can break the invariant. */
  lemma GrantOutcome(db: Db, ws: string, amount: int, kind: PoolKind, expiresAt: Option<int>, key: Key, now: int)
    requires Inv(db)
    ensures var r := Grant(db, ws, amount, kind, expiresAt, key, now);
            r.Ok? && (amount >= 0 || KeyUsed(db.ledger, ws, key) ==> Inv(r.value))
    ensures !KeyUsed(db.ledger, ws, key) ==> !PoolKeyUsed(db.pools, ws, key)
  {
    assert !KeyUsed(db.ledger, ws, key) ==> !PoolKeyUsed(db.pools, ws, key);
    if KeyUsed(db.ledger, ws, key) {
      LockedInv(db, ws);
    } else if amount >= 0 {
      GrantKeepsInv(db, ws, amount, kind, expiresAt, key, now);
    }
  }

  /** The tables after the updates of a reservation are those of its specification. */
  lemma MakesReserved(before: Db, db: Db, ws: string, quote: string, task: nat, amount: int, takes: seq<int>)
    requires |takes| == |before.pools| && db.pools == Held(before.pools, takes) && db.allocations == before.allocations + [takes]
    requires var b := Balance(before, ws);
             && db.accounts == Locked(before, ws).accounts[ws := Account(b.available - amount, b.reserved + amount)]
             && db.reservations == before.reservations + [Reservation(ws, quote, task, amount, RESERVED)]
             && db.ledger == before.ledger +
                             [Entry(ws, RESERVE, -amount, b.available - amount, b.reserved + amount, ForReserve(quote), Some(|before.reservations|))]
    ensures db == ReservedWith(before, ws, quote, task, amount, takes)
  {
    assert db.accounts == before.accounts[ws := db.accounts[ws]];
  }

  /** Likewise for a grant. */
  lemma MakesGranted(before: Db, db: Db, ws: string, amount: int, kind: PoolKind, expiresAt: Option<int>, key: Key, now: int)
    requires db.reservations == before.reservations && db.allocations == before.allocations
    requires db.pools == if amount > 0 then before.pools + [Pool(ws, kind, amount, amount, 0, expiresAt, key, now)] else before.pools
    requires var b := Balance(before, ws);
             && db.accounts == Locked(before, ws).accounts[ws := Account(b.available + amount, b.reserved)]
             && db.ledger == before.ledger + [Entry(ws, GRANT, amount, b.available + amount, b.reserved, key, None)]
    ensures db == Granted(before, ws, amount, kind, expiresAt, key, now)
  {
    assert db.accounts == before.accounts[ws := db.accounts[ws]];
  }

  /** And for the end of a reservation. */
  lemma MakesClosed(before: Db, db: Db, r: nat, actual: int, status: Status, kind: EntryKind, key: Key)
    requires r < |before.reservations| && db.allocations == before.allocations
    requires db.pools == Returned(before.pools, AllocRow(before.allocations, r, |before.pools|), Consumed(before, r, actual))
    requires var (res, b) := (before.reservations[r], Balance(before, before.reservations[r].ws));
             var b' := Account(b.available + (res.amount - actual), Max(0, b.reserved - res.amount));
             && db.accounts == Locked(before, res.ws).accounts[res.ws := b']
             && db.reservations == before.reservations[r := res.(status := status)]
             && db.ledger == before.ledger + [Entry(res.ws, kind, res.amount - actual, b'.available, b'.reserved, key, Some(r))]
    ensures db == Closed(before, r, actual, status, kind, key)
  {
    assert db.accounts == before.accounts[before.reservations[r].ws := db.accounts[before.reservations[r].ws]];
  }

  class Store {
    var accounts: map<string, Account>
    var pools: seq<Pool>
    var reservations: seq<Reservation>
    var allocations: seq<seq<int>>
    var ledger: seq<Entry>

    function Tables(): Db
      reads this
    {
      Db(accounts, pools, reservations, allocations, ledger)
    }

    ghost predicate Valid()
      reads this
    {
      Inv(Tables())
    }

    constructor ()
      ensures Valid() && Tables() == EMPTY
    {
      accounts, pools, reservations, allocations, ledger := map[], [], [], [], [];
      EmptyInv();
    }

    /** Undo everything since `before` was read. */
    method Rollback(before: Db)
      modifies this
      ensures Tables() == before
    {
      accounts, pools, reservations := before.accounts, before.pools, before.reservations;
      allocations, ledger := before.allocations, before.ledger;
    }

    method LockBalance(ws: string) returns (bal: Account)
      modifies this`accounts
      ensures Tables() == Locked(old(Tables()), ws) && bal == Balance(old(Tables()), ws)
    {
      if ws !in accounts {
        accounts := accounts[ws := Account(0, 0)];
      }
      bal := accounts[ws];
      assert accounts == old(accounts)[ws := bal];
    }

    method GrantCredits(ws: string, amount: int, kind: PoolKind, expiresAt: Option<int>, key: Key, now: int)
      returns (r: Result<Account, Error>)
      requires Valid()
      modifies this
      ensures amount >= 0 || KeyUsed(old(ledger), ws, key) ==> Valid()
      ensures var g := Grant(old(Tables()), ws, amount, kind, expiresAt, key, now);
              g.Ok? && Tables() == g.value && r == Ok(Balance(Tables(), ws))
    {
      ghost var db0 := Tables();
      GrantOutcome(db0, ws, amount, kind, expiresAt, key, now);
      var existing := KeyUsed(ledger, ws, key);
      var bal := LockBalance(ws);
      if existing {
        return Ok(bal);
      }
      bal := InsertGrant(ws, amount, kind, expiresAt, key, now, bal, db0);
      r := Ok(bal);
    }

    /** The inserts and updates of a grant under a fresh key. */
    method InsertGrant(ws: string, amount: int, kind: PoolKind, expiresAt: Option<int>, key: Key, now: int, bal: Account, ghost before: Db)
      returns (balance: Account)
      requires Tables() == Locked(before, ws) && bal == Balance(before, ws)
      modifies this
      ensures Tables() == Granted(before, ws, amount, kind, expiresAt, key, now) && balance == Balance(Tables(), ws)
    {
      balance := Account(bal.available + amount, bal.reserved);
      accounts := accounts[ws := balance];
      if amount > 0 {
        pools := pools + [Pool(ws, kind, amount, amount, 0, expiresAt, key, now)];
      }
      ledger := ledger + [Entry(ws, GRANT, amount, balance.available, balance.reserved, key, None)];
      MakesGranted(before, Tables(), ws, amount, kind, expiresAt, key, now);
    }

    /** Take `take` from pool p for a reservation that has taken `row` so far. */
    method TakeFromPool(ghost pools0: seq<Pool>, row: seq<int>, p: nat, take: int) returns (row': seq<int>)
      requires |row| == |pools0| && pools == Held(pools0, row) && p < |row| && row[p] == 0
      modifies this`pools
      ensures row' == row[p := take] && pools == Held(pools0, row')
    {
      HeldUpdate(pools0, row, p, take);
      pools := pools[p := pools[p].(available := pools[p].available - take, reserved := pools[p].reserved + take)];
      row' := row[p := take];
    }

    /** Take `amount` from the pools in spending order; `row` is what the new reservation took from each. */
    method TakeFromPools(ws: string, amount: int, now: int) returns (remaining: int, row: seq<int>)
      requires amount >= 0 && forall p: nat :: p < |pools| ==> pools[p].available >= 0
      modifies this`pools
      ensures row == Takes(old(Tables()), ws, amount, now) && pools == Held(old(pools), row)
      ensures remaining == amount - Sum(row)
    {
      ghost var pools0 := pools;
      StartDraining(Tables(), ws, amount, now);
      var order := SpendOrder(pools, ws, now, |pools|);
      var avail := Available(pools);
      remaining := amount;
      row := Zeros(|pools|);
      var k := 0;
      while k < |order|
        invariant k <= |order| && remaining == Left(order, avail, amount, k) && row == Drain(order, avail, amount, k)
        invariant |row| == |pools0| && pools == Held(pools0, row)
      {
        if remaining <= 0 {
          break;
        }
        TakeStep(order, avail, amount, k);
        var take := Min(remaining, avail[order[k]]);
        row := TakeFromPool(pools0, row, order[k], take);
        remaining := remaining - take;
        k := k + 1;
      }
      DrainDone(order, avail, amount, k);
    }

    /** The inserts and updates of a reservation for a fresh quote and task. */
    method InsertReservation(ws: string, quote: string, task: nat, amount: int, now: int, ghost before: Db)
      returns (r: Result<nat, Error>)
      requires Tables() == Locked(before, ws) && 0 <= amount
      requires forall p: nat :: p < |pools| ==> pools[p].available >= 0
      modifies this
      ensures var takes := Takes(before, ws, amount, now);
              if Sum(takes) < amount then r == Err(INVALID_STATE)
              else if KeyUsed(before.ledger, ws, ForReserve(quote)) then r == Err(CONSTRAINT_VIOLATION)
              else r == Ok(|before.reservations|) && Tables() == ReservedWith(before, ws, quote, task, amount, takes)
    {
      var bal := accounts[ws];
      var remaining, row := TakeFromPools(ws, amount, now);
      reservations := reservations + [Reservation(ws, quote, task, amount, RESERVED)];
      allocations := allocations + [row];
      if remaining > 0 {
        return Err(INVALID_STATE);
      }
      r := PostReservation(ws, quote, task, amount, bal, row, before);
    }

    /** The balance and the ledger entry of a reservation whose row and allocations are written. */
    method PostReservation(ws: string, quote: string, task: nat, amount: int, bal: Account, ghost takes: seq<int>, ghost before: Db)
      returns (r: Result<nat, Error>)
      requires |takes| == |before.pools| && bal == Balance(before, ws)
      requires accounts == Locked(before, ws).accounts && pools == Held(before.pools, takes) && ledger == before.ledger
      requires reservations == before.reservations + [Reservation(ws, quote, task, amount, RESERVED)]
      requires allocations == before.allocations + [takes]
      modifies this
      ensures if KeyUsed(before.ledger, ws, ForReserve(quote)) then r == Err(CONSTRAINT_VIOLATION)
              else r == Ok(|before.reservations|) && Tables() == ReservedWith(before, ws, quote, task, amount, takes)
    {
      var id := |reservations| - 1;
      var available, reserved := bal.available - amount, bal.reserved + amount;
      accounts := accounts[ws := Account(available, reserved)];
      if KeyUsed(ledger, ws, ForReserve(quote)) {
        return Err(CONSTRAINT_VIOLATION);
      }
      ledger := ledger + [Entry(ws, RESERVE, -amount, available, reserved, ForReserve(quote), Some(id))];
      MakesReserved(before, Tables(), ws, quote, task, amount, takes);
      r := Ok(id);
    }

    method ReserveCredits(ws: string, quote: string, task: nat, amount: int, now: int)
      returns (r: Result<(nat, bool), Error>)
      requires Valid()
      modifies this
      ensures Valid()
      ensures match Reserve(old(Tables()), ws, quote, task, amount, now)
              case Ok(o) => Tables() == o.db && r == Ok((o.reservation, o.created))
              case Err(e) => Tables() == old(Tables()) && r == Err(e)
    {
      var before := Tables();
      ReserveKeepsInv(before, ws, quote, task, amount, now);
      PoolsNonNegative(before);
      var bal := LockBalance(ws);
      var existing := FindQuote(reservations, quote);
      if existing.Some? {
        return Ok((existing.value, false));
      }
      if bal.available < amount {
        Rollback(before);
        return Err(INSUFFICIENT_CREDITS);
      }
      if amount < 0 || TaskUsed(reservations, task) {
        Rollback(before);
        return Err(CONSTRAINT_VIOLATION);
      }
      var inserted := InsertReservation(ws, quote, task, amount, now, before);
      if inserted.Err? {
        Rollback(before);
        return Err(inserted.error);
      }
      r := Ok((inserted.value, true));
    }

    /** Pool p gives up row[p]; what exceeds `used` becomes available again. */
    method ReturnToPool(ghost pools0: seq<Pool>, row: seq<int>, ghost taken: seq<int>, p: nat, used: int)
      requires |row| == |taken| == |pools0| && p < |pools0| && pools == ReturnedUpTo(pools0, row, taken, p)
      modifies this`pools
      ensures pools == ReturnedUpTo(pools0, row, taken[p := used], p + 1)
    {
      ReturnOne(pools0, row, taken, p, used);
      var refund := row[p] - used;
      pools := pools[p := pools[p].(reserved := Max(0, pools[p].reserved - row[p]), available := pools[p].available + refund)];
    }

    /** Give the allocations of reservation r back to their pools, except what `actual` consumes. */
    method ReturnToPools(r: nat, actual: int)
      modifies this`pools
      ensures pools == Returned(old(pools), AllocRow(allocations, r, |old(pools)|), Consumed(old(Tables()), r, actual))
    {
      ghost var pools0 := pools;
      var n := |pools|;
      var row := AllocRow(allocations, r, n);
      ghost var taken := Zeros(n);
      var actualRemaining := actual;
      assert pools == ReturnedUpTo(pools0, row, taken, 0);
      for p := 0 to n
        invariant |taken| == n == |row| == |pools0|
        invariant pools == ReturnedUpTo(pools0, row, taken, p)
        invariant taken == Drain(Identity(n), row, actual, p) && actualRemaining == Left(Identity(n), row, actual, p)
      {
        assert Identity(n)[p] == p;
        var used := Min(actualRemaining, row[p]);
        ReturnToPool(pools0, row, taken, p, used);
        taken := taken[p := used];
        actualRemaining := actualRemaining - used;
      }
      assert ReturnedUpTo(pools0, row, taken, n) == Returned(pools0, row, taken);
    }

    /** The updates and the ledger entry that end a live reservation. */
    method EndReservation(id: nat, actual: int, status: Status, kind: EntryKind, key: Key, ghost before: Db) returns (ok: bool)
      requires id < |before.reservations| && Tables() == Locked(before, before.reservations[id].ws)
      modifies this
      ensures ok == !KeyUsed(before.ledger, before.reservations[id].ws, key)
      ensures ok ==> Tables() == Closed(before, id, actual, status, kind, key)
    {
      var res := reservations[id];
      var bal := accounts[res.ws];
      var available, reserved := bal.available + (res.amount - actual), Max(0, bal.reserved - res.amount);
      ReturnToPools(id, actual);
      accounts := accounts[res.ws := Account(available, reserved)];
      reservations := reservations[id := res.(status := status)];
      if KeyUsed(ledger, res.ws, key) {
        return false;
      }
      ledger := ledger + [Entry(res.ws, kind, res.amount - actual, available, reserved, key, Some(id))];
      MakesClosed(before, Tables(), id, actual, status, kind, key);
      ok := true;
    }

    method SettleReservation(id: nat, actualAmount: Option<int>) returns (r: Result<bool, Error>)
      requires Valid()
      modifies this
      ensures Valid()
      ensures match Settle(old(Tables()), id, actualAmount)
              case Ok(o) => Tables() == o.db && r == Ok(o.changed)
              case Err(e) => Tables() == old(Tables()) && r == Err(e)
    {
      var before := Tables();
      SettleKeepsInv(before, id, actualAmount);
      if id >= |reservations| {
        return Err(NOT_FOUND);
      }
      var res := reservations[id];
      var _ := LockBalance(res.ws);
      if res.status.SETTLED? {
        return Ok(false);
      }
      if res.status.RELEASED? {
        Rollback(before);
        return Err(INVALID_STATE);
      }
      var actual := Charge(res.amount, actualAmount);
      var ok := EndReservation(id, actual, SETTLED(actual), SETTLE, ForSettle(id), before);
      if !ok {
        Rollback(before);
        return Err(CONSTRAINT_VIOLATION);
      }
      r := Ok(true);
    }

    method ReleaseReservation(id: nat) returns (r: Result<bool, Error>)
      requires Valid()
      modifies this
      ensures Valid()
      ensures match Release(old(Tables()), id)
              case Ok(o) => Tables() == o.db && r == Ok(o.changed)
              case Err(e) => Tables() == old(Tables()) && r == Err(e)
    {
      var before := Tables();
      ReleaseKeepsInv(before, id);
      if id >= |reservations| {
        return Err(NOT_FOUND);
      }
      var res := reservations[id];
      var _ := LockBalance(res.ws);
      if !res.status.RESERVED? {
        return Ok(false);
      }
      var ok := EndReservation(id, 0, RELEASED, RELEASE, ForRelease(id), before);
      if !ok {
        Rollback(before);
        return Err(CONSTRAINT_VIOLATION);
      }
      r := Ok(true);
    }

    /** Release the reservation a render task holds; repeated calls change nothing. */
    method ReleaseForTask(task: nat) returns (r: Result<Option<nat>, Error>)
      requires Valid()
      modifies this
      ensures Valid()
      ensures match FindTask(old(reservations), task)
              case None => Tables() == old(Tables()) && r == Ok(None)
              case Some(id) =>
                match Release(old(Tables()), id)
                case Ok(o) => Tables() == o.db && r == Ok(Some(id))
                case Err(e) => Tables() == old(Tables()) && r == Err(e)
    {
      var id := FindTask(reservations, task);
      if id.None? {
        return Ok(None);
      }
      var o := ReleaseReservation(id.value);
      r := if o.Ok? then Ok(id) else Err(o.error);
    }

    /** Settle the reservation a render task holds. */
    method SettleForTask(task: nat, actualAmount: Option<int>) returns (r: Result<Option<nat>, Error>)
      requires Valid()
      modifies this
      ensures Valid()
      ensures match FindTask(old(reservations), task)
              case None => Tables() == old(Tables()) && r == Ok(None)
              case Some(id) =>
                match Settle(old(Tables()), id, actualAmount)
                case Ok(o) => Tables() == o.db && r == Ok(Some(id))
                case Err(e) => Tables() == old(Tables()) && r == Err(e)
    {
      var id := FindTask(reservations, task);
      if id.None? {
        return Ok(None);
      }
      var o := SettleReservation(id.value, actualAmount);
      r := if o.Ok? then Ok(id) else Err(o.error);
    }
  }
}
