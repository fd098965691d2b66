/** Credits as an aggregate, as pools with allocations, and as an append-only ledger (packages/storage/src/postgres-store.ts). */
module Ledger {
  import opened Common
  import opened Sums
  import opened Spending

  // ---------------------------------------------------------------- tables

  datatype Account = Account(available: int, reserved: int)

  datatype Status = RESERVED | SETTLED(actual: int) | RELEASED

  datatype Reservation = Reservation(ws: string, quote: string, task: nat, amount: int, status: Status)

  datatype EntryKind = GRANT | RESERVE | SETTLE | RELEASE

  datatype Entry = Entry(ws: string, kind: EntryKind, amount: int, availableAfter: int, reservedAfter: int, key: Key,
                         reservation: Option<nat>)

  /**
   * The credit tables. Pools, reservations and tasks are identified by their row; allocations[r][p] is what reservation r took
   * from pool p, and zero or absent where the table has no such row.
   */
  datatype Db = Db(accounts: map<string, Account>, pools: seq<Pool>, reservations: seq<Reservation>,
                   allocations: seq<seq<int>>, ledger: seq<Entry>)

  datatype Error = NOT_FOUND | INSUFFICIENT_CREDITS | INVALID_STATE | CONSTRAINT_VIOLATION

  const EMPTY: Db := Db(map[], [], [], [], [])

  function Balance(db: Db, ws: string): Account {
    if ws in db.accounts then db.accounts[ws] else Account(0, 0)
  }

  /** The account row exists once it has been locked. */
  function Locked(db: Db, ws: string): Db {
    db.(accounts := db.accounts[ws := Balance(db, ws)])
  }

  predicate KeyUsed(ledger: seq<Entry>, ws: string, key: Key) {
    exists i :: 0 <= i < |ledger| && ledger[i].ws == ws && ledger[i].key == key
  }

  predicate PoolKeyUsed(pools: seq<Pool>, ws: string, key: Key) {
    exists i :: 0 <= i < |pools| && pools[i].ws == ws && pools[i].key == key
  }

  predicate TaskUsed(reservations: seq<Reservation>, task: nat) {
    exists r :: 0 <= r < |reservations| && reservations[r].task == task
  }

  function FindQuote(reservations: seq<Reservation>, quote: string): (r: Option<nat>)
    ensures r.Some? ==> r.value < |reservations| && reservations[r.value].quote == quote
    ensures r.None? ==> forall k :: 0 <= k < |reservations| ==> reservations[k].quote != quote
  {
    if reservations == [] then None
    else if reservations[|reservations| - 1].quote == quote then Some(|reservations| - 1)
    else FindQuote(reservations[..|reservations| - 1], quote)
  }

  function FindTask(reservations: seq<Reservation>, task: nat): (r: Option<nat>)
    ensures r.Some? ==> r.value < |reservations| && reservations[r.value].task == task
    ensures r.None? ==> forall k :: 0 <= k < |reservations| ==> reservations[k].task != task
  {
    if reservations == [] then None
    else if reservations[|reservations| - 1].task == task then Some(|reservations| - 1)
    else FindTask(reservations[..|reservations| - 1], task)
  }

  function Allocated(allocations: seq<seq<int>>, r: nat, p: nat): int {
    if r < |allocations| && p < |allocations[r]| then allocations[r][p] else 0
  }

  // ---------------------------------------------------------------- the four operations

  function Granted(db: Db, ws: string, amount: int, kind: PoolKind, expiresAt: Option<int>, key: Key, now: int): Db {
    var b := Balance(db, ws);
    var b' := Account(b.available + amount, b.reserved);
    db.(accounts := db.accounts[ws := b'],
        pools := if amount > 0 then db.pools + [Pool(ws, kind, amount, amount, 0, expiresAt, key, now)] else db.pools,
        ledger := db.ledger + [Entry(ws, GRANT, amount, b'.available, b'.reserved, key, None)])
  }

  function Grant(db: Db, ws: string, amount: int, kind: PoolKind, expiresAt: Option<int>, key: Key, now: int): Result<Db, Error> {
    if KeyUsed(db.ledger, ws, key) then Ok(Locked(db, ws))
    else if amount > 0 && PoolKeyUsed(db.pools, ws, key) then Err(CONSTRAINT_VIOLATION)
    else Ok(Granted(db, ws, amount, kind, expiresAt, key, now))
  }

  function Available(pools: seq<Pool>): (a: seq<int>)
    ensures |a| == |pools| && forall i :: 0 <= i < |a| ==> a[i] == pools[i].available
  {
    seq(|pools|, i requires 0 <= i < |pools| => pools[i].available)
  }

  /** How much a reservation takes from each pool. */
  function Takes(db: Db, ws: string, amount: int, now: int): (takes: seq<int>)
    ensures |takes| == |db.pools|
  {
    var order := SpendOrder(db.pools, ws, now, |db.pools|);
    Drain(order, Available(db.pools), amount, |order|)
  }

  function Held(pools: seq<Pool>, takes: seq<int>): (r: seq<Pool>)
    requires |takes| == |pools|
    ensures |r| == |pools|
    ensures forall i :: 0 <= i < |r| ==>
                          r[i] == pools[i].(available := pools[i].available - takes[i], reserved := pools[i].reserved + takes[i])
  {
    seq(|pools|, i requires 0 <= i < |pools| =>
      pools[i].(available := pools[i].available - takes[i], reserved := pools[i].reserved + takes[i]))
  }

  function ReservedWith(db: Db, ws: string, quote: string, task: nat, amount: int, takes: seq<int>): Db
    requires |takes| == |db.pools|
  {
    var b := Balance(db, ws);
    var b' := Account(b.available - amount, b.reserved + amount);
    var id := |db.reservations|;
    Db(db.accounts[ws := b'],
       Held(db.pools, takes),
       db.reservations + [Reservation(ws, quote, task, amount, RESERVED)],
       db.allocations + [takes],
       db.ledger + [Entry(ws, RESERVE, -amount, b'.available, b'.reserved, ForReserve(quote), Some(id))])
  }

  /** The reservation's row, and whether this call made it. */
  datatype ReserveOutcome = ReserveOutcome(db: Db, reservation: nat, created: bool)

  function Reserve(db: Db, ws: string, quote: string, task: nat, amount: int, now: int): Result<ReserveOutcome, Error> {
    var existing := FindQuote(db.reservations, quote);
    if existing.Some? then Ok(ReserveOutcome(Locked(db, ws), existing.value, false))
    else if Balance(db, ws).available < amount then Err(INSUFFICIENT_CREDITS)
    else if amount < 0 || TaskUsed(db.reservations, task) then Err(CONSTRAINT_VIOLATION)
    else if Sum(Takes(db, ws, amount, now)) < amount then Err(INVALID_STATE)
    else if KeyUsed(db.ledger, ws, ForReserve(quote)) then Err(CONSTRAINT_VIOLATION)
    else Ok(ReserveOutcome(ReservedWith(db, ws, quote, task, amount, Takes(db, ws, amount, now)), |db.reservations|, true))
  }

  /** What reservation r has taken from each of n pools. */
  function AllocRow(allocations: seq<seq<int>>, r: nat, n: nat): (row: seq<int>)
    ensures |row| == n && forall p: nat :: p < n ==> row[p] == Allocated(allocations, r, p)
  {
    seq(n, p requires 0 <= p < n => Allocated(allocations, r, p))
  }

  function Identity(n: nat): (r: seq<nat>)
    ensures |r| == n && forall i :: 0 <= i < n ==> r[i] == i
  {
    seq(n, i requires 0 <= i < n => i)
  }

  /** How the charge is spread over the allocated pools, in order of pool id. */
  function Consumed(db: Db, r: nat, actual: int): (c: seq<int>)
    ensures |c| == |db.pools|
  {
    Drain(Identity(|db.pools|), AllocRow(db.allocations, r, |db.pools|), actual, |db.pools|)
  }

  /** Allocated credits leave the hold; what is not consumed becomes available again. */
  function Returned(pools: seq<Pool>, row: seq<int>, consumed: seq<int>): (r: seq<Pool>)
    requires |row| == |consumed| == |pools|
    ensures |r| == |pools|
    ensures forall i :: 0 <= i < |r| ==>
                          r[i] == pools[i].(reserved := Max(0, pools[i].reserved - row[i]), available := pools[i].available + row[i] - consumed[i])
  {
    seq(|pools|, i requires 0 <= i < |pools| =>
      pools[i].(reserved := Max(0, pools[i].reserved - row[i]), available := pools[i].available + row[i] - consumed[i]))
  }

  /** End reservation r, charging `actual`. */
  function Closed(db: Db, r: nat, actual: int, status: Status, kind: EntryKind, key: Key): Db
    requires r < |db.reservations|
  {
    var res := db.reservations[r];
    var b := Balance(db, res.ws);
    var b' := Account(b.available + (res.amount - actual), Max(0, b.reserved - res.amount));
    Db(db.accounts[res.ws := b'],
       Returned(db.pools, AllocRow(db.allocations, r, |db.pools|), Consumed(db, r, actual)),
       db.reservations[r := res.(status := status)],
       db.allocations,
       db.ledger + [Entry(res.ws, kind, res.amount - actual, b'.available, b'.reserved, key, Some(r))])
  }

  /** The tables after the call and whether it changed the reservation. */
  datatype CloseOutcome = CloseOutcome(db: Db, changed: bool)

  function Charge(amount: int, actual: Option<int>): int {
    Min(amount, Max(0, if actual.Some? then actual.value else amount))
  }

  function Settle(db: Db, r: nat, actual: Option<int>): Result<CloseOutcome, Error> {
    if r >= |db.reservations| then Err(NOT_FOUND)
    else
      var res := db.reservations[r];
      if res.status.SETTLED? then Ok(CloseOutcome(Locked(db, res.ws), false))
      else if res.status.RELEASED? then Err(INVALID_STATE)
      else if KeyUsed(db.ledger, res.ws, ForSettle(r)) then Err(CONSTRAINT_VIOLATION)
      else
        var charge := Charge(res.amount, actual);
        Ok(CloseOutcome(Closed(db, r, charge, SETTLED(charge), SETTLE, ForSettle(r)), true))
  }

  function Release(db: Db, r: nat): Result<CloseOutcome, Error> {
    if r >= |db.reservations| then Err(NOT_FOUND)
    else
      var res := db.reservations[r];
      if !res.status.RESERVED? then Ok(CloseOutcome(Locked(db, res.ws), false))
      else if KeyUsed(db.ledger, res.ws, ForRelease(r)) then Err(CONSTRAINT_VIOLATION)
      else Ok(CloseOutcome(Closed(db, r, 0, RELEASED, RELEASE, ForRelease(r)), true))
  }

  // ---------------------------------------------------------------- the views that must agree

  function PoolAvailable(pools: seq<Pool>, ws: string): (s: seq<int>)
    ensures |s| == |pools| && forall i :: 0 <= i < |s| ==> s[i] == if pools[i].ws == ws then pools[i].available else 0
  {
    seq(|pools|, i requires 0 <= i < |pools| => if pools[i].ws == ws then pools[i].available else 0)
  }

  function PoolReserved(pools: seq<Pool>, ws: string): (s: seq<int>)
    ensures |s| == |pools| && forall i :: 0 <= i < |s| ==> s[i] == if pools[i].ws == ws then pools[i].reserved else 0
  {
    seq(|pools|, i requires 0 <= i < |pools| => if pools[i].ws == ws then pools[i].reserved else 0)
  }

  /** What one reservation holds, and what it has been charged. */
  function Hold(r: Reservation, ws: string): int {
    if r.ws == ws && r.status.RESERVED? then r.amount else 0
  }

  function Charged(r: Reservation, ws: string): int {
    if r.ws == ws && r.status.SETTLED? then r.status.actual else 0
  }

  function Holds(reservations: seq<Reservation>, ws: string): (s: seq<int>)
    ensures |s| == |reservations| && forall i :: 0 <= i < |s| ==> s[i] == Hold(reservations[i], ws)
  {
    seq(|reservations|, i requires 0 <= i < |reservations| => Hold(reservations[i], ws))
  }

  function Charges(reservations: seq<Reservation>, ws: string): (s: seq<int>)
    ensures |s| == |reservations| && forall i :: 0 <= i < |s| ==> s[i] == Charged(reservations[i], ws)
  {
    seq(|reservations|, i requires 0 <= i < |reservations| => Charged(reservations[i], ws))
  }

  function EntryAmount(e: Entry, ws: string): int {
    if e.ws == ws then e.amount else 0
  }

  function GrantAmount(e: Entry, ws: string): int {
    if e.ws == ws && e.kind == GRANT then e.amount else 0
  }

  function Amounts(ledger: seq<Entry>, ws: string): (s: seq<int>)
    ensures |s| == |ledger| && forall i :: 0 <= i < |s| ==> s[i] == EntryAmount(ledger[i], ws)
  {
    seq(|ledger|, i requires 0 <= i < |ledger| => EntryAmount(ledger[i], ws))
  }

  function Grants(ledger: seq<Entry>, ws: string): (s: seq<int>)
    ensures |s| == |ledger| && forall i :: 0 <= i < |s| ==> s[i] == GrantAmount(ledger[i], ws)
  {
    seq(|ledger|, i requires 0 <= i < |ledger| => GrantAmount(ledger[i], ws))
  }

  /** The balance that the last of the first n ledger entries of the workspace recorded. */
  function BalanceUpTo(ledger: seq<Entry>, n: nat, ws: string): Account
    requires n <= |ledger|
  {
    if n == 0 then Account(0, 0)
    else
      var e := ledger[n - 1];
      if e.ws == ws then Account(e.availableAfter, e.reservedAfter) else BalanceUpTo(ledger, n - 1, ws)
  }

  function LastBalance(ledger: seq<Entry>, ws: string): Account {
    BalanceUpTo(ledger, |ledger|, ws)
  }

  /** Aggregate, pools, ledger and reservations agree, and nothing granted is lost. */
  ghost predicate ViewsAgree(db: Db, ws: string) {
    var b := Balance(db, ws);
    && b.available == Sum(PoolAvailable(db.pools, ws)) == Sum(Amounts(db.ledger, ws))
    && b.reserved == Sum(PoolReserved(db.pools, ws)) == Sum(Holds(db.reservations, ws))
    && Sum(Grants(db.ledger, ws)) == b.available + b.reserved + Sum(Charges(db.reservations, ws))
    && LastBalance(db.ledger, ws) == b
  }

  function LiveAllocation(reservation: Reservation, allocations: seq<seq<int>>, r: nat, p: nat): int {
    if reservation.status.RESERVED? then Allocated(allocations, r, p) else 0
  }

  /** What live reservations have taken from pool p. */
  function LiveAllocations(reservations: seq<Reservation>, allocations: seq<seq<int>>, p: nat): (s: seq<int>)
    ensures |s| == |reservations|
    ensures forall r: nat :: r < |s| ==> s[r] == LiveAllocation(reservations[r], allocations, r, p)
  {
    seq(|reservations|, r requires 0 <= r < |reservations| => LiveAllocation(reservations[r], allocations, r, p))
  }

  ghost predicate PoolOk(db: Db, p: nat)
    requires p < |db.pools|
  {
    db.pools[p].available >= 0 && db.pools[p].reserved == Sum(LiveAllocations(db.reservations, db.allocations, p))
  }

  function MoveOf(e: Entry, r: nat): int {
    if e.reservation == Some(r) && e.kind in {SETTLE, RELEASE} then 1 else 0
  }

  function MovesOf(ledger: seq<Entry>, r: nat): (s: seq<int>)
    ensures |s| == |ledger| && forall i :: 0 <= i < |s| ==> s[i] == MoveOf(ledger[i], r)
  {
    seq(|ledger|, i requires 0 <= i < |ledger| => MoveOf(ledger[i], r))
  }

  /** How many settle or release entries the ledger holds for reservation r. */
  function Moves(ledger: seq<Entry>, r: nat): int {
    Sum(MovesOf(ledger, r))
  }

  ghost predicate ReservationOk(db: Db, r: nat)
    requires r < |db.reservations|
  {
    var res := db.reservations[r];
    && res.amount >= 0 && Sum(AllocRow(db.allocations, r, |db.pools|)) == res.amount
    && (res.status.SETTLED? ==> 0 <= res.status.actual <= res.amount)
    && Moves(db.ledger, r) == (if res.status.RESERVED? then 0 else 1)
  }

  ghost predicate AllocationOk(db: Db, r: nat, p: nat) {
    var a := Allocated(db.allocations, r, p);
    a != 0 ==> a > 0 && r < |db.reservations| && p < |db.pools| && db.pools[p].ws == db.reservations[r].ws
  }

  ghost predicate Unique(db: Db) {
    && (forall i, j :: 0 <= i < j < |db.reservations| ==> db.reservations[i].quote != db.reservations[j].quote)
    && (forall i, j :: 0 <= i < j < |db.reservations| ==> db.reservations[i].task != db.reservations[j].task)
    && (forall i, j :: 0 <= i < j < |db.ledger| && db.ledger[i].ws == db.ledger[j].ws ==> db.ledger[i].key != db.ledger[j].key)
    && (forall i :: 0 <= i < |db.ledger| && db.ledger[i].reservation.Some? ==> db.ledger[i].reservation.value < |db.reservations|)
    && (forall p :: 0 <= p < |db.pools| ==> KeyUsed(db.ledger, db.pools[p].ws, db.pools[p].key))
  }

  ghost predicate Inv(db: Db) {
    && (forall ws :: ViewsAgree(db, ws))
    && (forall p: nat :: p < |db.pools| ==> PoolOk(db, p))
    && (forall r: nat :: r < |db.reservations| ==> ReservationOk(db, r))
    && |db.allocations| == |db.reservations|
    && (forall r: nat, p: nat :: AllocationOk(db, r, p))
    && Unique(db)
  }

  lemma EmptyInv()
    ensures Inv(EMPTY)
  {
  }
}
