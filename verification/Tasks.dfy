/**
 * The durable task queue and its dispatch outbox: what each store call does to the row of a task
 * (packages/storage/src/postgres-store.ts).
 */
module Tasks {
  import opened Common

  datatype Kind = IMPORT_SOURCE | FINALIZE_UPLOAD | GENERATE_CAPTIONS | RENDER_PREVIEW | RENDER_EXPORT | RETENTION_SWEEP

  datatype Status = QUEUED | RUNNING | SUCCEEDED | FAILED | CANCELLED

  datatype Task = Task(ws: string, kind: Kind, key: Option<string>, status: Status, attempts: int, maxAttempts: int,
                       cancelRequested: bool, leaseOwner: Option<string>, leaseExpiresAt: Option<int>, runAfter: int,
                       createdAt: int, startedAt: Option<int>, finishedAt: Option<int>)

  /** The outbox row of a task. */
  datatype Dispatch = Dispatch(availableAt: int, attempts: int, delivered: Option<int>, generation: int)

  /** Tasks are identified by their row; outbox[i] is the outbox row of task i, if it has one. */
  datatype Queue = Queue(tasks: seq<Task>, outbox: seq<Option<Dispatch>>)

  /** One committed store call. `locked` are the rows that other transactions hold when the call skips locked rows. */
  datatype Event =
    | Enqueue(ws: string, kind: Kind, key: Option<string>, maxAttempts: Option<int>, runAfter: Option<int>, now: int)
    | ClaimNext(worker: string, now: int, leaseMs: int, kinds: seq<Kind>, locked: set<nat>)
    | ClaimById(id: nat, worker: string, now: int, leaseMs: int)
    | Heartbeat(id: nat, worker: string, now: int, leaseMs: int)
    | Complete(id: nat, worker: string, now: int)
    | Fail(id: nat, worker: string, now: int, retryable: bool, backoffMs: Option<int>)
    | RequestCancel(id: nat, ws: string, now: int)
    | MarkCancelled(id: nat, worker: string, now: int)
    | Reclaim(now: int, locked: set<nat>)
    | MarkDispatched(id: nat, generation: int, now: int)
    | RecordDispatchFailure(id: nat, generation: int)
    | RetryAdmin(id: nat, now: int)

  const EMPTY: Queue := Queue([], [])

  function OrElse(x: Option<int>, y: int): int {
    if x.Some? then x.value else y
  }

  // ---------------------------------------------------------------- guards

  predicate Owns(t: Task, worker: string) {
    t.status.RUNNING? && t.leaseOwner == Some(worker)
  }

  predicate Claimable(t: Task, now: int) {
    t.status.QUEUED? && t.runAfter <= now
  }

  predicate Eligible(t: Task, now: int, kinds: seq<Kind>) {
    Claimable(t, now) && (kinds == [] || t.kind in kinds)
  }

  predicate Expired(t: Task, now: int) {
    t.status.RUNNING? && t.leaseExpiresAt.Some? && t.leaseExpiresAt.value < now
  }

  predicate CanRetry(t: Task, retryable: bool) {
    retryable && t.attempts < t.maxAttempts && !t.cancelRequested
  }

  predicate AdminRetryable(t: Task) {
    t.status.FAILED? && t.kind in {IMPORT_SOURCE, FINALIZE_UPLOAD, GENERATE_CAPTIONS, RENDER_PREVIEW}
  }

  predicate Terminal(t: Task) {
    t.status.SUCCEEDED? || t.status.FAILED? || t.status.CANCELLED?
  }

  // ---------------------------------------------------------------- row updates

  function Claimed(t: Task, worker: string, now: int, leaseMs: int): Task {
    t.(status := RUNNING, leaseOwner := Some(worker), leaseExpiresAt := Some(now + leaseMs), attempts := t.attempts + 1,
       startedAt := Some(OrElse(t.startedAt, now)))
  }

  function Ended(t: Task, status: Status, now: int): Task {
    t.(status := status, leaseOwner := None, leaseExpiresAt := None, finishedAt := Some(now))
  }

  function Requeued(t: Task, runAfter: int): Task {
    t.(status := QUEUED, leaseOwner := None, leaseExpiresAt := None, runAfter := runAfter)
  }

  function CancelAsked(t: Task, now: int): Task {
    if t.status.QUEUED? then t.(status := CANCELLED, cancelRequested := true, finishedAt := Some(now))
    else if t.status.RUNNING? then t.(cancelRequested := true)
    else t
  }

  function Reclaimed(t: Task, now: int): Task {
    if t.cancelRequested then Ended(t, CANCELLED, now)
    else if t.attempts < t.maxAttempts then Requeued(t, now)
    else Ended(t, FAILED, now)
  }

  function Retried(t: Task, now: int): Task {
    t.(status := QUEUED, attempts := 0, cancelRequested := false, leaseOwner := None, leaseExpiresAt := None,
       runAfter := now, startedAt := None, finishedAt := None)
  }

  function Rearmed(d: Option<Dispatch>, availableAt: int): Option<Dispatch> {
    if d.None? then None else Some(Dispatch(availableAt, 0, None, d.value.generation + 1))
  }

  function Armed(d: Option<Dispatch>, availableAt: int): Option<Dispatch> {
    if d.None? then Some(Dispatch(availableAt, 0, None, 1)) else Rearmed(d, availableAt)
  }

  function NewTask(ws: string, kind: Kind, key: Option<string>, maxAttempts: Option<int>, runAfter: int, now: int): Task {
    Task(ws, kind, key, QUEUED, 0, OrElse(maxAttempts, 3), false, None, None, runAfter, now, None, None)
  }

  // ---------------------------------------------------------------- what a call does to one row

  /** Task row `id` after e; `picked` says that e is a claim of the next task and chose this row. */
  function TaskAfter(t: Task, e: Event, id: nat, picked: bool): Task {
    match e
    case Enqueue(_, _, _, _, _, _) => t
    case ClaimNext(worker, now, leaseMs, _, _) => if picked then Claimed(t, worker, now, leaseMs) else t
    case ClaimById(x, worker, now, leaseMs) => if x == id && Claimable(t, now) then Claimed(t, worker, now, leaseMs) else t
    case Heartbeat(x, worker, now, leaseMs) =>
      if x == id && Owns(t, worker) then t.(leaseExpiresAt := Some(now + leaseMs)) else t
    case Complete(x, worker, now) => if x == id && Owns(t, worker) then Ended(t, SUCCEEDED, now) else t
    case Fail(x, worker, now, retryable, backoffMs) =>
      if x != id || !Owns(t, worker) then t
      else if CanRetry(t, retryable) then Requeued(t, now + OrElse(backoffMs, 0))
      else Ended(t, FAILED, now)
    case RequestCancel(x, ws, now) => if x == id && t.ws == ws then CancelAsked(t, now) else t
    case MarkCancelled(x, worker, now) => if x == id && Owns(t, worker) then Ended(t, CANCELLED, now) else t
    case Reclaim(now, locked) => if Expired(t, now) && id !in locked then Reclaimed(t, now) else t
    case MarkDispatched(_, _, _) => t
    case RecordDispatchFailure(_, _) => t
    case RetryAdmin(x, now) => if x == id && AdminRetryable(t) then Retried(t, now) else t
  }

  /** The outbox row of task `id` after e, when the task row was t. */
  function DispatchAfter(t: Task, d: Option<Dispatch>, e: Event, id: nat): Option<Dispatch> {
    match e
    case Fail(x, worker, now, retryable, backoffMs) =>
      if x == id && Owns(t, worker) && CanRetry(t, retryable) then Rearmed(d, now + OrElse(backoffMs, 0)) else d
    case Reclaim(now, locked) =>
      if Expired(t, now) && id !in locked && !t.cancelRequested && t.attempts < t.maxAttempts then Rearmed(d, now) else d
    case MarkDispatched(x, generation, now) =>
      if x == id && d.Some? && d.value.generation == generation && d.value.delivered.None?
      then Some(d.value.(delivered := Some(now))) else d
    case RecordDispatchFailure(x, generation) =>
      if x == id && d.Some? && d.value.generation == generation && d.value.delivered.None?
      then Some(d.value.(attempts := d.value.attempts + 1)) else d
    case RetryAdmin(x, now) => if x == id && AdminRetryable(t) then Armed(d, now) else d
    case _ => d
  }

  // ---------------------------------------------------------------- what a call does to the queue

  /** The oldest eligible task among the first n, skipping rows that others hold. */
  function Oldest(tasks: seq<Task>, n: nat, now: int, kinds: seq<Kind>, locked: set<nat>): (r: Option<nat>)
    requires n <= |tasks|
    ensures r.Some? ==> r.value < n && r.value !in locked && Eligible(tasks[r.value], now, kinds)
    ensures forall i: nat :: i < n && i !in locked && Eligible(tasks[i], now, kinds) ==>
                               r.Some? && tasks[r.value].createdAt <= tasks[i].createdAt
  {
    if n == 0 then None
    else
      var r := Oldest(tasks, n - 1, now, kinds, locked);
      if n - 1 in locked || !Eligible(tasks[n - 1], now, kinds) then r
      else if r.Some? && tasks[r.value].createdAt <= tasks[n - 1].createdAt then r
      else Some(n - 1)
  }

  function Picked(tasks: seq<Task>, e: Event): (r: Option<nat>)
    ensures r.Some? ==> e.ClaimNext? && r.value < |tasks| && Eligible(tasks[r.value], e.now, e.kinds)
  {
    if e.ClaimNext? then Oldest(tasks, |tasks|, e.now, e.kinds, e.locked) else None
  }

  /** The task a keyed enqueue call collides with. */
  function FindKey(tasks: seq<Task>, ws: string, kind: Kind, key: string): (r: Option<nat>)
    ensures r.Some? ==> r.value < |tasks| && tasks[r.value].ws == ws && tasks[r.value].kind == kind && tasks[r.value].key == Some(key)
    ensures r.None? ==> forall i :: 0 <= i < |tasks| && tasks[i].ws == ws && tasks[i].kind == kind ==> tasks[i].key != Some(key)
  {
    if tasks == [] then None
    else
      var i := |tasks| - 1;
      if tasks[i].ws == ws && tasks[i].kind == kind && tasks[i].key == Some(key) then Some(i)
      else FindKey(tasks[..i], ws, kind, key)
  }

  predicate Collides(tasks: seq<Task>, ws: string, kind: Kind, key: Option<string>) {
    key.Some? && FindKey(tasks, ws, kind, key.value).Some?
  }

  function Inserted(q: Queue, e: Event): (r: Queue) {
    if e.Enqueue? && !Collides(q.tasks, e.ws, e.kind, e.key) then
      var runAfter := OrElse(e.runAfter, e.now);
      Queue([NewTask(e.ws, e.kind, e.key, e.maxAttempts, runAfter, e.now)], [Some(Dispatch(runAfter, 0, None, 0))])
    else Queue([], [])
  }

  ghost predicate WellFormed(q: Queue) {
    |q.outbox| == |q.tasks|
  }

  function Step(q: Queue, e: Event): (r: Queue)
    requires WellFormed(q)
    ensures WellFormed(r) && |q.tasks| <= |r.tasks| <= |q.tasks| + 1
  {
    Queue(TasksAfter(q, e, Picked(q.tasks, e)) + Inserted(q, e).tasks, OutboxAfter(q, e) + Inserted(q, e).outbox)
  }

  function TasksAfter(q: Queue, e: Event, picked: Option<nat>): (r: seq<Task>)
    ensures |r| == |q.tasks|
  {
    seq(|q.tasks|, i requires 0 <= i < |q.tasks| => TaskAfter(q.tasks[i], e, i, picked == Some(i)))
  }

  function OutboxAfter(q: Queue, e: Event): (r: seq<Option<Dispatch>>)
    requires WellFormed(q)
    ensures |r| == |q.tasks|
  {
    seq(|q.tasks|, i requires 0 <= i < |q.tasks| => DispatchAfter(q.tasks[i], q.outbox[i], e, i))
  }

  /** The row of a task after a call depends only on the row before it, and on whether the call picked it. */
  lemma StepRow(q: Queue, e: Event, i: nat)
    requires WellFormed(q) && i < |q.tasks|
    ensures Step(q, e).tasks[i] == TaskAfter(q.tasks[i], e, i, Picked(q.tasks, e) == Some(i))
    ensures Step(q, e).outbox[i] == DispatchAfter(q.tasks[i], q.outbox[i], e, i)
  {
  }

  lemma StepNewRow(q: Queue, e: Event)
    requires WellFormed(q)
    ensures |Step(q, e).tasks| > |q.tasks| ==>
              && |Step(q, e).tasks| == |q.tasks| + 1 && |Inserted(q, e).tasks| == 1
              && Step(q, e).tasks[|q.tasks|] == Inserted(q, e).tasks[0]
              && Step(q, e).outbox[|q.tasks|] == Inserted(q, e).outbox[0]
  {
  }

  /** Enqueueing leaves the other rows alone. */
  lemma EnqueueStep(q: Queue, e: Event)
    requires WellFormed(q) && e.Enqueue?
    ensures Step(q, e) == Queue(q.tasks + Inserted(q, e).tasks, q.outbox + Inserted(q, e).outbox)
  {
    assert TasksAfter(q, e, Picked(q.tasks, e)) == q.tasks;
    assert OutboxAfter(q, e) == q.outbox;
  }

  function Run(q: Queue, events: seq<Event>): (r: Queue)
    requires WellFormed(q)
    ensures WellFormed(r) && |q.tasks| <= |r.tasks|
  {
    if events == [] then q else Step(Run(q, events[..|events| - 1]), events[|events| - 1])
  }
}
