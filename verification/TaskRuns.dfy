/** What every run of the task queue keeps (packages/storage/src/postgres-store.ts). */
module TaskRuns {
  import opened Common
  import opened Tasks

  // ---------------------------------------------------------------- the invariant of a row and its dispatch

  ghost predicate RowOk(t: Task, d: Option<Dispatch>) {
    && (t.status.RUNNING? <==> t.leaseOwner.Some?) && (t.status.RUNNING? <==> t.leaseExpiresAt.Some?)
    && (Terminal(t) <==> t.finishedAt.Some?)
    && (t.status.RUNNING? ==> t.attempts >= 1 && t.startedAt.Some?)
    && 0 <= t.attempts <= t.maxAttempts && t.maxAttempts >= 1
    && (t.status.QUEUED? ==> t.attempts < t.maxAttempts && !t.cancelRequested)
    && d.Some? && d.value.generation >= 0
    && (t.status.QUEUED? ==> d.value.availableAt == t.runAfter)
  }

  /** While no admin has put the task back, its generation counts the attempts that were given up. */
  ghost predicate CountsAttempts(t: Task, d: Option<Dispatch>) {
    && d.Some? && d.value.generation <= t.attempts <= d.value.generation + 1
    && (t.status.QUEUED? ==> t.attempts == d.value.generation)
    && (t.status.RUNNING? ==> t.attempts == d.value.generation + 1)
  }

  ghost predicate UniqueKeys(tasks: seq<Task>) {
    forall i, j :: 0 <= i < j < |tasks| && tasks[i].ws == tasks[j].ws && tasks[i].kind == tasks[j].kind && tasks[i].key.Some? ==>
                     tasks[i].key != tasks[j].key
  }

  ghost predicate Inv(q: Queue) {
    && WellFormed(q) && UniqueKeys(q.tasks)
    && forall i: nat :: i < |q.tasks| ==> RowOk(q.tasks[i], q.outbox[i])
  }

  lemma RowStaysOk(t: Task, d: Option<Dispatch>, e: Event, id: nat, picked: bool)
    requires RowOk(t, d) && (picked ==> e.ClaimNext? && Claimable(t, e.now))
    ensures RowOk(TaskAfter(t, e, id, picked), DispatchAfter(t, d, e, id))
  {
  }

  lemma RowStaysCounted(t: Task, d: Option<Dispatch>, e: Event, id: nat, picked: bool)
    requires RowOk(t, d) && (picked ==> e.ClaimNext? && Claimable(t, e.now)) && !(e.RetryAdmin? && e.id == id)
    requires CountsAttempts(t, d)
    ensures CountsAttempts(TaskAfter(t, e, id, picked), DispatchAfter(t, d, e, id))
  {
  }

  lemma KeysStay(q: Queue, e: Event, i: nat)
    requires WellFormed(q) && i < |q.tasks|
    ensures var (t, t') := (q.tasks[i], Step(q, e).tasks[i]); t'.ws == t.ws && t'.kind == t.kind && t'.key == t.key
  {
    StepRow(q, e, i);
  }

  lemma StepKeepsKeys(q: Queue, e: Event)
    requires WellFormed(q) && UniqueKeys(q.tasks)
    ensures UniqueKeys(Step(q, e).tasks)
  {
    var r := Step(q, e);
    StepNewRow(q, e);
    forall i, j | 0 <= i < j < |r.tasks| && r.tasks[i].ws == r.tasks[j].ws && r.tasks[i].kind == r.tasks[j].kind && r.tasks[i].key.Some?
      ensures r.tasks[i].key != r.tasks[j].key
    {
      KeysStay(q, e, i);
      if j < |q.tasks| {
        KeysStay(q, e, j);
      }
    }
  }

  /** Enqueueing a task that may be attempted at least once keeps the invariant; so does everything else. */
  lemma StepKeepsInv(q: Queue, e: Event)
    requires Inv(q)
    ensures Inv(Step(q, e)) <==> (e.Enqueue? && !Collides(q.tasks, e.ws, e.kind, e.key) ==> OrElse(e.maxAttempts, 3) >= 1)
  {
    var r := Step(q, e);
    forall i: nat | i < |q.tasks|
      ensures RowOk(r.tasks[i], r.outbox[i])
    {
      StepRow(q, e, i);
      RowStaysOk(q.tasks[i], q.outbox[i], e, i, Picked(q.tasks, e) == Some(i));
    }
    StepNewRow(q, e);
    StepKeepsKeys(q, e);
  }

  ghost predicate AllowsAttempts(events: seq<Event>) {
    forall k :: 0 <= k < |events| && events[k].Enqueue? ==> OrElse(events[k].maxAttempts, 3) >= 1
  }

  /** In every reachable queue each row is well formed, whatever calls were rejected, repeated or late. */
  lemma {:induction false} EveryRunKeepsInv(q: Queue, events: seq<Event>)
    requires Inv(q) && AllowsAttempts(events)
    ensures Inv(Run(q, events))
  {
    if events != [] {
      EveryRunKeepsInv(q, events[..|events| - 1]);
      StepKeepsInv(Run(q, events[..|events| - 1]), events[|events| - 1]);
    }
  }

  ghost predicate NoAdminRetry(events: seq<Event>, i: nat) {
    forall k :: 0 <= k < |events| && events[k].RetryAdmin? ==> events[k].id != i
  }

  lemma StepCountsAttempts(q: Queue, e: Event, i: nat)
    requires Inv(q) && !(e.RetryAdmin? && e.id == i) && i < |Step(q, e).tasks|
    requires i < |q.tasks| ==> CountsAttempts(q.tasks[i], q.outbox[i])
    ensures CountsAttempts(Step(q, e).tasks[i], Step(q, e).outbox[i])
  {
    if i < |q.tasks| {
      StepRow(q, e, i);
      RowStaysCounted(q.tasks[i], q.outbox[i], e, i, Picked(q.tasks, e) == Some(i));
    } else {
      StepNewRow(q, e);
    }
  }

  /** Without an admin retry of task i, its dispatch generation counts its requeues: the attempts already given up. */
  lemma {:induction false} GenerationCountsAttempts(q: Queue, events: seq<Event>, i: nat)
    requires Inv(q) && AllowsAttempts(events) && NoAdminRetry(events, i) && i < |Run(q, events).tasks|
    requires i < |q.tasks| ==> CountsAttempts(q.tasks[i], q.outbox[i])
    ensures CountsAttempts(Run(q, events).tasks[i], Run(q, events).outbox[i])
  {
    if events != [] {
      var before := events[..|events| - 1];
      EveryRunKeepsInv(q, before);
      if i < |Run(q, before).tasks| {
        GenerationCountsAttempts(q, before, i);
      }
      StepCountsAttempts(Run(q, before), events[|events| - 1], i);
    }
  }

  // ---------------------------------------------------------------- progress

  /** What is left of the life of a task: attempts first, then running, queued and ended, then whether cancel was asked. */
  function Remaining(t: Task): (int, int, int) {
    (t.maxAttempts - t.attempts,
     if t.status.RUNNING? then 2 else if t.status.QUEUED? then 1 else 0,
     if t.cancelRequested then 0 else 1)
  }

  ghost predicate Below(a: (int, int, int), b: (int, int, int)) {
    a.0 < b.0 || (a.0 == b.0 && (a.1 < b.1 || (a.1 == b.1 && a.2 < b.2)))
  }

  /** The same measure as one number. */
  function Potential(t: Task): int {
    2 * (t.maxAttempts - t.attempts) +
    (if Terminal(t) then 0 else if t.status.QUEUED? then 1 else if t.cancelRequested then 1 else 2)
  }

  /** Every call either leaves a task as it is, extends its lease, or brings its end nearer. */
  lemma StepsDescend(t: Task, d: Option<Dispatch>, e: Event, id: nat, picked: bool)
    requires RowOk(t, d) && !(e.RetryAdmin? && e.id == id) && (picked ==> e.ClaimNext? && Claimable(t, e.now))
    ensures var t' := TaskAfter(t, e, id, picked);
            && (t' == t || e.Heartbeat? || (Below(Remaining(t'), Remaining(t)) && Potential(t') < Potential(t)))
            && (e.Heartbeat? ==> Remaining(t') == Remaining(t) && Potential(t') == Potential(t))
            && 0 <= Potential(t')
  {
  }

  /** How many of the calls change task i, heartbeats aside. */
  function Changes(q: Queue, events: seq<Event>, i: nat): nat
    requires WellFormed(q) && i < |q.tasks|
  {
    if events == [] then 0
    else
      var before, e := events[..|events| - 1], events[|events| - 1];
      var q' := Run(q, before);
      Changes(q, before, i) + (if Changed(q', e, i) then 1 else 0)
  }

  /** How many of the calls hand task i to a worker. */
  function Claims(q: Queue, events: seq<Event>, i: nat): nat
    requires WellFormed(q) && i < |q.tasks|
  {
    if events == [] then 0
    else
      var before, e := events[..|events| - 1], events[|events| - 1];
      var q' := Run(q, before);
      Claims(q, before, i) + (if Handed(q', e, i) then 1 else 0)
  }

  predicate Changed(q: Queue, e: Event, i: nat)
    requires WellFormed(q) && i < |q.tasks|
  {
    !e.Heartbeat? && Step(q, e).tasks[i] != q.tasks[i]
  }

  predicate Handed(q: Queue, e: Event, i: nat)
    requires WellFormed(q) && i < |q.tasks|
  {
    q.tasks[i].status.QUEUED? && Step(q, e).tasks[i].status.RUNNING?
  }

  lemma StepSettles(q: Queue, e: Event, i: nat)
    requires Inv(q) && i < |q.tasks| && !(e.RetryAdmin? && e.id == i)
    ensures var (t, t') := (q.tasks[i], Step(q, e).tasks[i]);
            && Potential(t') + (if Changed(q, e, i) then 1 else 0) <= Potential(t)
            && t'.attempts == t.attempts + (if Handed(q, e, i) then 1 else 0)
            && t'.maxAttempts == t.maxAttempts
  {
    assert RowOk(q.tasks[i], q.outbox[i]);
    StepRow(q, e, i);
    StepsDescend(q.tasks[i], q.outbox[i], e, i, Picked(q.tasks, e) == Some(i));
  }

  /**
   * Task i changes at most 2 * maxAttempts + 1 times in its life, heartbeats aside, and every claim is one of its attempts;
   * so it is handed out at most maxAttempts times.
   */
  lemma {:induction false} EveryTaskSettles(q: Queue, events: seq<Event>, i: nat)
    requires Inv(q) && AllowsAttempts(events) && NoAdminRetry(events, i) && i < |q.tasks|
    ensures var (t, t') := (q.tasks[i], Run(q, events).tasks[i]);
            && Changes(q, events, i) + Potential(t') <= Potential(t)
            && t'.attempts == t.attempts + Claims(q, events, i)
            && t'.maxAttempts == t.maxAttempts
  {
    if events != [] {
      var before := events[..|events| - 1];
      EveryRunKeepsInv(q, before);
      EveryTaskSettles(q, before, i);
      StepSettles(Run(q, before), events[|events| - 1], i);
    }
  }

  /** The same as bounds: at most 2 * maxAttempts + 1 changes, at most maxAttempts claims. */
  lemma ChangesAndClaimsAreBounded(q: Queue, events: seq<Event>, i: nat)
    requires Inv(q) && AllowsAttempts(events) && NoAdminRetry(events, i) && i < |q.tasks|
    ensures Changes(q, events, i) <= 2 * q.tasks[i].maxAttempts + 1 && Claims(q, events, i) <= q.tasks[i].maxAttempts
  {
    EveryTaskSettles(q, events, i);
    EveryRunKeepsInv(q, events);
    var r := Run(q, events);
    assert RowOk(q.tasks[i], q.outbox[i]) && RowOk(r.tasks[i], r.outbox[i]);
  }

  ghost predicate KeepsEnd(t: Task, t': Task) {
    && (Terminal(t) ==> t' == t)
    && (t.cancelRequested ==> t'.cancelRequested && !t'.status.QUEUED? && t'.attempts == t.attempts)
  }

  lemma StepKeepsEnd(q: Queue, e: Event, i: nat)
    requires Inv(q) && i < |q.tasks| && !(e.RetryAdmin? && e.id == i)
    ensures KeepsEnd(q.tasks[i], Step(q, e).tasks[i])
  {
    assert RowOk(q.tasks[i], q.outbox[i]);
    StepRow(q, e, i);
  }

  /** A task that has ended stays as it is, and one whose cancellation was asked for is never queued or claimed again. */
  lemma {:induction false} EndsAndCancelsAreFinal(q: Queue, events: seq<Event>, i: nat)
    requires Inv(q) && AllowsAttempts(events) && NoAdminRetry(events, i) && i < |q.tasks|
    ensures KeepsEnd(q.tasks[i], Run(q, events).tasks[i])
  {
    if events == [] {
      assert RowOk(q.tasks[i], q.outbox[i]);
    } else {
      var before := events[..|events| - 1];
      EveryRunKeepsInv(q, before);
      EndsAndCancelsAreFinal(q, before, i);
      StepKeepsEnd(Run(q, before), events[|events| - 1], i);
    }
  }

  // ---------------------------------------------------------------- leases

  /**
   * A running task changes only by a call of its owner, by a cancel request (which sets the flag and nothing else), or when
   * its lease has run out.
   */
  lemma LeaseIsRespected(t: Task, d: Option<Dispatch>, e: Event, id: nat, picked: bool)
    requires RowOk(t, d) && t.status.RUNNING? && (picked ==> e.ClaimNext? && Claimable(t, e.now))
    ensures TaskAfter(t, e, id, picked) != t ==>
              || ((e.Heartbeat? || e.Complete? || e.Fail? || e.MarkCancelled?) && e.id == id && Some(e.worker) == t.leaseOwner)
              || (e.RequestCancel? && e.id == id && e.ws == t.ws && TaskAfter(t, e, id, picked) == t.(cancelRequested := true))
              || (e.Reclaim? && e.now > t.leaseExpiresAt.value && id !in e.locked)
  {
  }

  /** The call gives the worker task `id`, or prolongs its hold on it. */
  ghost predicate Leases(t: Task, e: Event, id: nat, picked: bool) {
    || (e.ClaimNext? && picked && Claimable(t, e.now))
    || (e.ClaimById? && e.id == id && Claimable(t, e.now))
    || (e.Heartbeat? && e.id == id && Owns(t, e.worker))
  }

  /** A lease taken or prolonged lasts its time: a reclaim that finds the row free takes the task away exactly after it. */
  lemma LeaseLasts(t: Task, e: Event, id: nat, picked: bool, later: int, locked: set<nat>)
    requires Leases(t, e, id, picked) && id !in locked
    ensures var t' := TaskAfter(t, e, id, picked);
            && Owns(t', e.worker)
            && (Owns(TaskAfter(t', Reclaim(later, locked), id, false), e.worker) <==> later <= e.now + e.leaseMs)
  {
  }

  /** A task put back after a failure can be claimed exactly once its backoff is over, and is due for dispatch from then on. */
  lemma RequeueWaits(t: Task, d: Option<Dispatch>, e: Event, id: nat, worker: string, later: int, leaseMs: int)
    requires RowOk(t, d) && e.Fail? && e.id == id && TaskAfter(t, e, id, false).status.QUEUED? && !t.status.QUEUED?
    ensures var (t', d') := (TaskAfter(t, e, id, false), DispatchAfter(t, d, e, id));
            var due := e.now + OrElse(e.backoffMs, 0);
            && (TaskAfter(t', ClaimById(id, worker, later, leaseMs), id, false).status.RUNNING? <==> later >= due)
            && d' == Some(Dispatch(due, 0, None, d.value.generation + 1)) && t'.attempts == t.attempts
  {
  }

  /** The worker owns task i, and its lease runs until `until` at least. */
  ghost predicate HoldsUntil(q: Queue, i: nat, worker: string, until: int) {
    i < |q.tasks| && Owns(q.tasks[i], worker) && q.tasks[i].leaseExpiresAt.Some? && q.tasks[i].leaseExpiresAt.value >= until
  }

  /** The call comes before that time if it reclaims, does not end the task for the worker, and does not shorten its lease. */
  predicate Spares(e: Event, i: nat, worker: string, until: int) {
    && (e.Reclaim? ==> e.now <= until)
    && ((e.Complete? || e.Fail? || e.MarkCancelled?) && e.id == i ==> e.worker != worker)
    && (e.Heartbeat? && e.id == i && e.worker == worker ==> e.now + e.leaseMs >= until)
  }

  lemma StepSpares(q: Queue, e: Event, i: nat, worker: string, until: int)
    requires WellFormed(q) && HoldsUntil(q, i, worker, until) && Spares(e, i, worker, until)
    ensures HoldsUntil(Step(q, e), i, worker, until)
  {
    StepRow(q, e, i);
  }

  lemma {:induction false} RunSpares(q: Queue, events: seq<Event>, i: nat, worker: string, until: int)
    requires WellFormed(q) && HoldsUntil(q, i, worker, until) && forall e :: e in events ==> Spares(e, i, worker, until)
    ensures HoldsUntil(Run(q, events), i, worker, until)
  {
    if events != [] {
      var before := events[..|events| - 1];
      RunSpares(q, before, i, worker, until);
      assert events[|events| - 1] in events;
      StepSpares(Run(q, before), events[|events| - 1], i, worker, until);
    }
  }

  /**
   * Mutual exclusion: from a claim or heartbeat on, whatever other workers, clients and reclaims do until the lease is over,
   * the task stays with its worker until the worker itself ends it; and a reclaim takes it exactly after that.
   */
  lemma LeaseLastsThroughRuns(q: Queue, e: Event, events: seq<Event>, i: nat)
    requires WellFormed(q) && i < |q.tasks| && Leases(q.tasks[i], e, i, Picked(q.tasks, e) == Some(i))
    requires forall x :: x in events ==> Spares(x, i, e.worker, e.now + e.leaseMs)
    ensures HoldsUntil(Run(Step(q, e), events), i, e.worker, e.now + e.leaseMs)
    ensures forall later, locked :: i !in locked ==>
              (Owns(Step(Step(q, e), Reclaim(later, locked)).tasks[i], e.worker) <==> later <= e.now + e.leaseMs)
  {
    StepRow(q, e, i);
    forall later, locked | i !in locked
      ensures Owns(Step(Step(q, e), Reclaim(later, locked)).tasks[i], e.worker) <==> later <= e.now + e.leaseMs
    {
      StepRow(Step(q, e), Reclaim(later, locked), i);
      LeaseLasts(q.tasks[i], e, i, Picked(q.tasks, e) == Some(i), later, locked);
    }
    RunSpares(Step(q, e), events, i, e.worker, e.now + e.leaseMs);
  }

  /** The task waits for its time, or has been cancelled meanwhile. */
  ghost predicate WaitsUntil(q: Queue, i: nat, due: int) {
    i < |q.tasks| && ((q.tasks[i].status.QUEUED? && q.tasks[i].runAfter == due) || q.tasks[i].status.CANCELLED?)
  }

  lemma StepWaits(q: Queue, e: Event, i: nat, due: int)
    requires WellFormed(q) && WaitsUntil(q, i, due) && (e.ClaimNext? || e.ClaimById? ==> e.now < due)
    ensures WaitsUntil(Step(q, e), i, due)
  {
    StepRow(q, e, i);
  }

  lemma {:induction false} RunWaits(q: Queue, events: seq<Event>, i: nat, due: int)
    requires WellFormed(q) && WaitsUntil(q, i, due)
    requires forall e :: e in events && (e.ClaimNext? || e.ClaimById?) ==> e.now < due
    ensures WaitsUntil(Run(q, events), i, due)
  {
    if events != [] {
      var before, e := events[..|events| - 1], events[|events| - 1];
      RunWaits(q, before, i, due);
      assert e in events;
      StepWaits(Run(q, before), e, i, due);
    }
  }

  /** A failed task put back is not run again before its backoff is over, whoever claims in the meantime. */
  lemma BackoffIsWaitedOut(q: Queue, e: Event, events: seq<Event>, i: nat)
    requires Inv(q) && i < |q.tasks| && e.Fail? && e.id == i && !q.tasks[i].status.QUEUED? && Step(q, e).tasks[i].status.QUEUED?
    requires forall x :: x in events && (x.ClaimNext? || x.ClaimById?) ==> x.now < e.now + OrElse(e.backoffMs, 0)
    ensures WaitsUntil(Run(Step(q, e), events), i, e.now + OrElse(e.backoffMs, 0))
    ensures q.outbox[i].Some? &&
            Step(q, e).outbox[i] == Some(Dispatch(e.now + OrElse(e.backoffMs, 0), 0, None, q.outbox[i].value.generation + 1))
  {
    StepRow(q, e, i);
    assert RowOk(q.tasks[i], q.outbox[i]);
    RequeueWaits(q.tasks[i], q.outbox[i], e, i, e.worker, e.now, 0);
    RunWaits(Step(q, e), events, i, e.now + OrElse(e.backoffMs, 0));
  }

  /** A claim call of the worker. */
  predicate ClaimsFor(e: Event, worker: string) {
    (e.ClaimNext? || e.ClaimById?) && e.worker == worker
  }

  /** A call by which a worker reports on a task it believes to be its own. */
  predicate ReportsFor(e: Event, worker: string) {
    (e.Heartbeat? || e.Complete? || e.Fail? || e.MarkCancelled?) && e.worker == worker
  }

  function WithoutReports(events: seq<Event>, worker: string): seq<Event> {
    if events == [] then []
    else
      var rest := WithoutReports(events[..|events| - 1], worker);
      if ReportsFor(events[|events| - 1], worker) then rest else rest + [events[|events| - 1]]
  }

  ghost predicate OwnsNothing(q: Queue, worker: string) {
    forall i :: 0 <= i < |q.tasks| ==> !Owns(q.tasks[i], worker)
  }

  lemma ReportsAreIgnored(q: Queue, e: Event, worker: string)
    requires WellFormed(q) && OwnsNothing(q, worker)
    ensures ReportsFor(e, worker) ==> Step(q, e) == q
    ensures !ClaimsFor(e, worker) ==> OwnsNothing(Step(q, e), worker)
  {
    var r := Step(q, e);
    StepNewRow(q, e);
    if ReportsFor(e, worker) {
      forall i | 0 <= i < |q.tasks|
        ensures r.tasks[i] == q.tasks[i] && r.outbox[i] == q.outbox[i]
      {
        StepRow(q, e, i);
      }
      assert r.tasks == q.tasks && r.outbox == q.outbox;
    }
    if !ClaimsFor(e, worker) {
      forall i | 0 <= i < |r.tasks|
        ensures !Owns(r.tasks[i], worker)
      {
        if i < |q.tasks| {
          StepRow(q, e, i);
          assert !Owns(q.tasks[i], worker);
        }
      }
    }
  }

  /**
   * A worker that owns no task and makes no further claim cannot influence the queue: whatever it still reports on tasks it
   * once had, the run ends as if it had kept silent.
   */
  lemma {:induction false} LostLeasesAreFenced(q: Queue, events: seq<Event>, worker: string)
    requires WellFormed(q) && OwnsNothing(q, worker) && forall e :: e in events ==> !ClaimsFor(e, worker)
    ensures OwnsNothing(Run(q, events), worker)
    ensures Run(q, events) == Run(q, WithoutReports(events, worker))
  {
    if events != [] {
      var before, e := events[..|events| - 1], events[|events| - 1];
      LostLeasesAreFenced(q, before, worker);
      ReportsAreIgnored(Run(q, before), e, worker);
      var rest := WithoutReports(before, worker);
      assert (rest + [e])[..|rest|] == rest;
    }
  }

  // ---------------------------------------------------------------- deliveries

  /** Call k of the run acknowledged generation g of task i, at `at`, when g was the current, undelivered generation. */
  ghost predicate Acknowledged(q: Queue, events: seq<Event>, k: nat, i: nat, g: int, at: int)
    requires WellFormed(q)
  {
    && k < |events| && events[k] == MarkDispatched(i, g, at)
    && var q' := Run(q, events[..k]);
       i < |q'.tasks| && q'.outbox[i].Some? && q'.outbox[i].value.generation == g && q'.outbox[i].value.delivered.None?
  }

  lemma AcknowledgedEarlier(q: Queue, events: seq<Event>, k: nat, i: nat, g: int, at: int)
    requires WellFormed(q) && events != [] && Acknowledged(q, events[..|events| - 1], k, i, g, at)
    ensures Acknowledged(q, events, k, i, g, at)
  {
    assert events[..|events| - 1][..k] == events[..k];
  }

  ghost predicate Delivered(q: Queue, i: nat, g: int, at: int)
    requires WellFormed(q)
  {
    && i < |q.tasks| && q.outbox[i].Some?
    && q.outbox[i].value.generation == g && q.outbox[i].value.delivered == Some(at)
  }

  lemma StepDelivers(q: Queue, e: Event, i: nat, g: int, at: int)
    requires WellFormed(q) && Delivered(Step(q, e), i, g, at)
    ensures || Delivered(q, i, g, at)
            || (&& e == MarkDispatched(i, g, at) && i < |q.tasks| && q.outbox[i].Some?
                && q.outbox[i].value.generation == g && q.outbox[i].value.delivered.None?)
  {
    if i < |q.tasks| {
      StepRow(q, e, i);
    } else {
      StepNewRow(q, e);
    }
  }

  /** In a run from the empty queue a delivered mark stems from an acknowledgement of that very generation. */
  lemma {:induction false} DeliveredByItsAck(events: seq<Event>, i: nat, g: int, at: int)
    requires Delivered(Run(EMPTY, events), i, g, at)
    ensures exists k: nat :: Acknowledged(EMPTY, events, k, i, g, at)
  {
    var before, e := events[..|events| - 1], events[|events| - 1];
    StepDelivers(Run(EMPTY, before), e, i, g, at);
    if Delivered(Run(EMPTY, before), i, g, at) {
      DeliveredByItsAck(before, i, g, at);
      var k: nat :| Acknowledged(EMPTY, before, k, i, g, at);
      AcknowledgedEarlier(EMPTY, events, k, i, g, at);
    } else {
      assert Acknowledged(EMPTY, events, |before|, i, g, at);
    }
  }

  ghost predicate GenerationAtLeast(q: Queue, i: nat, g: int)
    requires WellFormed(q)
  {
    i < |q.tasks| && q.outbox[i].Some? && q.outbox[i].value.generation >= g
  }

  lemma GenerationStep(q: Queue, e: Event, i: nat, g: int)
    requires WellFormed(q) && GenerationAtLeast(q, i, g)
    ensures GenerationAtLeast(Step(q, e), i, g)
    ensures !q.tasks[i].status.QUEUED? && Step(q, e).tasks[i].status.QUEUED? ==> GenerationAtLeast(Step(q, e), i, g + 1)
  {
    StepRow(q, e, i);
  }

  lemma {:induction false} GenerationsGrow(q: Queue, events: seq<Event>, i: nat, g: int)
    requires WellFormed(q) && GenerationAtLeast(q, i, g)
    ensures GenerationAtLeast(Run(q, events), i, g)
  {
    if events != [] {
      GenerationsGrow(q, events[..|events| - 1], i, g);
      GenerationStep(Run(q, events[..|events| - 1]), events[|events| - 1], i, g);
    }
  }

  lemma LowAckIsIgnored(q: Queue, i: nat, g: int, generation: int, now: int)
    requires WellFormed(q) && GenerationAtLeast(q, i, g) && generation < g
    ensures Step(q, MarkDispatched(i, generation, now)) == q
  {
    var e := MarkDispatched(i, generation, now);
    forall k | 0 <= k < |q.tasks|
      ensures Step(q, e).tasks[k] == q.tasks[k] && Step(q, e).outbox[k] == q.outbox[k]
    {
      StepRow(q, e, k);
    }
    assert Step(q, e).tasks == q.tasks && Step(q, e).outbox == q.outbox;
  }

  /** Once a task has been put back in the queue, acknowledgements of its earlier deliveries change nothing, however late. */
  lemma StaleAcksAreIgnored(q: Queue, e: Event, events: seq<Event>, i: nat, generation: int, now: int)
    requires Inv(q) && i < |q.tasks| && !q.tasks[i].status.QUEUED? && Step(q, e).tasks[i].status.QUEUED?
    requires generation <= q.outbox[i].value.generation
    ensures var r := Run(Step(q, e), events); Step(r, MarkDispatched(i, generation, now)) == r
  {
    assert RowOk(q.tasks[i], q.outbox[i]);
    var g := q.outbox[i].value.generation;
    GenerationStep(q, e, i, g);
    GenerationsGrow(Step(q, e), events, i, g + 1);
    LowAckIsIgnored(Run(Step(q, e), events), i, g + 1, generation, now);
  }

  // ---------------------------------------------------------------- idempotent enqueue

  /** Task i is the one enqueued under its key. */
  ghost predicate IsKeyed(tasks: seq<Task>, i: nat, ws: string, kind: Kind, key: string) {
    i < |tasks| && tasks[i].ws == ws && tasks[i].kind == kind && tasks[i].key == Some(key)
  }

  lemma KeyedIsFound(tasks: seq<Task>, i: nat, ws: string, kind: Kind, key: string)
    requires UniqueKeys(tasks) && IsKeyed(tasks, i, ws, kind, key)
    ensures FindKey(tasks, ws, kind, key) == Some(i)
  {
    var r := FindKey(tasks, ws, kind, key);
    assert r.Some?;
    assert IsKeyed(tasks, r.value, ws, kind, key);
  }

  lemma {:induction false} KeyedStays(q: Queue, events: seq<Event>, i: nat, ws: string, kind: Kind, key: string)
    requires WellFormed(q) && IsKeyed(q.tasks, i, ws, kind, key)
    ensures IsKeyed(Run(q, events).tasks, i, ws, kind, key)
  {
    if events != [] {
      KeyedStays(q, events[..|events| - 1], i, ws, kind, key);
      KeysStay(Run(q, events[..|events| - 1]), events[|events| - 1], i);
    }
  }

  lemma CollidingEnqueueAddsNothing(q: Queue, e: Event)
    requires WellFormed(q) && e.Enqueue? && Collides(q.tasks, e.ws, e.kind, e.key)
    ensures Step(q, e) == q
  {
    forall k | 0 <= k < |q.tasks|
      ensures Step(q, e).tasks[k] == q.tasks[k] && Step(q, e).outbox[k] == q.outbox[k]
    {
      StepRow(q, e, k);
    }
    assert Step(q, e).tasks == q.tasks && Step(q, e).outbox == q.outbox;
  }

  /** A task once enqueued under a key is found under it ever after, and enqueueing under that key again adds nothing. */
  lemma KeyedEnqueueIsIdempotent(q: Queue, events: seq<Event>, e: Event)
    requires Inv(q) && AllowsAttempts(events) && e.Enqueue? && Collides(q.tasks, e.ws, e.kind, e.key)
    ensures var r := Run(q, events);
            && FindKey(r.tasks, e.ws, e.kind, e.key.value) == FindKey(q.tasks, e.ws, e.kind, e.key.value)
            && Step(r, e) == r
  {
    var i := FindKey(q.tasks, e.ws, e.kind, e.key.value).value;
    KeyedStays(q, events, i, e.ws, e.kind, e.key.value);
    EveryRunKeepsInv(q, events);
    KeyedIsFound(Run(q, events).tasks, i, e.ws, e.kind, e.key.value);
    CollidingEnqueueAddsNothing(Run(q, events), e);
  }
}
