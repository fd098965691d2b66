/** The task methods of the store, each one transaction of guarded updates (packages/storage/src/postgres-store.ts). */
module TaskStore {
  import opened Common
  import opened Tasks

  /** A call aimed at one task leaves every other row alone. */
  lemma TargetedStep(q: Queue, e: Event, id: nat)
    requires WellFormed(q) && !e.Enqueue? && (e.ClaimNext? || e.Reclaim? || e.id == id)
    requires e.ClaimNext? ==> Picked(q.tasks, e) == Some(id)
    requires e.Reclaim? ==> forall i: nat :: i < |q.tasks| && i != id && i !in e.locked ==> !Expired(q.tasks[i], e.now)
    ensures id >= |q.tasks| ==> Step(q, e) == q
    ensures id < |q.tasks| ==>
              Step(q, e) == Queue(q.tasks[id := TaskAfter(q.tasks[id], e, id, e.ClaimNext?)],
                                  q.outbox[id := DispatchAfter(q.tasks[id], q.outbox[id], e, id)])
  {
    var r := Step(q, e);
    forall i: nat | i < |q.tasks|
      ensures i != id ==> r.tasks[i] == q.tasks[i] && r.outbox[i] == q.outbox[i]
    {
      StepRow(q, e, i);
    }
    if id < |q.tasks| {
      StepRow(q, e, id);
      assert r.tasks == q.tasks[id := TaskAfter(q.tasks[id], e, id, e.ClaimNext?)];
      assert r.outbox == q.outbox[id := DispatchAfter(q.tasks[id], q.outbox[id], e, id)];
    } else {
      assert r.tasks == q.tasks && r.outbox == q.outbox;
    }
  }

  lemma NothingPicked(q: Queue, e: Event)
    requires WellFormed(q) && e.ClaimNext? && Picked(q.tasks, e).None?
    ensures Step(q, e) == q
  {
    forall i: nat | i < |q.tasks|
      ensures Step(q, e).tasks[i] == q.tasks[i] && Step(q, e).outbox[i] == q.outbox[i]
    {
      StepRow(q, e, i);
    }
    assert Step(q, e).tasks == q.tasks && Step(q, e).outbox == q.outbox;
  }

  datatype Error = INVALID_STATE

  datatype FailOutcome = REQUEUED | FAILED_FOR_GOOD | NOT_OWNED

  datatype CancelOutcome = CANCELLED_NOW | CANCEL_REQUESTED | NOT_CANCELLABLE | NOT_FOUND

  /** Rows of `tasks` in increasing order whose lease has run out, skipping those that others hold. */
  ghost predicate ExpiredRows(ids: seq<nat>, tasks: seq<Task>, now: int, locked: set<nat>, n: nat) {
    && (forall j, k :: 0 <= j < k < |ids| ==> ids[j] < ids[k])
    && (forall i: nat :: i in ids <==> i < n && i < |tasks| && i !in locked && Expired(tasks[i], now))
  }

  /** The tasks the reclaim puts into a status, in row order. */
  ghost predicate ReclaimedAs(ids: seq<nat>, status: Status, tasks: seq<Task>, now: int, locked: set<nat>) {
    forall i: nat :: i in ids <==>
      i < |tasks| && i !in locked && Expired(tasks[i], now) && Reclaimed(tasks[i], now).status == status
  }

  ghost predicate ListedAs(ids: seq<nat>, status: Status, tasks: seq<Task>, now: int, done: seq<nat>) {
    forall i: nat :: i in ids <==> i < |tasks| && i in done && Reclaimed(tasks[i], now).status == status
  }

  /** The rows in `done` are reclaimed, the others as they were. */
  ghost predicate PartlyReclaimed(q: Queue, q': Queue, now: int, locked: set<nat>, done: seq<nat>) {
    && WellFormed(q) && WellFormed(q') && |q'.tasks| == |q.tasks|
    && forall i: nat :: i < |q.tasks| ==>
                          && q'.tasks[i] == (if i in done then TaskAfter(q.tasks[i], Reclaim(now, locked), i, false) else q.tasks[i])
                          && q'.outbox[i] == (if i in done then DispatchAfter(q.tasks[i], q.outbox[i], Reclaim(now, locked), i) else q.outbox[i])
  }

  lemma NotYetReclaimed(q: Queue, q': Queue, now: int, locked: set<nat>, expired: seq<nat>, k: nat)
    requires k < |expired| && ExpiredRows(expired, q.tasks, now, locked, |q.tasks|)
    requires PartlyReclaimed(q, q', now, locked, expired[..k])
    ensures var id := expired[k];
            && id < |q.tasks| && id !in locked && Expired(q.tasks[id], now)
            && q'.tasks[id] == q.tasks[id] && q'.outbox[id] == q.outbox[id]
  {
    assert expired[k] in expired;
    assert expired[k] !in expired[..k];
  }

  lemma AllReclaimed(q: Queue, q': Queue, now: int, locked: set<nat>, expired: seq<nat>)
    requires ExpiredRows(expired, q.tasks, now, locked, |q.tasks|) && PartlyReclaimed(q, q', now, locked, expired)
    ensures q' == Step(q, Reclaim(now, locked))
  {
    var r := Step(q, Reclaim(now, locked));
    forall i: nat | i < |q.tasks|
      ensures q'.tasks[i] == r.tasks[i] && q'.outbox[i] == r.outbox[i]
    {
      StepRow(q, Reclaim(now, locked), i);
    }
    assert q'.tasks == r.tasks && q'.outbox == r.outbox;
  }

  class Store {
    var tasks: seq<Task>
    var outbox: seq<Option<Dispatch>>

    function State(): Queue
      reads this
    {
      Queue(tasks, outbox)
    }

    constructor ()
      ensures State() == EMPTY
    {
      tasks, outbox := [], [];
    }

    /** Undo everything since `before` was read. */
    method Rollback(before: Queue)
      modifies this
      ensures State() == before
    {
      tasks, outbox := before.tasks, before.outbox;
    }

    method EnqueueTask(ws: string, kind: Kind, key: Option<string>, maxAttempts: Option<int>, runAfter: Option<int>, now: int)
      returns (r: Result<nat, Error>)
      requires WellFormed(State())
      modifies this
      ensures State() == Step(old(State()), Enqueue(ws, kind, key, maxAttempts, runAfter, now))
      ensures if !Collides(old(tasks), ws, kind, key) then r == Ok(|old(tasks)|)
              else if key == Some("") then r == Err(INVALID_STATE)
              else r.Ok? && FindKey(old(tasks), ws, kind, key.value) == Some(r.value)
    {
      EnqueueStep(State(), Enqueue(ws, kind, key, maxAttempts, runAfter, now));
      var available := OrElse(runAfter, now);
      if Collides(tasks, ws, kind, key) {
        if key.value == "" {
          return Err(INVALID_STATE);
        }
        return Ok(FindKey(tasks, ws, kind, key.value).value);
      }
      tasks := tasks + [NewTask(ws, kind, key, maxAttempts, available, now)];
      outbox := outbox + [Some(Dispatch(available, 0, None, 0))];
      r := Ok(|tasks| - 1);
    }

    /** The oldest queued task that is due, if any; rows held by other transactions are passed over. */
    method ClaimNextTask(worker: string, now: int, leaseMs: int, kinds: seq<Kind>, locked: set<nat>) returns (r: Option<nat>)
      requires WellFormed(State())
      modifies this
      ensures State() == Step(old(State()), ClaimNext(worker, now, leaseMs, kinds, locked))
      ensures r.Some? <==> exists i: nat :: i < |old(tasks)| && i !in locked && Eligible(old(tasks)[i], now, kinds)
      ensures r.Some? ==>
                && r.value < |old(tasks)| == |tasks| && r.value !in locked && Eligible(old(tasks)[r.value], now, kinds)
                && (forall i: nat :: i < |old(tasks)| && i !in locked && Eligible(old(tasks)[i], now, kinds) ==>
                                       old(tasks)[r.value].createdAt <= old(tasks)[i].createdAt)
                && Owns(tasks[r.value], worker) && tasks[r.value].leaseExpiresAt == Some(now + leaseMs)
    {
      ghost var e := ClaimNext(worker, now, leaseMs, kinds, locked);
      r := None;
      for i := 0 to |tasks|
        invariant r == Oldest(tasks, i, now, kinds, locked)
      {
        if i !in locked && Eligible(tasks[i], now, kinds) && (r.None? || tasks[i].createdAt < tasks[r.value].createdAt) {
          r := Some(i);
        }
      }
      if r.None? {
        NothingPicked(State(), e);
        return;
      }
      TargetedStep(State(), e, r.value);
      tasks := tasks[r.value := Claimed(tasks[r.value], worker, now, leaseMs)];
    }

    method ClaimTaskById(id: nat, worker: string, now: int, leaseMs: int) returns (claimed: bool)
      requires WellFormed(State())
      modifies this
      ensures State() == Step(old(State()), ClaimById(id, worker, now, leaseMs))
      ensures claimed == (id < |old(tasks)| && Claimable(old(tasks)[id], now))
      ensures claimed ==> |tasks| == |old(tasks)| && Owns(tasks[id], worker)
    {
      TargetedStep(State(), ClaimById(id, worker, now, leaseMs), id);
      claimed := id < |tasks| && Claimable(tasks[id], now);
      if claimed {
        tasks := tasks[id := Claimed(tasks[id], worker, now, leaseMs)];
      }
    }

    method HeartbeatTask(id: nat, worker: string, now: int, leaseMs: int) returns (owned: bool, cancelRequested: bool)
      requires WellFormed(State())
      modifies this
      ensures State() == Step(old(State()), Heartbeat(id, worker, now, leaseMs))
      ensures owned == (id < |old(tasks)| && Owns(old(tasks)[id], worker))
      ensures cancelRequested == (id < |old(tasks)| && old(tasks)[id].cancelRequested)
      ensures owned ==> |tasks| == |old(tasks)| && Owns(tasks[id], worker) && tasks[id].leaseExpiresAt == Some(now + leaseMs)
    {
      TargetedStep(State(), Heartbeat(id, worker, now, leaseMs), id);
      if id < |tasks| && Owns(tasks[id], worker) {
        tasks := tasks[id := tasks[id].(leaseExpiresAt := Some(now + leaseMs))];
        return true, tasks[id].cancelRequested;
      }
      owned, cancelRequested := false, id < |tasks| && tasks[id].cancelRequested;
    }

    method CompleteTask(id: nat, worker: string, now: int) returns (done: bool)
      requires WellFormed(State())
      modifies this
      ensures State() == Step(old(State()), Complete(id, worker, now))
      ensures done == (id < |old(tasks)| && Owns(old(tasks)[id], worker))
    {
      TargetedStep(State(), Complete(id, worker, now), id);
      done := id < |tasks| && Owns(tasks[id], worker);
      if done {
        tasks := tasks[id := Ended(tasks[id], SUCCEEDED, now)];
      }
    }

    /** Count up the generation and clear the delivered mark, so that only an acknowledgement of the new delivery counts. */
    method RearmTaskDispatch(id: nat, availableAt: int)
      requires id < |outbox|
      modifies this`outbox
      ensures outbox == old(outbox)[id := Rearmed(old(outbox)[id], availableAt)]
    {
      if outbox[id].Some? {
        var d := outbox[id].value;
        outbox := outbox[id := Some(d.(generation := d.generation + 1, availableAt := availableAt, attempts := 0, delivered := None))];
      }
    }

    method FailTask(id: nat, worker: string, now: int, retryable: bool, backoffMs: Option<int>) returns (outcome: FailOutcome)
      requires WellFormed(State())
      modifies this
      ensures State() == Step(old(State()), Fail(id, worker, now, retryable, backoffMs))
      ensures outcome == if id >= |old(tasks)| || !Owns(old(tasks)[id], worker) then NOT_OWNED
                         else if CanRetry(old(tasks)[id], retryable) then REQUEUED
                         else FAILED_FOR_GOOD
    {
      TargetedStep(State(), Fail(id, worker, now, retryable, backoffMs), id);
      if id >= |tasks| || !Owns(tasks[id], worker) {
        return NOT_OWNED;
      }
      if CanRetry(tasks[id], retryable) {
        var runAfter := now + OrElse(backoffMs, 0);
        tasks := tasks[id := Requeued(tasks[id], runAfter)];
        RearmTaskDispatch(id, runAfter);
        return REQUEUED;
      }
      tasks := tasks[id := Ended(tasks[id], FAILED, now)];
      outcome := FAILED_FOR_GOOD;
    }

    method RequestTaskCancel(ws: string, id: nat, now: int) returns (outcome: CancelOutcome)
      requires WellFormed(State())
      modifies this
      ensures State() == Step(old(State()), RequestCancel(id, ws, now))
      ensures outcome == if id >= |old(tasks)| || old(tasks)[id].ws != ws then NOT_FOUND
                         else if old(tasks)[id].status.QUEUED? then CANCELLED_NOW
                         else if old(tasks)[id].status.RUNNING? then CANCEL_REQUESTED
                         else NOT_CANCELLABLE
    {
      TargetedStep(State(), RequestCancel(id, ws, now), id);
      if id >= |tasks| || tasks[id].ws != ws {
        return NOT_FOUND;
      }
      if tasks[id].status.QUEUED? {
        tasks := tasks[id := tasks[id].(status := CANCELLED, cancelRequested := true, finishedAt := Some(now))];
        return CANCELLED_NOW;
      }
      if tasks[id].status.RUNNING? {
        tasks := tasks[id := tasks[id].(cancelRequested := true)];
        return CANCEL_REQUESTED;
      }
      outcome := NOT_CANCELLABLE;
    }

    method MarkTaskCancelled(id: nat, worker: string, now: int) returns (done: bool)
      requires WellFormed(State())
      modifies this
      ensures State() == Step(old(State()), MarkCancelled(id, worker, now))
      ensures done == (id < |old(tasks)| && Owns(old(tasks)[id], worker))
    {
      TargetedStep(State(), MarkCancelled(id, worker, now), id);
      done := id < |tasks| && Owns(tasks[id], worker);
      if done {
        tasks := tasks[id := Ended(tasks[id], CANCELLED, now)];
      }
    }

    method SelectExpired(now: int, locked: set<nat>) returns (ids: seq<nat>)
      ensures ExpiredRows(ids, tasks, now, locked, |tasks|)
    {
      ids := [];
      for i := 0 to |tasks|
        invariant ExpiredRows(ids, tasks, now, locked, i)
      {
        if i !in locked && Expired(tasks[i], now) {
          assert forall j :: 0 <= j < |ids| ==> ids[j] in ids;
          ids := ids + [i];
        }
      }
    }

    /** End or requeue one task whose lease has run out. */
    method ReclaimTask(id: nat, now: int, ghost locked: set<nat>) returns (status: Status)
      requires WellFormed(State()) && id < |tasks| && Expired(tasks[id], now) && id !in locked
      modifies this
      ensures tasks == old(tasks)[id := TaskAfter(old(tasks)[id], Reclaim(now, locked), id, false)]
      ensures outbox == old(outbox)[id := DispatchAfter(old(tasks)[id], old(outbox)[id], Reclaim(now, locked), id)]
      ensures status == Reclaimed(old(tasks)[id], now).status
    {
      var t := tasks[id];
      if t.cancelRequested {
        tasks := tasks[id := Ended(t, CANCELLED, now)];
        return CANCELLED;
      }
      if t.attempts < t.maxAttempts {
        tasks := tasks[id := Requeued(t, now)];
        RearmTaskDispatch(id, now);
        return QUEUED;
      }
      tasks := tasks[id := Ended(t, FAILED, now)];
      status := FAILED;
    }

    method ReclaimExpiredLeases(now: int, locked: set<nat>) returns (requeued: seq<nat>, failed: seq<nat>, cancelled: seq<nat>)
      requires WellFormed(State())
      modifies this
      ensures State() == Step(old(State()), Reclaim(now, locked))
      ensures ReclaimedAs(requeued, QUEUED, old(tasks), now, locked)
      ensures ReclaimedAs(failed, FAILED, old(tasks), now, locked)
      ensures ReclaimedAs(cancelled, CANCELLED, old(tasks), now, locked)
    {
      ghost var q := State();
      var expired := SelectExpired(now, locked);
      requeued, failed, cancelled := [], [], [];
      var k := 0;
      while k < |expired|
        invariant k <= |expired| && ExpiredRows(expired, q.tasks, now, locked, |q.tasks|)
        invariant PartlyReclaimed(q, State(), now, locked, expired[..k])
        invariant ListedAs(requeued, QUEUED, q.tasks, now, expired[..k])
        invariant ListedAs(failed, FAILED, q.tasks, now, expired[..k])
        invariant ListedAs(cancelled, CANCELLED, q.tasks, now, expired[..k])
      {
        var id := expired[k];
        NotYetReclaimed(q, State(), now, locked, expired, k);
        var status := ReclaimTask(id, now, locked);
        match status {
          case CANCELLED => cancelled := cancelled + [id];
          case QUEUED => requeued := requeued + [id];
          case _ => failed := failed + [id];
        }
        assert expired[..k + 1] == expired[..k] + [id];
        k := k + 1;
      }
      assert expired[..k] == expired;
      AllReclaimed(q, State(), now, locked, expired);
    }

    method MarkTaskDispatched(id: nat, generation: int, now: int) returns (marked: bool)
      requires WellFormed(State())
      modifies this
      ensures State() == Step(old(State()), MarkDispatched(id, generation, now))
      ensures marked == (id < |old(outbox)| && old(outbox)[id].Some? && old(outbox)[id].value.generation == generation
                         && old(outbox)[id].value.delivered.None?)
    {
      TargetedStep(State(), MarkDispatched(id, generation, now), id);
      marked := id < |outbox| && outbox[id].Some? && outbox[id].value.generation == generation && outbox[id].value.delivered.None?;
      if marked {
        outbox := outbox[id := Some(outbox[id].value.(delivered := Some(now)))];
      }
    }

    method RecordTaskDispatchFailure(id: nat, generation: int)
      requires WellFormed(State())
      modifies this
      ensures State() == Step(old(State()), RecordDispatchFailure(id, generation))
    {
      TargetedStep(State(), RecordDispatchFailure(id, generation), id);
      if id < |outbox| && outbox[id].Some? && outbox[id].value.generation == generation && outbox[id].value.delivered.None? {
        outbox := outbox[id := Some(outbox[id].value.(attempts := outbox[id].value.attempts + 1))];
      }
    }

    method RetryAdminTask(id: nat, now: int) returns (retried: bool)
      requires WellFormed(State())
      modifies this
      ensures State() == Step(old(State()), RetryAdmin(id, now))
      ensures retried == (id < |old(tasks)| && AdminRetryable(old(tasks)[id]))
    {
      TargetedStep(State(), RetryAdmin(id, now), id);
      if id >= |tasks| || !AdminRetryable(tasks[id]) {
        return false;
      }
      tasks := tasks[id := Retried(tasks[id], now)];
      if outbox[id].None? {
        outbox := outbox[id := Some(Dispatch(now, 0, None, 1))];
      } else {
        RearmTaskDispatch(id, now);
      }
      retried := true;
    }
  }
}
