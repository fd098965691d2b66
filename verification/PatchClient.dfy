/** The client-side queue itself (apps/web/src/lib/patch-queue.ts). */
module PatchClient {
  import opened Common
  import opened Sums
  import opened StylePatch
  import opened PatchProtocol

  class PatchQueue {
    var version: int
    var chain: seq<Job>
    var pendingStyle: Option<Patch>
    var timer: bool
    var disposed: bool
    var inFlight: int

    function State(): Client
      reads this
    {
      Client(version, chain, pendingStyle, timer, disposed, inFlight)
    }

    ghost predicate Valid()
      reads this
    {
      ChainOk(State())
    }

    constructor (initialVersion: int)
      ensures Valid() && State() == NewClient(initialVersion)
    {
      version, chain, pendingStyle := initialVersion, [], None;
      timer, disposed, inFlight := false, false, 0;
    }

    /** Whether a request is queued or on the wire. */
    predicate Busy()
      reads this
      requires Valid()
      ensures Busy() <==> exists k :: 0 <= k < |chain| && !Settled(chain[k])
    {
      UnsettledIsPositive(chain);
      inFlight > 0
    }

    method ResetVersion(newVersion: int, dropPending: bool)
      requires Valid()
      modifies this
      ensures Valid() && State() == ClientAfter(old(State()), Event.ResetVersion(newVersion, dropPending))
    {
      version := newVersion;
      if dropPending {
        CancelPendingStyle();
      }
    }

    /** Take a style change into the pending patch and start the timer over. */
    method Style(patch: Patch)
      requires Valid()
      modifies this
      ensures Valid() && State() == ClientAfter(old(State()), EditStyle(patch))
    {
      if disposed {
        return;
      }
      pendingStyle := Some(MergeStylePatch(pendingStyle, patch));
      timer := true;
    }

    /** Push edits as one job, behind the pending style if there is one. */
    method Enqueue(ops: seq<Op>)
      requires Valid()
      modifies this
      ensures Valid() && State() == ClientAfter(old(State()), Event.Enqueue(ops))
    {
      EnqueueKeepsChain(State(), ops);
      if disposed {
        return;
      }
      var style := TakePendingStyle();
      var all := if style.Some? then [SetStyle(style.value)] + ops else ops;
      Push(all, false, false);
    }

    /** Push what is pending without waiting for the timer. */
    method FlushStyle(keepalive: bool)
      requires Valid()
      modifies this
      ensures Valid() && State() == ClientAfter(old(State()), Event.FlushStyle(keepalive))
    {
      FlushKeepsChain(State(), keepalive);
      var style := TakePendingStyle();
      if style.None? {
        return;
      }
      Push([SetStyle(style.value)], keepalive, false);
    }

    /** The debounce window of the last style patch is over. */
    method TimerElapsed()
      requires Valid()
      modifies this
      ensures Valid() && State() == ClientAfter(old(State()), TimerFires)
    {
      if !timer {
        return;
      }
      FlushStyle(false);
    }

    method CancelPendingStyle()
      modifies this`timer, this`pendingStyle
      ensures pendingStyle == None && !timer
    {
      timer, pendingStyle := false, None;
    }

    /** Close the queue; what is pending goes out once more, with keepalive. */
    method Dispose()
      requires Valid()
      modifies this
      ensures Valid() && State() == ClientAfter(old(State()), Event.Dispose)
    {
      ClientKeepsChain(State(), Event.Dispose);
      if disposed {
        return;
      }
      var style := TakePendingStyle();
      disposed := true;
      if style.Some? {
        Push([SetStyle(style.value)], true, true);
      }
    }

    method TakePendingStyle() returns (style: Option<Patch>)
      modifies this`timer, this`pendingStyle
      ensures style == old(pendingStyle) && pendingStyle == None && !timer
    {
      style := pendingStyle;
      timer, pendingStyle := false, None;
    }

    method Push(ops: seq<Op>, keepalive: bool, ignoreDisposed: bool)
      modifies this`inFlight, this`chain
      ensures State() == if disposed && !ignoreDisposed then old(State()) else Pushed(old(State()), ops, keepalive)
    {
      if disposed && !ignoreDisposed {
        return;
      }
      inFlight := inFlight + 1;
      chain := chain + [Job(ops, keepalive, WAITING)];
    }

    /** Link k of the chain runs: it asserts the version known at that moment, not the one known when it was pushed. */
    method StartJob(k: nat)
      requires Valid() && CanStart(State(), k)
      modifies this
      ensures Valid() && State() == ClientAfter(old(State()), Start(k))
    {
      ClientKeepsChain(State(), Start(k));
      chain := chain[k := chain[k].(status := SENT(version))];
    }

    /** The server took the request; `idle` tells whether the queue has drained. */
    method OnAccepted(k: nat, newVersion: int) returns (idle: bool)
      requires Valid() && OnTheWire(State(), k)
      modifies this
      ensures Valid() && State() == ClientAfter(old(State()), Accept(k, newVersion))
      ensures idle <==> pendingStyle.None? && forall j :: 0 <= j < |chain| ==> Settled(chain[j])
    {
      ClientKeepsChain(State(), Accept(k, newVersion));
      version := newVersion;
      chain := chain[k := chain[k].(status := ACCEPTED)];
      inFlight := inFlight - 1;
      UnsettledIsPositive(chain);
      idle := inFlight == 0 && pendingStyle.None?;
    }

    /** The request failed: the version stays and the next link of the chain runs. */
    method OnRejected(k: nat) returns (idle: bool)
      requires Valid() && OnTheWire(State(), k)
      modifies this
      ensures Valid() && State() == ClientAfter(old(State()), Reject(k))
      ensures idle <==> pendingStyle.None? && forall j :: 0 <= j < |chain| ==> Settled(chain[j])
    {
      ClientKeepsChain(State(), Reject(k));
      chain := chain[k := chain[k].(status := REJECTED)];
      inFlight := inFlight - 1;
      UnsettledIsPositive(chain);
      idle := inFlight == 0 && pendingStyle.None?;
    }
  }

  lemma UnsettledIsPositive(jobs: seq<Job>)
    ensures Unsettled(jobs) >= 0 && (Unsettled(jobs) > 0 <==> exists k :: 0 <= k < |jobs| && !Settled(jobs[k]))
  {
    if k :| 0 <= k < |jobs| && !Settled(jobs[k]) {
      ElementAtMostSum(Open(jobs), k);
    } else {
      SumZero(Open(jobs));
    }
  }
}
