/** The client's patch queue talking to the server (apps/web/src/lib/patch-queue.ts). */
module PatchProtocol {
  import opened Common
  import opened Sums
  import opened StylePatch

  /** An edit: a change of the style, or any other operation. */
  datatype Op = SetStyle(patch: Patch) | OtherOp(name: string)

  /** What the server does with an edit. */
  type Apply = (Style, Op) -> Style

  /** It merges style patches; what it does with other edits is left open. */
  ghost predicate Patches(apply: Apply) {
    forall s: Style, patch: Patch :: apply(s, SetStyle(patch)) == Merged(s, patch)
  }

  /** One pushed request: waiting for the previous one to settle, on the wire with the version it asserts, or settled. */
  datatype Status = WAITING | SENT(expected: int) | ACCEPTED | REJECTED

  datatype Job = Job(ops: seq<Op>, keepalive: bool, status: Status)

  /** jobs[k] is the k-th link of the promise chain. */
  datatype Client = Client(version: int, jobs: seq<Job>, pending: Option<Patch>, timer: bool, disposed: bool, inFlight: int)

  datatype Server = Server(version: int, style: Style)

  /** `calls` are the edits asked for before the queue was disposed, in call order. */
  datatype System = System(client: Client, server: Server, calls: seq<Op>)

  datatype Event =
    | EditStyle(patch: Patch)
    | Enqueue(ops: seq<Op>)
    | FlushStyle(keepalive: bool)
    | TimerFires
    | Dispose
    | CancelPending
    | ResetVersion(version: int, dropPending: bool)
    | Start(job: nat)
    | Accept(job: nat, newVersion: int)
    | Reject(job: nat)

  // ---------------------------------------------------------------- the client

  predicate Settled(j: Job) {
    j.status.ACCEPTED? || j.status.REJECTED?
  }

  function Pushed(c: Client, ops: seq<Op>, keepalive: bool): Client {
    c.(jobs := c.jobs + [Job(ops, keepalive, WAITING)], inFlight := c.inFlight + 1)
  }

  function WithoutPending(c: Client): Client {
    c.(pending := None, timer := false)
  }

  function Flushed(c: Client, keepalive: bool): Client {
    if c.pending.None? || c.disposed then WithoutPending(c)
    else Pushed(WithoutPending(c), [SetStyle(c.pending.value)], keepalive)
  }

  /** A link of the chain runs once the link before it has settled. */
  predicate CanStart(c: Client, k: nat) {
    k < |c.jobs| && c.jobs[k].status.WAITING? && (k == 0 || Settled(c.jobs[k - 1]))
  }

  predicate OnTheWire(c: Client, k: nat) {
    k < |c.jobs| && c.jobs[k].status.SENT?
  }

  function WithStatus(jobs: seq<Job>, k: nat, status: Status): seq<Job>
    requires k < |jobs|
  {
    jobs[k := jobs[k].(status := status)]
  }

  function ClientAfter(c: Client, e: Event): Client {
    match e
    case EditStyle(patch) =>
      if c.disposed then c else c.(pending := Some(MergeStylePatch(c.pending, patch)), timer := true)
    case Enqueue(ops) =>
      if c.disposed then c
      else if c.pending.None? then Pushed(WithoutPending(c), ops, false)
      else Pushed(WithoutPending(c), [SetStyle(c.pending.value)] + ops, false)
    case FlushStyle(keepalive) => Flushed(c, keepalive)
    case TimerFires => if c.timer then Flushed(c, false) else c
    case Dispose =>
      if c.disposed then c
      else if c.pending.None? then WithoutPending(c).(disposed := true)
      else Pushed(WithoutPending(c).(disposed := true), [SetStyle(c.pending.value)], true)
    case CancelPending => WithoutPending(c)
    case ResetVersion(version, dropPending) =>
      if dropPending then WithoutPending(c).(version := version) else c.(version := version)
    case Start(k) => if CanStart(c, k) then c.(jobs := WithStatus(c.jobs, k, SENT(c.version))) else c
    case Accept(k, newVersion) =>
      if OnTheWire(c, k)
      then c.(version := newVersion, jobs := WithStatus(c.jobs, k, ACCEPTED), inFlight := c.inFlight - 1) else c
    case Reject(k) =>
      if OnTheWire(c, k) then c.(jobs := WithStatus(c.jobs, k, REJECTED), inFlight := c.inFlight - 1) else c
  }

  // ---------------------------------------------------------------- client and server together

  /** The state after the first n elements, by any step function. */
  function FoldTo<S, T>(f: (S, T) -> S, s: S, xs: seq<T>, n: nat): S
    requires n <= |xs|
  {
    if n == 0 then s else f(FoldTo(f, s, xs, n - 1), xs[n - 1])
  }

  function ApplyOps(apply: Apply, s: Style, ops: seq<Op>): Style {
    FoldTo(apply, s, ops, |ops|)
  }

  /** The edits an event asks for; a disposed queue ignores them. */
  function Called(c: Client, e: Event): seq<Op> {
    if c.disposed then []
    else match e
      case EditStyle(patch) => [SetStyle(patch)]
      case Enqueue(ops) => ops
      case _ => []
  }

  /** The server takes a request only if the version it asserts is its own. */
  predicate Possible(s: System, e: Event) {
    e.Accept? ==> OnTheWire(s.client, e.job) && s.client.jobs[e.job].status.expected == s.server.version
  }

  /** An event that is not possible does not happen. */
  function Step(apply: Apply, s: System, e: Event): System {
    if !Possible(s, e) then s
    else System(ClientAfter(s.client, e),
                if e.Accept? then Server(e.newVersion, ApplyOps(apply, s.server.style, s.client.jobs[e.job].ops)) else s.server,
                s.calls + Called(s.client, e))
  }

  function NewClient(version: int): Client {
    Client(version, [], None, false, false, 0)
  }

  function Initial(version: int, style: Style): System {
    System(NewClient(version), Server(version, style), [])
  }

  function Run(apply: Apply, s: System, events: seq<Event>): System {
    if events == [] then s else Step(apply, Run(apply, s, events[..|events| - 1]), events[|events| - 1])
  }

  // ---------------------------------------------------------------- what the chain keeps

  /** One for each request that has not settled. */
  function Open(jobs: seq<Job>): (s: seq<int>)
    ensures |s| == |jobs| && forall k :: 0 <= k < |s| ==> s[k] == if Settled(jobs[k]) then 0 else 1
  {
    seq(|jobs|, k requires 0 <= k < |jobs| => if Settled(jobs[k]) then 0 else 1)
  }

  function Unsettled(jobs: seq<Job>): int {
    Sum(Open(jobs))
  }

  /** Nothing has been sent before everything pushed earlier had settled. */
  ghost predicate InOrder(jobs: seq<Job>) {
    forall j, k :: 0 <= j < k < |jobs| && !jobs[k].status.WAITING? ==> Settled(jobs[j])
  }

  ghost predicate JobsOk(jobs: seq<Job>, inFlight: int) {
    InOrder(jobs) && inFlight == Unsettled(jobs)
  }

  ghost predicate ChainOk(c: Client) {
    && JobsOk(c.jobs, c.inFlight)
    && (c.timer <==> c.pending.Some?) && (c.disposed ==> c.pending.None?)
  }

  lemma UnsettledChange(jobs: seq<Job>, k: nat, status: Status)
    requires k < |jobs|
    ensures var jobs' := WithStatus(jobs, k, status);
            Unsettled(jobs') == Unsettled(jobs) - (if Settled(jobs[k]) then 0 else 1) + (if Settled(jobs'[k]) then 0 else 1)
  {
    var jobs' := WithStatus(jobs, k, status);
    assert Open(jobs') == Open(jobs)[k := if Settled(jobs'[k]) then 0 else 1];
    SumUpdate(Open(jobs), k, if Settled(jobs'[k]) then 0 else 1);
  }

  lemma PushKeepsJobs(c: Client, ops: seq<Op>, keepalive: bool)
    requires JobsOk(c.jobs, c.inFlight)
    ensures JobsOk(Pushed(c, ops, keepalive).jobs, c.inFlight + 1)
  {
    assert Open(Pushed(c, ops, keepalive).jobs) == Open(c.jobs) + [1];
    SumAppend(Open(c.jobs), 1);
  }

  lemma StatusKeepsOrder(c: Client, k: nat, status: Status)
    requires InOrder(c.jobs) && k < |c.jobs|
    requires if status.SENT? then CanStart(c, k) else OnTheWire(c, k) && (status.ACCEPTED? || status.REJECTED?)
    ensures InOrder(WithStatus(c.jobs, k, status))
    ensures forall j :: 0 <= j < k ==> Settled(c.jobs[j])
    ensures forall j :: k < j < |c.jobs| ==> c.jobs[j].status.WAITING?
  {
    if status.SENT? && k > 0 {
      assert forall j :: 0 <= j < k - 1 ==> Settled(c.jobs[j]);
    }
  }

  lemma StatusKeepsJobs(c: Client, k: nat, status: Status)
    requires JobsOk(c.jobs, c.inFlight) && k < |c.jobs|
    requires if status.SENT? then CanStart(c, k) else OnTheWire(c, k) && (status.ACCEPTED? || status.REJECTED?)
    ensures JobsOk(WithStatus(c.jobs, k, status), c.inFlight - (if status.SENT? then 0 else 1))
  {
    StatusKeepsOrder(c, k, status);
    UnsettledChange(c.jobs, k, status);
  }

  lemma FlushKeepsChain(c: Client, keepalive: bool)
    requires ChainOk(c)
    ensures ChainOk(Flushed(c, keepalive))
  {
    if c.pending.Some? {
      PushKeepsJobs(WithoutPending(c), [SetStyle(c.pending.value)], keepalive);
    }
  }

  lemma EnqueueKeepsChain(c: Client, ops: seq<Op>)
    requires ChainOk(c)
    ensures ChainOk(ClientAfter(c, Enqueue(ops)))
  {
    PushKeepsJobs(WithoutPending(c), if c.pending.None? then ops else [SetStyle(c.pending.value)] + ops, false);
  }

  lemma ClientKeepsChain(c: Client, e: Event)
    requires ChainOk(c)
    ensures ChainOk(ClientAfter(c, e))
  {
    match e {
      case EditStyle(_) =>
      case Enqueue(ops) => EnqueueKeepsChain(c, ops);
      case FlushStyle(keepalive) => FlushKeepsChain(c, keepalive);
      case TimerFires => FlushKeepsChain(c, false);
      case Dispose =>
        if c.pending.Some? {
          PushKeepsJobs(WithoutPending(c).(disposed := true), [SetStyle(c.pending.value)], true);
        }
      case CancelPending =>
      case ResetVersion(_, _) =>
      case Start(k) =>
        if CanStart(c, k) {
          StatusKeepsJobs(c, k, SENT(c.version));
        }
      case Accept(k, _) =>
        if OnTheWire(c, k) {
          StatusKeepsJobs(c, k, ACCEPTED);
        }
      case Reject(k) =>
        if OnTheWire(c, k) {
          StatusKeepsJobs(c, k, REJECTED);
        }
    }
  }

  // ---------------------------------------------------------------- what server and client agree on

  /** The edits of each request, or only of the accepted ones. */
  function Parts(jobs: seq<Job>, acceptedOnly: bool): (parts: seq<seq<Op>>)
    ensures |parts| == |jobs|
    ensures forall k :: 0 <= k < |parts| ==> parts[k] == if acceptedOnly && !jobs[k].status.ACCEPTED? then [] else jobs[k].ops
  {
    seq(|jobs|, k requires 0 <= k < |jobs| => if acceptedOnly && !jobs[k].status.ACCEPTED? then [] else jobs[k].ops)
  }

  function FlatTo(parts: seq<seq<Op>>, n: nat): seq<Op>
    requires n <= |parts|
  {
    if n == 0 then [] else FlatTo(parts, n - 1) + parts[n - 1]
  }

  /** The edits of the accepted requests, in the order they were pushed. */
  function AcceptedOps(jobs: seq<Job>): seq<Op> {
    FlatTo(Parts(jobs, true), |jobs|)
  }

  function AllOps(jobs: seq<Job>): seq<Op> {
    FlatTo(Parts(jobs, false), |jobs|)
  }

  /** Every request on the wire asserts the server's version, and the server has applied exactly what it accepted. */
  ghost predicate Agreed(apply: Apply, s: System, style: Style) {
    && s.client.version == s.server.version
    && Asserting(s.client.jobs, s.server.version)
    && s.server.style == ApplyOps(apply, style, AcceptedOps(s.client.jobs))
  }

  lemma {:induction false} SameFold<S, T>(f: (S, T) -> S, s: S, a: seq<T>, b: seq<T>, n: nat)
    requires n <= |a| && n <= |b| && forall i :: 0 <= i < n ==> a[i] == b[i]
    ensures FoldTo(f, s, a, n) == FoldTo(f, s, b, n)
  {
    if n > 0 {
      SameFold(f, s, a, b, n - 1);
    }
  }

  lemma {:induction false} FoldConcat<S, T>(f: (S, T) -> S, s: S, a: seq<T>, b: seq<T>, n: nat)
    requires n <= |b|
    ensures FoldTo(f, s, a + b, |a| + n) == FoldTo(f, FoldTo(f, s, a, |a|), b, n)
  {
    if n == 0 {
      SameFold(f, s, a + b, a, |a|);
    } else {
      FoldConcat(f, s, a, b, n - 1);
    }
  }

  lemma ApplyConcat(apply: Apply, s: Style, a: seq<Op>, b: seq<Op>)
    ensures ApplyOps(apply, s, a + b) == ApplyOps(apply, ApplyOps(apply, s, a), b)
  {
    FoldConcat(apply, s, a, b, |b|);
  }

  lemma {:induction false} SameFlat(a: seq<seq<Op>>, b: seq<seq<Op>>, n: nat)
    requires n <= |a| && n <= |b| && forall i :: 0 <= i < n ==> a[i] == b[i]
    ensures FlatTo(a, n) == FlatTo(b, n)
  {
    if n > 0 {
      SameFlat(a, b, n - 1);
    }
  }

  lemma {:induction false} NothingLater(parts: seq<seq<Op>>, k: nat, n: nat)
    requires k <= n <= |parts| && forall j :: k <= j < n ==> parts[j] == []
    ensures FlatTo(parts, n) == FlatTo(parts, k)
    decreases n
  {
    if k < n {
      NothingLater(parts, k, n - 1);
    }
  }

  lemma AcceptedChange(jobs: seq<Job>, k: nat, status: Status)
    requires k < |jobs| && !jobs[k].status.ACCEPTED? && forall j :: k < j < |jobs| ==> jobs[j].status.WAITING?
    ensures AcceptedOps(WithStatus(jobs, k, status)) == AcceptedOps(jobs) + (if status.ACCEPTED? then jobs[k].ops else [])
  {
    var parts, parts' := Parts(jobs, true), Parts(WithStatus(jobs, k, status), true);
    SameFlat(parts, parts', k);
    NothingLater(parts, k, |jobs|);
    NothingLater(parts', k + 1, |jobs|);
  }

  lemma AllOpsChange(jobs: seq<Job>, k: nat, status: Status)
    requires k < |jobs|
    ensures AllOps(WithStatus(jobs, k, status)) == AllOps(jobs)
  {
    SameFlat(Parts(WithStatus(jobs, k, status), false), Parts(jobs, false), |jobs|);
  }

  lemma PushedOps(jobs: seq<Job>, job: Job)
    requires job.status.WAITING?
    ensures AcceptedOps(jobs + [job]) == AcceptedOps(jobs) && AllOps(jobs + [job]) == AllOps(jobs) + job.ops
  {
    SameFlat(Parts(jobs + [job], true), Parts(jobs, true), |jobs|);
    SameFlat(Parts(jobs + [job], false), Parts(jobs, false), |jobs|);
  }

  ghost predicate SoleWriter(e: Event) {
    !e.ResetVersion?
  }

  /** Every request on the wire asserts this version. */
  ghost predicate Asserting(jobs: seq<Job>, version: int) {
    forall k :: 0 <= k < |jobs| && jobs[k].status.SENT? ==> jobs[k].status.expected == version
  }

  /** Events that at most push one request. */
  lemma PushAgrees(apply: Apply, s: System, e: Event, style: Style)
    requires Agreed(apply, s, style) && !e.ResetVersion? && !e.Start? && !e.Accept? && !e.Reject?
    ensures Agreed(apply, Step(apply, s, e), style)
  {
    var jobs, jobs' := s.client.jobs, ClientAfter(s.client, e).jobs;
    if jobs' != jobs {
      assert jobs' == jobs + [jobs'[|jobs|]];
      PushedOps(jobs, jobs'[|jobs|]);
    }
  }

  lemma StatusAgrees(c: Client, k: nat, status: Status, version: int)
    requires InOrder(c.jobs) && Asserting(c.jobs, c.version) && k < |c.jobs|
    requires if status.SENT? then CanStart(c, k) && status.expected == c.version == version
             else OnTheWire(c, k) && (status.ACCEPTED? || (status.REJECTED? && version == c.version))
    ensures Asserting(WithStatus(c.jobs, k, status), version)
    ensures AcceptedOps(WithStatus(c.jobs, k, status)) == if status.ACCEPTED? then AcceptedOps(c.jobs) + c.jobs[k].ops else AcceptedOps(c.jobs)
  {
    StatusKeepsOrder(c, k, status);
    AcceptedChange(c.jobs, k, status);
  }

  lemma StepKeepsAgreement(apply: Apply, s: System, e: Event, style: Style)
    requires ChainOk(s.client) && Agreed(apply, s, style) && SoleWriter(e)
    ensures Agreed(apply, Step(apply, s, e), style)
  {
    var c := s.client;
    if Possible(s, e) {
      match e {
        case Start(k) =>
          if CanStart(c, k) {
            StatusAgrees(c, k, SENT(c.version), c.version);
          }
        case Accept(k, newVersion) =>
          StatusAgrees(c, k, ACCEPTED, newVersion);
          ApplyConcat(apply, style, AcceptedOps(c.jobs), c.jobs[k].ops);
        case Reject(k) =>
          if OnTheWire(c, k) {
            StatusAgrees(c, k, REJECTED, c.version);
          }
        case _ => PushAgrees(apply, s, e, style);
      }
    }
  }

  /**
   * Over every run of a sole writer, whatever is rejected on the way: at most one request is on the wire, it asserts the
   * server's current version (so none is refused as stale), and the server's style is that of the accepted requests in push order.
   */
  lemma {:induction false} SendsAreSerialised(apply: Apply, version: int, style: Style, events: seq<Event>)
    requires forall e :: e in events ==> SoleWriter(e)
    ensures var s := Run(apply, Initial(version, style), events);
            && ChainOk(s.client) && Agreed(apply, s, style)
            && (forall j: nat, k: nat :: OnTheWire(s.client, j) && OnTheWire(s.client, k) ==> j == k)
  {
    if events != [] {
      var before := events[..|events| - 1];
      SendsAreSerialised(apply, version, style, before);
      ClientKeepsChain(Run(apply, Initial(version, style), before).client, events[|events| - 1]);
      StepKeepsAgreement(apply, Run(apply, Initial(version, style), before), events[|events| - 1], style);
    }
  }

  // ---------------------------------------------------------------- nothing asked for is lost or reordered

  function WithPatch(s: Style, pending: Option<Patch>): Style {
    if pending.None? then s else Merged(s, pending.value)
  }

  /** What has been pushed, followed by the pending style, has the effect of everything asked for. */
  ghost predicate Owed(apply: Apply, s: System, style: Style) {
    WithPatch(ApplyOps(apply, style, AllOps(s.client.jobs)), s.client.pending) == ApplyOps(apply, style, s.calls)
  }

  /** The event drops no pending style, and a coalesced patch keeps the effect of both. */
  ghost predicate Gentle(s: System, e: Event) {
    && !e.ResetVersion? && !e.CancelPending?
    && (e.EditStyle? && !s.client.disposed && s.client.pending.Some? ==> Coalescable(s.client.pending.value, e.patch))
  }

  lemma FlushOwes(apply: Apply, style: Style, jobs: seq<Job>, patch: Patch, ops: seq<Op>, job: Job)
    requires Patches(apply) && job.ops == [SetStyle(patch)] + ops && job.status.WAITING?
    ensures ApplyOps(apply, style, AllOps(jobs + [job])) == ApplyOps(apply, Merged(ApplyOps(apply, style, AllOps(jobs)), patch), ops)
  {
    var s := ApplyOps(apply, style, AllOps(jobs));
    PushedOps(jobs, job);
    ApplyConcat(apply, style, AllOps(jobs), job.ops);
    ApplyConcat(apply, s, [SetStyle(patch)], ops);
    assert FoldTo(apply, s, [SetStyle(patch)], 0) == s;
    assert ApplyOps(apply, s, [SetStyle(patch)]) == Merged(s, patch);
  }

  lemma PushOwes(apply: Apply, style: Style, jobs: seq<Job>, ops: seq<Op>, job: Job)
    requires job.ops == ops && job.status.WAITING?
    ensures ApplyOps(apply, style, AllOps(jobs + [job])) == ApplyOps(apply, ApplyOps(apply, style, AllOps(jobs)), ops)
  {
    PushedOps(jobs, job);
    ApplyConcat(apply, style, AllOps(jobs), ops);
  }

  lemma AppliedLast(apply: Apply, style: Style, calls: seq<Op>, op: Op)
    ensures ApplyOps(apply, style, calls + [op]) == apply(ApplyOps(apply, style, calls), op)
  {
    SameFold(apply, style, calls + [op], calls, |calls|);
  }

  lemma MergeOwes(sofar: Style, pending: Option<Patch>, patch: Patch)
    requires pending.Some? ==> Coalescable(pending.value, patch)
    ensures WithPatch(sofar, Some(MergeStylePatch(pending, patch))) == Merged(WithPatch(sofar, pending), patch)
  {
    if pending.Some? {
      SameEffectExactly(sofar, pending.value, patch);
    }
  }

  lemma StyleOwes(apply: Apply, s: System, patch: Patch, style: Style)
    requires Patches(apply) && Owed(apply, s, style) && Gentle(s, EditStyle(patch)) && !s.client.disposed
    ensures Owed(apply, Step(apply, s, EditStyle(patch)), style)
  {
    AppliedLast(apply, style, s.calls, SetStyle(patch));
    MergeOwes(ApplyOps(apply, style, AllOps(s.client.jobs)), s.client.pending, patch);
  }

  lemma EnqueueOwes(apply: Apply, s: System, ops: seq<Op>, style: Style)
    requires Patches(apply) && Owed(apply, s, style) && !s.client.disposed
    ensures Owed(apply, Step(apply, s, Enqueue(ops)), style)
  {
    var c := s.client;
    ApplyConcat(apply, style, s.calls, ops);
    if c.pending.Some? {
      FlushOwes(apply, style, c.jobs, c.pending.value, ops, Job([SetStyle(c.pending.value)] + ops, false, WAITING));
    } else {
      PushOwes(apply, style, c.jobs, ops, Job(ops, false, WAITING));
    }
  }

  /** Pushing the pending style on its own, by a flush, the timer or disposal. */
  lemma FlushStepOwes(apply: Apply, s: System, e: Event, keepalive: bool, style: Style)
    requires Patches(apply) && Owed(apply, s, style) && s.client.pending.Some? && ClientAfter(s.client, e).pending.None? && (e.FlushStyle? || e.TimerFires? || e.Dispose?)
    requires var job := Job([SetStyle(s.client.pending.value)], keepalive, WAITING); ClientAfter(s.client, e).jobs == s.client.jobs + [job]
    ensures Owed(apply, Step(apply, s, e), style)
  {
    var patch := s.client.pending.value;
    FlushOwes(apply, style, s.client.jobs, patch, [], Job([SetStyle(patch)], keepalive, WAITING));
    assert s.calls + [] == s.calls;
  }

  /** Links of the chain change status only. */
  lemma StatusOwes(apply: Apply, s: System, e: Event, style: Style)
    requires Owed(apply, s, style) && (e.Start? || e.Accept? || e.Reject?)
    ensures Owed(apply, Step(apply, s, e), style)
  {
    var c := s.client;
    assert s.calls + [] == s.calls;
    var status := if e.Start? then SENT(c.version) else if e.Accept? then ACCEPTED else REJECTED;
    if e.job < |c.jobs| {
      AllOpsChange(c.jobs, e.job, status);
    }
  }

  lemma StepOwes(apply: Apply, s: System, e: Event, style: Style)
    requires Patches(apply) && ChainOk(s.client) && Owed(apply, s, style) && Gentle(s, e)
    ensures Owed(apply, Step(apply, s, e), style)
  {
    assert s.calls + [] == s.calls;
    if e.Start? || e.Accept? || e.Reject? {
      StatusOwes(apply, s, e, style);
    } else if e.EditStyle? && !s.client.disposed {
      StyleOwes(apply, s, e.patch, style);
    } else if e.Enqueue? && !s.client.disposed {
      EnqueueOwes(apply, s, e.ops, style);
    } else if s.client.pending.Some? && (e.FlushStyle? || e.TimerFires? || e.Dispose?) {
      FlushStepOwes(apply, s, e, if e.FlushStyle? then e.keepalive else e.Dispose?, style);
    }
  }

  /** Each event of the run is gentle where it happens. */
  ghost predicate GentleRun(apply: Apply, s: System, events: seq<Event>) {
    events == [] ||
    (GentleRun(apply, s, events[..|events| - 1]) && Gentle(Run(apply, s, events[..|events| - 1]), events[|events| - 1]))
  }

  lemma {:induction false} GentleIsSole(apply: Apply, s: System, events: seq<Event>)
    requires GentleRun(apply, s, events)
    ensures forall e :: e in events ==> SoleWriter(e)
  {
    if events != [] {
      GentleIsSole(apply, s, events[..|events| - 1]);
      assert events == events[..|events| - 1] + [events[|events| - 1]];
    }
  }

  lemma {:induction false} RunOwes(apply: Apply, version: int, style: Style, events: seq<Event>)
    requires Patches(apply) && GentleRun(apply, Initial(version, style), events)
    ensures Owed(apply, Run(apply, Initial(version, style), events), style)
  {
    if events != [] {
      var before := events[..|events| - 1];
      RunOwes(apply, version, style, before);
      GentleIsSole(apply, Initial(version, style), before);
      SendsAreSerialised(apply, version, style, before);
      StepOwes(apply, Run(apply, Initial(version, style), before), events[|events| - 1], style);
    }
  }

  /** The queue is idle: nothing pending, nothing unsettled. */
  predicate Idle(c: Client) {
    c.inFlight == 0 && c.pending.None?
  }

  lemma IdleSettled(jobs: seq<Job>)
    requires Unsettled(jobs) == 0 && forall j :: j in jobs ==> !j.status.REJECTED?
    ensures AcceptedOps(jobs) == AllOps(jobs)
  {
    forall k | 0 <= k < |jobs|
      ensures jobs[k].status.ACCEPTED?
    {
      ElementAtMostSum(Open(jobs), k);
    }
    SameFlat(Parts(jobs, true), Parts(jobs, false), |jobs|);
  }

  /**
   * When the queue comes to rest and the server rejected nothing, the style is that of every edit applied one by one in
   * call order, however the calls were coalesced, flushed early, timed out or cut off by disposal.
   */
  lemma NothingAskedForIsLost(apply: Apply, version: int, style: Style, events: seq<Event>)
    requires Patches(apply) && GentleRun(apply, Initial(version, style), events)
    ensures var s := Run(apply, Initial(version, style), events);
            Idle(s.client) && (forall j :: j in s.client.jobs ==> !j.status.REJECTED?) ==>
              s.server.style == ApplyOps(apply, style, s.calls)
  {
    var s := Run(apply, Initial(version, style), events);
    GentleIsSole(apply, Initial(version, style), events);
    SendsAreSerialised(apply, version, style, events);
    RunOwes(apply, version, style, events);
    if Idle(s.client) && forall j :: j in s.client.jobs ==> !j.status.REJECTED? {
      IdleSettled(s.client.jobs);
    }
  }
}
