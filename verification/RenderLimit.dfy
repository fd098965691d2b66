/** How many renders are active at once (packages/server/src/services/captions.ts, packages/storage/src/postgres-store.ts). */
module RenderLimit {
  import opened Common
  import opened RenderAdmission
  import opened RenderSafety
  import Sums
  import Spending
  import Ledger
  import LedgerInvariant
  import Tasks

  // ---------------------------------------------------------------- the limit on active renders

  lemma {:induction false} ActiveNeverRises(a: seq<Tasks.Task>, b: seq<Tasks.Task>, ws: string)
    requires |a| <= |b|
    requires forall i :: 0 <= i < |b| && IsActiveRender(b[i], ws) ==> i < |a| && IsActiveRender(a[i], ws)
    ensures ActiveRenders(b, ws) <= ActiveRenders(a, ws)
    decreases |b|
  {
    if b != [] {
      var n := |b| - 1;
      if |a| == |b| {
        ActiveNeverRises(a[..n], b[..n], ws);
      } else {
        ActiveNeverRises(a, b[..n], ws);
        assert !IsActiveRender(b[n], ws);
      }
    }
  }

  lemma ForeignNeverRaises(q: Tasks.Queue, e: Tasks.Event, ws: string)
    requires Tasks.WellFormed(q) && Foreign(e)
    ensures ActiveRenders(Tasks.Step(q, e).tasks, ws) <= ActiveRenders(q.tasks, ws)
  {
    var b := Tasks.Step(q, e).tasks;
    Tasks.StepNewRow(q, e);
    forall i: nat | i < |b| && IsActiveRender(b[i], ws)
      ensures i < |q.tasks| && IsActiveRender(q.tasks[i], ws)
    {
      if i < |q.tasks| {
        Tasks.StepRow(q, e, i);
      }
    }
    ActiveNeverRises(q.tasks, b, ws);
  }

  lemma ActiveAppended(tasks: seq<Tasks.Task>, t: Tasks.Task, ws: string)
    ensures ActiveRenders(tasks + [t], ws) == ActiveRenders(tasks, ws) + (if IsActiveRender(t, ws) then 1 else 0)
  {
    assert (tasks + [t])[..|tasks|] == tasks;
  }

  /**
   * For a workspace whose plan never allowed more than `bound`: every limit a transaction has read is within it, and an
   * admitted transaction holds the billing row and has room for its render. Whoever works in a workspace works in one with a
   * billing row.
   */
  ghost predicate Bounded(s: System, c: nat, ws: string, bound: nat) {
    var client := ClientOf(s, c);
    !client.IDLE? && client.req.ws == ws ==>
      && ws in s.billing
      && (client.PLANNED? ==> client.limit <= bound)
      && (client.ADMITTED? ==> ws in s.locks && s.locks[ws] == c && ActiveRenders(s.queue.tasks, ws) < bound)
  }

  ghost predicate LimitInv(s: System, ws: string, bound: nat) {
    && ActiveRenders(s.queue.tasks, ws) <= bound
    && (forall id :: id in s.projects ==> s.projects[id].ws in s.billing)
    && forall c :: Bounded(s, c, ws, bound)
  }

  /** The plan of the workspace allows at most `bound` active renders now. */
  predicate AllowsAtMost(s: System, ws: string, bound: nat) {
    ws in s.billing ==> s.billing[ws] <= bound
  }

  /** One transaction moves; the others keep their locks. */
  lemma MovedKeepsLimit(s: System, s': System, c: nat, client: Client, ws: string, bound: nat)
    requires LimitInv(s, ws, bound) && s'.queue == s.queue && s'.projects == s.projects && s'.billing == s.billing
    requires s'.clients == s.clients[c := client] && forall w :: w in s.locks && s.locks[w] != c ==> w in s'.locks && s'.locks[w] == s.locks[w]
    requires Bounded(s', c, ws, bound)
    ensures LimitInv(s', ws, bound)
  {
    forall d
      ensures Bounded(s', d, ws, bound)
    {
      assert Bounded(s, d, ws, bound);
      assert d != c ==> ClientOf(s', d) == ClientOf(s, d);
    }
  }

  lemma FinishedKeepsLimit(s: System, c: nat, ws: string, bound: nat)
    requires LimitInv(s, ws, bound)
    ensures LimitInv(Finished(s, c), ws, bound)
  {
    MovedKeepsLimit(s, Finished(s, c), c, IDLE, ws, bound);
  }

  lemma BegunKeepsLimit(s: System, c: nat, req: Request, ws: string, bound: nat)
    requires LimitInv(s, ws, bound)
    ensures LimitInv(Begun(s, c, req), ws, bound)
  {
    if Begun(s, c, req) != s {
      MovedKeepsLimit(s, Begun(s, c, req), c, READ(req, s.projects[req.project]), ws, bound);
    }
  }

  lemma CheckedKeepsLimit(cfg: Config, s: System, c: nat, now: int, ws: string, bound: nat)
    requires LimitInv(s, ws, bound)
    ensures LimitInv(Checked(cfg, s, c, now), ws, bound)
  {
    FinishedKeepsLimit(s, c, ws, bound);
    var client := ClientOf(s, c);
    if client.READ? && CheckQuote(cfg, s.quotes, client.project, client.req, now).None? {
      assert Bounded(s, c, ws, bound);
      MovedKeepsLimit(s, Checked(cfg, s, c, now), c, CHECKED(client.req, now), ws, bound);
    }
  }

  lemma PlanReadKeepsLimit(cfg: Config, s: System, c: nat, ws: string, bound: nat)
    requires LimitInv(s, ws, bound) && AllowsAtMost(s, ws, bound)
    ensures LimitInv(PlanRead(cfg, s, c), ws, bound)
  {
    var client := ClientOf(s, c);
    if client.CHECKED? {
      assert Bounded(s, c, ws, bound);
      MovedKeepsLimit(s, PlanRead(cfg, s, c), c, PLANNED(client.req, client.now, LimitOf(cfg, s, client.req.ws)), ws, bound);
    }
  }

  lemma AdmittedKeepsLimit(s: System, c: nat, ws: string, bound: nat)
    requires LimitInv(s, ws, bound)
    ensures LimitInv(Admitted(s, c), ws, bound)
  {
    FinishedKeepsLimit(s, c, ws, bound);
    var client := ClientOf(s, c);
    if client.PLANNED? && Admitted(s, c) != s && Admitted(s, c) != Finished(s, c) {
      assert Bounded(s, c, ws, bound);
      MovedKeepsLimit(s, Admitted(s, c), c, ADMITTED(client.req, client.now), ws, bound);
    }
  }

  /** The new task of a start takes the room its transaction had kept for it. */
  lemma StartKeepsLimit(s: System, s': System, c: nat, ws: string, bound: nat)
    requires LimitInv(s, ws, bound) && ClientOf(s, c).ADMITTED? && Starts(s, s', ClientOf(s, c).req, ClientOf(s, c).now)
    ensures LimitInv(Finished(s', c), ws, bound)
  {
    assert Bounded(s, c, ws, bound);
    ActiveAppended(s.queue.tasks, s'.queue.tasks[|s.queue.tasks|], ws);
    forall d
      ensures Bounded(Finished(s', c), d, ws, bound)
    {
      assert Bounded(s, d, ws, bound);
      assert d != c ==> ClientOf(Finished(s', c), d) == ClientOf(s, d);
    }
  }

  lemma CommittedKeepsLimit(s: System, c: nat, ws: string, bound: nat)
    requires Inv(s) && LimitInv(s, ws, bound)
    ensures LimitInv(Committed(s, c), ws, bound)
  {
    var client := ClientOf(s, c);
    FinishedKeepsLimit(s, c, ws, bound);
    if client.ADMITTED? && Written(s, client.req, client.now).Some? {
      assert Approves(client.req, s.quotes);
      CommitStarts(s, client.req, client.now);
      StartKeepsLimit(s, Written(s, client.req, client.now).value, c, ws, bound);
    }
  }

  lemma TaskCallKeepsLimit(s: System, t: Tasks.Event, ws: string, bound: nat)
    requires LimitInv(s, ws, bound) && Tasks.WellFormed(s.queue) && Foreign(t)
    ensures LimitInv(s.(queue := Tasks.Step(s.queue, t)), ws, bound)
  {
    var s' := s.(queue := Tasks.Step(s.queue, t));
    ForeignNeverRaises(s.queue, t, ws);
    forall d
      ensures Bounded(s', d, ws, bound)
    {
      assert Bounded(s, d, ws, bound) && ClientOf(s', d) == ClientOf(s, d);
    }
  }

  /** Calls that touch neither tasks nor transactions; rows of workspaces are never deleted. */
  lemma TablesKeepLimit(s: System, s': System, ws: string, bound: nat)
    requires LimitInv(s, ws, bound) && s'.queue == s.queue && s'.clients == s.clients && s'.locks == s.locks
    requires s.billing.Keys <= s'.billing.Keys && forall id :: id in s'.projects ==> s'.projects[id].ws in s'.billing
    ensures LimitInv(s', ws, bound)
  {
    forall d
      ensures Bounded(s', d, ws, bound)
    {
      assert Bounded(s, d, ws, bound) && ClientOf(s', d) == ClientOf(s, d);
    }
  }

  lemma ClientStepKeepsLimit(cfg: Config, s: System, e: Event, ws: string, bound: nat)
    requires Inv(s) && LimitInv(s, ws, bound) && AllowsAtMost(s, ws, bound) && IsClientStep(e)
    ensures LimitInv(Step(cfg, s, e), ws, bound)
  {
    match e {
      case Begin(c, req) => BegunKeepsLimit(s, c, req, ws, bound);
      case Check(c, now) => CheckedKeepsLimit(cfg, s, c, now, ws, bound);
      case ReadPlan(c) => PlanReadKeepsLimit(cfg, s, c, ws, bound);
      case Admit(c) => AdmittedKeepsLimit(s, c, ws, bound);
      case Commit(c) => CommittedKeepsLimit(s, c, ws, bound);
      case Abort(c) => FinishedKeepsLimit(s, c, ws, bound);
    }
  }

  /** The other events leave tasks, transactions and locks alone, and no workspace loses its billing row. */
  lemma TableStep(cfg: Config, s: System, e: Event)
    requires Tasks.WellFormed(s.queue) && !IsClientStep(e) && !e.TaskCall?
    ensures var s' := Step(cfg, s, e);
            s'.queue == s.queue && s'.clients == s.clients && s'.locks == s.locks && s.billing.Keys <= s'.billing.Keys
  {
  }

  lemma ProjectsStayHoused(cfg: Config, s: System, e: Event)
    requires Tasks.WellFormed(s.queue) && !IsClientStep(e) && forall id :: id in s.projects ==> s.projects[id].ws in s.billing
    ensures forall id :: id in Step(cfg, s, e).projects ==> Step(cfg, s, e).projects[id].ws in Step(cfg, s, e).billing
  {
    if !e.TaskCall? {
      TableStep(cfg, s, e);
    }
  }

  lemma StepKeepsLimit(cfg: Config, s: System, e: Event, ws: string, bound: nat)
    requires Inv(s) && LimitInv(s, ws, bound) && AllowsAtMost(s, ws, bound)
    ensures LimitInv(Step(cfg, s, e), ws, bound)
  {
    if IsClientStep(e) {
      ClientStepKeepsLimit(cfg, s, e, ws, bound);
    } else if e.TaskCall? {
      if Foreign(e.task) {
        TaskCallKeepsLimit(s, e.task, ws, bound);
      }
    } else {
      TableStep(cfg, s, e);
      ProjectsStayHoused(cfg, s, e);
      TablesKeepLimit(s, Step(cfg, s, e), ws, bound);
    }
  }

  /** Throughout the run the plan of the workspace allowed at most `bound` active renders. */
  ghost predicate NeverAllowedMore(cfg: Config, events: seq<Event>, ws: string, bound: nat) {
    && AllowsAtMost(Run(cfg, EMPTY, events), ws, bound)
    && (events == [] || NeverAllowedMore(cfg, events[..|events| - 1], ws, bound))
  }

  lemma {:induction false} EveryRunKeepsLimit(cfg: Config, events: seq<Event>, ws: string, bound: nat)
    requires NeverAllowedMore(cfg, events, ws, bound)
    ensures LimitInv(Run(cfg, EMPTY, events), ws, bound)
  {
    if events != [] {
      var before := events[..|events| - 1];
      EveryRunKeepsInv(cfg, before);
      EveryRunKeepsLimit(cfg, before, ws, bound);
      StepKeepsLimit(cfg, Run(cfg, EMPTY, before), events[|events| - 1], ws, bound);
    }
  }

  /** The most the plan of the workspace allowed at any time of the run. */
  function HighestLimit(cfg: Config, events: seq<Event>, ws: string): nat {
    var s := Run(cfg, EMPTY, events);
    Max(if ws in s.billing then s.billing[ws] else 0, if events == [] then 0 else HighestLimit(cfg, events[..|events| - 1], ws))
  }

  lemma {:induction false} HighestIsBound(cfg: Config, events: seq<Event>, ws: string, bound: nat)
    requires HighestLimit(cfg, events, ws) <= bound
    ensures NeverAllowedMore(cfg, events, ws, bound)
  {
    if events != [] {
      HighestIsBound(cfg, events[..|events| - 1], ws, bound);
    }
  }

  /**
   * Under every interleaving and whatever plans change on the way, no workspace has more active renders than its plan
   * allowed at some time of the run; so never more than it allows now, unless the plan was lowered.
   */
  lemma ActiveRendersWithinLimit(cfg: Config, events: seq<Event>, ws: string)
    ensures var s := Run(cfg, EMPTY, events);
            && ActiveRenders(s.queue.tasks, ws) <= HighestLimit(cfg, events, ws)
            && (ws in s.billing && NeverAllowedMore(cfg, events, ws, s.billing[ws]) ==>
                  ActiveRenders(s.queue.tasks, ws) <= s.billing[ws])
  {
    var s, highest := Run(cfg, EMPTY, events), HighestLimit(cfg, events, ws);
    HighestIsBound(cfg, events, ws, highest);
    EveryRunKeepsLimit(cfg, events, ws, highest);
    if ws in s.billing && NeverAllowedMore(cfg, events, ws, s.billing[ws]) {
      EveryRunKeepsLimit(cfg, events, ws, s.billing[ws]);
    }
  }

  /** Whoever starts a render works in a workspace with a billing row, so there always is a row to lock. */
  lemma RowIsAlwaysThere(cfg: Config, events: seq<Event>, c: nat)
    ensures var s := Run(cfg, EMPTY, events); !ClientOf(s, c).IDLE? ==> ClientOf(s, c).req.ws in s.billing
  {
    var client := ClientOf(Run(cfg, EMPTY, events), c);
    if !client.IDLE? {
      var bound := HighestLimit(cfg, events, client.req.ws);
      HighestIsBound(cfg, events, client.req.ws, bound);
      EveryRunKeepsLimit(cfg, events, client.req.ws, bound);
      assert Bounded(Run(cfg, EMPTY, events), c, client.req.ws, bound);
    }
  }

  // ---------------------------------------------------------------- without a billing row

  /** The unexpired pools of the workspace together. */
  function Spendable(s: System, ws: string, now: int): int {
    Sums.Sum(LedgerInvariant.Spare(s.credits.pools, ws, now))
  }

  /** Nothing stands in the way of a start: a usable quote that the pools cover, and keys not seen before. */
  ghost predicate Ready(s: System, req: Request, now: int) {
    && Approves(req, s.quotes) && 0 <= req.approved <= Spendable(s, req.ws, now)
    && s.quotes[req.quote].status.OPEN? && s.quotes[req.quote].expiresAt > now
    && Tasks.FindKey(s.queue.tasks, req.ws, Tasks.RENDER_EXPORT, req.key).None?
    && !Ledger.KeyUsed(s.credits.ledger, req.ws, Spending.ForReserve(req.quote))
  }

  /** Such a start goes through, and takes its cost from the pools. */
  lemma CommitSucceeds(s: System, req: Request, now: int)
    requires Inv(s) && Ready(s, req, now)
    ensures Written(s, req, now).Some? && Starts(s, Written(s, req, now).value, req, now)
    ensures Spendable(Written(s, req, now).value, req.ws, now) == Spendable(s, req.ws, now) - req.approved
    ensures LedgerGrowsBy(s, Written(s, req, now).value, Spending.ForReserve(req.quote))
  {
    OpenIsUnreserved(s.credits.reservations, s.quotes, s.queue.tasks, req.quote);
    LedgerInvariant.ReserveSucceedsExactly(s.credits, req.ws, req.quote, |s.queue.tasks|, req.approved, now);
    LedgerInvariant.ReserveSpends(s.credits, req.ws, req.quote, |s.queue.tasks|, req.approved, now);
    CommitStarts(s, req, now);
  }

  ghost predicate LedgerGrowsBy(s: System, s': System, key: Spending.Key) {
    && |s'.credits.ledger| == |s.credits.ledger| + 1 && s'.credits.ledger[..|s.credits.ledger|] == s.credits.ledger
    && s'.credits.ledger[|s.credits.ledger|].key == key
  }

  lemma OtherStaysReady(s: System, s': System, req: Request, other: Request, now: int)
    requires Starts(s, s', req, now) && LedgerGrowsBy(s, s', Spending.ForReserve(req.quote)) && Ready(s, other, now)
    requires req.ws == other.ws && req.quote != other.quote && req.key != other.key
    requires Spendable(s', req.ws, now) >= other.approved
    ensures Ready(s', other, now)
  {
    var (n, m) := (|s.queue.tasks|, |s.credits.ledger|);
    assert s'.queue.tasks[..n] == s.queue.tasks;
    assert forall i :: 0 <= i < m ==> s'.credits.ledger[..m][i] == s'.credits.ledger[i];
  }

  lemma AdmitLets(s: System, c: nat)
    requires Inv(s) && ClientOf(s, c).PLANNED? && ClientOf(s, c).req.ws !in s.billing
    requires ActiveRenders(s.queue.tasks, ClientOf(s, c).req.ws) < ClientOf(s, c).limit
    ensures Admitted(s, c) == Moved(s, c, ADMITTED(ClientOf(s, c).req, ClientOf(s, c).now)) && Inv(Admitted(s, c))
  {
    AdmittedInv(s, c);
  }

  lemma CommitAdds(s: System, c: nat)
    requires Inv(s) && ClientOf(s, c).ADMITTED? && Ready(s, ClientOf(s, c).req, ClientOf(s, c).now)
    ensures var (req, s') := (ClientOf(s, c).req, Committed(s, c));
            && Inv(s') && ActiveRenders(s'.queue.tasks, req.ws) == ActiveRenders(s.queue.tasks, req.ws) + 1
            && s'.clients == s.clients[c := IDLE]
  {
    var req, now := ClientOf(s, c).req, ClientOf(s, c).now;
    CommittedInv(s, c);
    CommitSucceeds(s, req, now);
    ActiveAppended(s.queue.tasks, Written(s, req, now).value.queue.tasks[|s.queue.tasks|], req.ws);
  }

  lemma CommitLeavesReady(s: System, c: nat, other: Request)
    requires Inv(s) && ClientOf(s, c).ADMITTED? && Ready(s, ClientOf(s, c).req, ClientOf(s, c).now)
    requires var (req, now) := (ClientOf(s, c).req, ClientOf(s, c).now);
             && Ready(s, other, now) && req.ws == other.ws && req.quote != other.quote && req.key != other.key
             && req.approved + other.approved <= Spendable(s, req.ws, now)
    ensures Ready(Committed(s, c), other, ClientOf(s, c).now)
  {
    var req, now := ClientOf(s, c).req, ClientOf(s, c).now;
    CommitSucceeds(s, req, now);
    OtherStaysReady(s, Written(s, req, now).value, req, other, now);
  }

  /**
   * Why the row matters: were there a workspace without one, nothing would be locked there, and of two starts that both
   * count before either commits both would go through, leaving one active render more than the limit.
   */
  lemma UnlockedStartsExceedLimit(s: System, a: nat, b: nat)
    requires Inv(s) && a != b && ClientOf(s, a).PLANNED? && ClientOf(s, b).PLANNED?
    requires var (first, second, now) := (ClientOf(s, a).req, ClientOf(s, b).req, ClientOf(s, a).now);
             && first.ws == second.ws && first.quote != second.quote && first.key != second.key
             && first.ws !in s.billing && ActiveRenders(s.queue.tasks, first.ws) + 1 == ClientOf(s, a).limit == ClientOf(s, b).limit
             && now == ClientOf(s, b).now && Ready(s, first, now) && Ready(s, second, now)
             && first.approved + second.approved <= Spendable(s, first.ws, now)
    ensures var s' := Committed(Committed(Admitted(Admitted(s, a), b), a), b);
            ActiveRenders(s'.queue.tasks, ClientOf(s, a).req.ws) == ClientOf(s, a).limit + 1
  {
    AdmitLets(s, a);
    var s1 := Admitted(s, a);
    AdmitLets(s1, b);
    var s2 := Admitted(s1, b);
    CommitAdds(s2, a);
    CommitLeavesReady(s2, a, ClientOf(s, b).req);
    CommitAdds(Committed(s2, a), b);
  }
}
