/** What every interleaving of render starts keeps (packages/server/src/services/captions.ts). */
module RenderSafety {
  import opened Common
  import opened RenderAdmission
  import Ledger
  import LedgerInvariant
  import Tasks
  import TaskRuns

  // ---------------------------------------------------------------- credit calls of others

  /** Same reservations but for their status. */
  ghost predicate SameReservations(a: seq<Ledger.Reservation>, b: seq<Ledger.Reservation>) {
    |a| == |b| && forall r :: 0 <= r < |a| ==> a[r].(status := b[r].status) == b[r]
  }

  lemma CallKeepsReservations(db: Ledger.Db, c: LedgerInvariant.Call)
    requires Harmless(c)
    ensures SameReservations(db.reservations, LedgerInvariant.Apply(db, c).reservations)
  {
  }

  lemma SameLinks(a: seq<Ledger.Reservation>, b: seq<Ledger.Reservation>, quotes: map<string, Quote>, tasks: seq<Tasks.Task>)
    requires SameReservations(a, b) && Linked(a, quotes, tasks)
    ensures Linked(b, quotes, tasks)
  {
    forall r | 0 <= r < |b|
      ensures ReservationLinked(b[r], quotes, tasks)
    {
      assert ReservationLinked(a[r], quotes, tasks) && a[r].(status := b[r].status) == b[r];
    }
    forall id
      ensures QuoteLinked(b, quotes, id)
    {
      assert QuoteLinked(a, quotes, id);
      var r := Ledger.FindQuote(a, id);
      assert r.Some? ==> b[r.value].quote == id;
    }
    forall i: nat
      ensures TaskLinked(b, tasks, i)
    {
      assert TaskLinked(a, tasks, i);
      if Ledger.TaskUsed(a, i) {
        var r :| 0 <= r < |a| && a[r].task == i;
        assert b[r].task == i;
      }
    }
  }

  // ---------------------------------------------------------------- task calls of others

  /** Rows keep what identifies them; new rows are no renders. */
  ghost predicate SameTasks(a: seq<Tasks.Task>, b: seq<Tasks.Task>) {
    && |a| <= |b| && (forall i :: 0 <= i < |a| ==> b[i].ws == a[i].ws && b[i].kind == a[i].kind)
    && (forall i :: |a| <= i < |b| ==> b[i].kind != Tasks.RENDER_EXPORT)
  }

  lemma ForeignKeepsTasks(q: Tasks.Queue, e: Tasks.Event)
    requires Tasks.WellFormed(q) && Foreign(e)
    ensures SameTasks(q.tasks, Tasks.Step(q, e).tasks)
  {
    Tasks.StepNewRow(q, e);
    forall i: nat | i < |q.tasks|
      ensures Tasks.Step(q, e).tasks[i].ws == q.tasks[i].ws && Tasks.Step(q, e).tasks[i].kind == q.tasks[i].kind
    {
      TaskRuns.KeysStay(q, e, i);
    }
  }

  lemma SameTaskLinks(reservations: seq<Ledger.Reservation>, quotes: map<string, Quote>, a: seq<Tasks.Task>, b: seq<Tasks.Task>)
    requires SameTasks(a, b) && Linked(reservations, quotes, a)
    ensures Linked(reservations, quotes, b)
  {
    forall r | 0 <= r < |reservations|
      ensures ReservationLinked(reservations[r], quotes, b)
    {
      assert ReservationLinked(reservations[r], quotes, a);
    }
    forall i: nat
      ensures TaskLinked(reservations, b, i)
    {
      assert TaskLinked(reservations, a, i);
    }
  }

  // ---------------------------------------------------------------- quotes

  /** Quotes are kept with their cost and workspace; none becomes consumed or ceases to be. */
  ghost predicate SameQuotes(a: map<string, Quote>, b: map<string, Quote>) {
    && a.Keys <= b.Keys
    && (forall id :: id in a ==> b[id].cost == a[id].cost && b[id].ws == a[id].ws &&
                                 (a[id].status.CONSUMED? || b[id].status.CONSUMED? ==> b[id].status == a[id].status))
    && (forall id :: id in b && id !in a ==> !b[id].status.CONSUMED?)
  }

  lemma SameQuoteLinks(reservations: seq<Ledger.Reservation>, a: map<string, Quote>, b: map<string, Quote>, tasks: seq<Tasks.Task>)
    requires SameQuotes(a, b) && Linked(reservations, a, tasks)
    ensures Linked(reservations, b, tasks)
  {
    forall r | 0 <= r < |reservations|
      ensures ReservationLinked(reservations[r], b, tasks)
    {
      assert ReservationLinked(reservations[r], a, tasks);
    }
    forall id
      ensures QuoteLinked(reservations, b, id)
    {
      assert QuoteLinked(reservations, a, id);
    }
  }

  lemma SameQuoteClients(clients: map<nat, Client>, a: map<string, Quote>, b: map<string, Quote>)
    requires SameQuotes(a, b) && ClientsOk(clients, a)
    ensures ClientsOk(clients, b)
  {
    forall c | c in clients && HasChecked(clients[c])
      ensures Approves(clients[c].req, b)
    {
      assert Approves(clients[c].req, a);
    }
  }

  // ---------------------------------------------------------------- committing

  /** A new reservation, task and consumed quote, beside everything there was. */
  ghost predicate Extends(reservations: seq<Ledger.Reservation>, reservations': seq<Ledger.Reservation>, quotes: map<string, Quote>,
                          quotes': map<string, Quote>, tasks: seq<Tasks.Task>, tasks': seq<Tasks.Task>, req: Request, now: int) {
    && req.quote in quotes
    && tasks' == tasks + [Tasks.NewTask(req.ws, Tasks.RENDER_EXPORT, Some(req.key), Some(2), now, now)]
    && reservations' == reservations + [Ledger.Reservation(req.ws, req.quote, |tasks|, req.approved, Ledger.RESERVED)]
    && quotes' == quotes[req.quote := quotes[req.quote].(status := CONSUMED(|tasks|))]
  }

  /** What a successful commit writes: a new task, a new reservation of the approved amount, the quote consumed by that task. */
  ghost predicate Starts(s: System, s': System, req: Request, now: int) {
    && req.quote in s.quotes && s.quotes[req.quote].status.OPEN? && s.quotes[req.quote].expiresAt > now
    && Extends(s.credits.reservations, s'.credits.reservations, s.quotes, s'.quotes, s.queue.tasks, s'.queue.tasks, req, now)
    && s'.projects == s.projects && s'.billing == s.billing && s'.clients == s.clients && s'.locks == s.locks
    && Ledger.Inv(s'.credits) && Tasks.WellFormed(s'.queue)
  }

  /** Nothing has been reserved for an open quote, nor for a task that does not exist yet. */
  lemma OpenIsUnreserved(reservations: seq<Ledger.Reservation>, quotes: map<string, Quote>, tasks: seq<Tasks.Task>, id: string)
    requires Linked(reservations, quotes, tasks) && id in quotes && quotes[id].status.OPEN?
    ensures Ledger.FindQuote(reservations, id).None? && !Ledger.TaskUsed(reservations, |tasks|)
  {
    forall r | 0 <= r < |reservations|
      ensures reservations[r].quote != id && reservations[r].task < |tasks|
    {
      assert ReservationLinked(reservations[r], quotes, tasks);
    }
  }

  lemma TaskIsNew(s: System, req: Request, now: int)
    requires Inv(s) && Written(s, req, now).Some?
    ensures !Tasks.Collides(s.queue.tasks, req.ws, Tasks.RENDER_EXPORT, Some(req.key))
    ensures Ledger.FindQuote(s.credits.reservations, req.quote).None?
  {
    OpenIsUnreserved(s.credits.reservations, s.quotes, s.queue.tasks, req.quote);
    assert TaskLinked(s.credits.reservations, s.queue.tasks, TaskFor(s.queue, req));
  }

  lemma CommitStarts(s: System, req: Request, now: int)
    requires Inv(s) && Approves(req, s.quotes) && Written(s, req, now).Some?
    ensures Starts(s, Written(s, req, now).value, req, now)
  {
    TaskIsNew(s, req, now);
    Tasks.EnqueueStep(s.queue, Enqueued(s.queue, req, now));
    LedgerInvariant.ReserveKeepsInv(s.credits, req.ws, req.quote, |s.queue.tasks|, req.approved, now);
  }

  lemma FindQuoteAppended(reservations: seq<Ledger.Reservation>, res: Ledger.Reservation, id: string)
    ensures Ledger.FindQuote(reservations + [res], id).Some? <==> id == res.quote || Ledger.FindQuote(reservations, id).Some?
  {
    assert (reservations + [res])[..|reservations|] == reservations;
  }

  lemma ReservationsExtended(a: seq<Ledger.Reservation>, b: seq<Ledger.Reservation>, quotes: map<string, Quote>,
                             quotes': map<string, Quote>, tasks: seq<Tasks.Task>, tasks': seq<Tasks.Task>, req: Request, now: int, r: nat)
    requires Extends(a, b, quotes, quotes', tasks, tasks', req, now) && Approves(req, quotes) && r < |b|
    requires r < |a| ==> ReservationLinked(a[r], quotes, tasks) && a[r].quote != req.quote
    ensures ReservationLinked(b[r], quotes', tasks')
  {
  }

  lemma QuotesExtended(a: seq<Ledger.Reservation>, b: seq<Ledger.Reservation>, quotes: map<string, Quote>,
                       quotes': map<string, Quote>, tasks: seq<Tasks.Task>, tasks': seq<Tasks.Task>, req: Request, now: int, id: string)
    requires Extends(a, b, quotes, quotes', tasks, tasks', req, now) && QuoteLinked(a, quotes, id)
    ensures QuoteLinked(b, quotes', id)
  {
    FindQuoteAppended(a, b[|a|], id);
  }

  lemma TasksExtended(a: seq<Ledger.Reservation>, b: seq<Ledger.Reservation>, quotes: map<string, Quote>,
                      quotes': map<string, Quote>, tasks: seq<Tasks.Task>, tasks': seq<Tasks.Task>, req: Request, now: int, i: nat)
    requires Extends(a, b, quotes, quotes', tasks, tasks', req, now) && TaskLinked(a, tasks, i)
    ensures TaskLinked(b, tasks', i)
  {
    if Ledger.TaskUsed(a, i) {
      var r :| 0 <= r < |a| && a[r].task == i;
      assert b[r].task == i;
    }
    assert b[|a|].task == |tasks|;
  }

  lemma ExtendsKeepsLinks(a: seq<Ledger.Reservation>, b: seq<Ledger.Reservation>, quotes: map<string, Quote>,
                          quotes': map<string, Quote>, tasks: seq<Tasks.Task>, tasks': seq<Tasks.Task>, req: Request, now: int)
    requires Extends(a, b, quotes, quotes', tasks, tasks', req, now) && Approves(req, quotes) && Linked(a, quotes, tasks)
    requires Ledger.FindQuote(a, req.quote).None?
    ensures Linked(b, quotes', tasks')
  {
    forall r: nat | r < |b|
      ensures ReservationLinked(b[r], quotes', tasks')
    {
      ReservationsExtended(a, b, quotes, quotes', tasks, tasks', req, now, r);
    }
    forall id
      ensures QuoteLinked(b, quotes', id)
    {
      QuotesExtended(a, b, quotes, quotes', tasks, tasks', req, now, id);
    }
    forall i: nat
      ensures TaskLinked(b, tasks', i)
    {
      TasksExtended(a, b, quotes, quotes', tasks, tasks', req, now, i);
    }
  }

  lemma ConsumingKeepsClients(clients: map<nat, Client>, quotes: map<string, Quote>, id: string, status: QuoteStatus)
    requires ClientsOk(clients, quotes) && id in quotes
    ensures ClientsOk(clients, quotes[id := quotes[id].(status := status)])
  {
    forall c | c in clients && HasChecked(clients[c])
      ensures Approves(clients[c].req, quotes[id := quotes[id].(status := status)])
    {
      assert Approves(clients[c].req, quotes);
    }
  }

  lemma StartKeepsInv(s: System, s': System, req: Request, now: int)
    requires Inv(s) && Approves(req, s.quotes) && Starts(s, s', req, now)
    requires Ledger.FindQuote(s.credits.reservations, req.quote).None?
    ensures Inv(s')
  {
    ExtendsKeepsLinks(s.credits.reservations, s'.credits.reservations, s.quotes, s'.quotes, s.queue.tasks, s'.queue.tasks, req, now);
    ConsumingKeepsClients(s.clients, s.quotes, req.quote, CONSUMED(|s.queue.tasks|));
  }

  // ---------------------------------------------------------------- the invariant

  /** Nothing of the tables has changed. */
  ghost predicate Untouched(s: System, s': System) {
    s'.credits == s.credits && s'.queue == s.queue && s'.quotes == s.quotes
  }

  /** A transaction that moves on with an approved request, or ends, keeps the invariant. */
  lemma MovedInv(s: System, s': System, c: nat, client: Client)
    requires Inv(s) && Untouched(s, s') && s'.clients == s.clients[c := client]
    requires HasChecked(client) ==> Approves(client.req, s.quotes)
    ensures Inv(s')
  {
    forall d | d in s'.clients && HasChecked(s'.clients[d])
      ensures Approves(s'.clients[d].req, s.quotes)
    {
      assert d != c ==> d in s.clients && s.clients[d] == s'.clients[d];
    }
  }

  lemma FinishedInv(s: System, c: nat)
    requires Inv(s)
    ensures Inv(Finished(s, c))
  {
    MovedInv(s, Finished(s, c), c, IDLE);
  }

  lemma BegunInv(s: System, c: nat, req: Request)
    requires Inv(s)
    ensures Inv(Begun(s, c, req))
  {
    if Begun(s, c, req) != s {
      MovedInv(s, Begun(s, c, req), c, READ(req, s.projects[req.project]));
    }
  }

  lemma CheckedInv(cfg: Config, s: System, c: nat, now: int)
    requires Inv(s)
    ensures Inv(Checked(cfg, s, c, now))
  {
    FinishedInv(s, c);
    var client := ClientOf(s, c);
    if client.READ? && CheckQuote(cfg, s.quotes, client.project, client.req, now).None? {
      MovedInv(s, Checked(cfg, s, c, now), c, CHECKED(client.req, now));
    }
  }

  lemma PlanReadInv(cfg: Config, s: System, c: nat)
    requires Inv(s)
    ensures Inv(PlanRead(cfg, s, c))
  {
    var client := ClientOf(s, c);
    if client.CHECKED? {
      assert Approves(client.req, s.quotes);
      MovedInv(s, PlanRead(cfg, s, c), c, PLANNED(client.req, client.now, LimitOf(cfg, s, client.req.ws)));
    }
  }

  lemma AdmittedInv(s: System, c: nat)
    requires Inv(s)
    ensures Inv(Admitted(s, c))
  {
    FinishedInv(s, c);
    var client := ClientOf(s, c);
    if client.PLANNED? && Admitted(s, c) != s && Admitted(s, c) != Finished(s, c) {
      assert Approves(client.req, s.quotes);
      MovedInv(s, Admitted(s, c), c, ADMITTED(client.req, client.now));
    }
  }

  lemma CommittedInv(s: System, c: nat)
    requires Inv(s)
    ensures Inv(Committed(s, c))
  {
    var client := ClientOf(s, c);
    if client.ADMITTED? {
      assert Approves(client.req, s.quotes);
      var written := Written(s, client.req, client.now);
      if written.Some? {
        CommitStarts(s, client.req, client.now);
        TaskIsNew(s, client.req, client.now);
        StartKeepsInv(s, written.value, client.req, client.now);
        FinishedInv(written.value, c);
      } else {
        FinishedInv(s, c);
      }
    }
  }

  /** Quotes may be added or invalidated. */
  lemma QuotesInv(s: System, s': System)
    requires Inv(s) && s'.credits == s.credits && s'.queue == s.queue && s'.clients == s.clients && SameQuotes(s.quotes, s'.quotes)
    ensures Inv(s')
  {
    SameQuoteLinks(s.credits.reservations, s.quotes, s'.quotes, s.queue.tasks);
    SameQuoteClients(s.clients, s.quotes, s'.quotes);
  }

  lemma TaskCallInv(s: System, t: Tasks.Event)
    requires Inv(s) && Foreign(t)
    ensures Inv(s.(queue := Tasks.Step(s.queue, t)))
  {
    ForeignKeepsTasks(s.queue, t);
    SameTaskLinks(s.credits.reservations, s.quotes, s.queue.tasks, Tasks.Step(s.queue, t).tasks);
  }

  lemma CreditCallInv(s: System, call: LedgerInvariant.Call)
    requires Inv(s) && Harmless(call)
    ensures Inv(s.(credits := LedgerInvariant.Apply(s.credits, call)))
  {
    CallKeepsReservations(s.credits, call);
    LedgerInvariant.ApplyKeepsInv(s.credits, call);
    SameLinks(s.credits.reservations, LedgerInvariant.Apply(s.credits, call).reservations, s.quotes, s.queue.tasks);
  }

  /** The steps of transactions. */
  predicate IsClientStep(e: Event) {
    e.Begin? || e.Check? || e.ReadPlan? || e.Admit? || e.Commit? || e.Abort?
  }

  lemma ClientStepInv(cfg: Config, s: System, e: Event)
    requires Inv(s) && IsClientStep(e)
    ensures Inv(Step(cfg, s, e))
  {
    match e {
      case Begin(c, req) => BegunInv(s, c, req);
      case Check(c, now) => CheckedInv(cfg, s, c, now);
      case ReadPlan(c) => PlanReadInv(cfg, s, c);
      case Admit(c) => AdmittedInv(s, c);
      case Commit(c) => CommittedInv(s, c);
      case Abort(c) => FinishedInv(s, c);
    }
  }

  /** Events that make, invalidate or leave quotes. */
  lemma QuoteStep(cfg: Config, s: System, e: Event)
    requires Tasks.WellFormed(s.queue) && (e.NewQuote? || e.InvalidateQuotes? || e.CreateProject? || e.EditProject?)
    ensures var s' := Step(cfg, s, e);
            s'.credits == s.credits && s'.queue == s.queue && s'.clients == s.clients && SameQuotes(s.quotes, s'.quotes)
  {
  }

  lemma StepKeepsInv(cfg: Config, s: System, e: Event)
    requires Inv(s)
    ensures Inv(Step(cfg, s, e))
  {
    if IsClientStep(e) {
      ClientStepInv(cfg, s, e);
    } else if e.TaskCall? && Foreign(e.task) {
      TaskCallInv(s, e.task);
    } else if e.CreditCall? && Harmless(e.credit) {
      CreditCallInv(s, e.credit);
    } else if e.NewQuote? || e.InvalidateQuotes? || e.CreateProject? || e.EditProject? {
      QuoteStep(cfg, s, e);
      QuotesInv(s, Step(cfg, s, e));
    }
  }

  lemma {:induction false} EveryRunKeepsInv(cfg: Config, events: seq<Event>)
    ensures Inv(Run(cfg, EMPTY, events))
  {
    if events == [] {
      Ledger.EmptyInv();
    } else {
      EveryRunKeepsInv(cfg, events[..|events| - 1]);
      StepKeepsInv(cfg, Run(cfg, EMPTY, events[..|events| - 1]), events[|events| - 1]);
    }
  }

  // ---------------------------------------------------------------- main results

  /** Reservation r is the one for the quote, of the quoted amount, for a render task that no other reservation uses. */
  ghost predicate PaidBy(s: System, id: string, r: nat) {
    && id in s.quotes && r < |s.credits.reservations| && s.credits.reservations[r].quote == id
    && s.credits.reservations[r].amount == s.quotes[id].cost
    && s.quotes[id].status == CONSUMED(s.credits.reservations[r].task)
    && (forall k :: 0 <= k < |s.credits.reservations| && k != r ==>
                      s.credits.reservations[k].quote != id && s.credits.reservations[k].task != s.credits.reservations[r].task)
  }

  lemma InvPays(s: System, id: string, r: nat)
    requires Inv(s) && r < |s.credits.reservations| && s.credits.reservations[r].quote == id
    ensures PaidBy(s, id, r)
  {
    assert ReservationLinked(s.credits.reservations[r], s.quotes, s.queue.tasks);
  }

  /** Under every interleaving a quote is consumed if and only if exactly one reservation pays for it, with a task of its own. */
  lemma ConsumedOnce(cfg: Config, events: seq<Event>, id: string)
    ensures var s := Run(cfg, EMPTY, events);
            && (id in s.quotes && s.quotes[id].status.CONSUMED? <==>
                exists r :: 0 <= r < |s.credits.reservations| && s.credits.reservations[r].quote == id)
            && (forall r: nat :: r < |s.credits.reservations| && s.credits.reservations[r].quote == id ==> PaidBy(s, id, r))
  {
    var s := Run(cfg, EMPTY, events);
    EveryRunKeepsInv(cfg, events);
    assert QuoteLinked(s.credits.reservations, s.quotes, id);
    forall r: nat | r < |s.credits.reservations| && s.credits.reservations[r].quote == id
      ensures PaidBy(s, id, r)
    {
      InvPays(s, id, r);
    }
  }

  /** A new active task, a reservation of the approved amount for it, and the quote paid by that reservation. */
  ghost predicate Started(s: System, s': System, req: Request) {
    var r := |s.credits.reservations|;
    && |s'.credits.reservations| == r + 1 && |s'.queue.tasks| == |s.queue.tasks| + 1
    && PaidBy(s', req.quote, r) && s'.credits.reservations[r].task == |s.queue.tasks|
    && s'.credits.reservations[r].amount == req.approved && s'.credits.reservations[r].status.RESERVED?
    && IsActiveRender(s'.queue.tasks[|s.queue.tasks|], req.ws)
  }

  lemma StartsPaid(s: System, s': System, req: Request, now: int)
    requires Starts(s, s', req, now) && Inv(s')
    ensures Started(s, s', req)
  {
    InvPays(s', req.quote, |s.credits.reservations|);
  }

  lemma CommittedAllOrNothing(s: System, c: nat)
    requires Inv(s)
    ensures Untouched(s, Committed(s, c)) || (ClientOf(s, c).ADMITTED? && Started(s, Committed(s, c), ClientOf(s, c).req))
  {
    var client := ClientOf(s, c);
    if client.ADMITTED? && Written(s, client.req, client.now).Some? {
      assert Approves(client.req, s.quotes);
      CommitStarts(s, client.req, client.now);
      TaskIsNew(s, client.req, client.now);
      var s' := Written(s, client.req, client.now).value;
      StartKeepsInv(s, s', client.req, client.now);
      StartsPaid(s, s', client.req, client.now);
    }
  }

  /** A start leaves task, reservation and consumed quote behind together, at the approved cost, or leaves no trace at all. */
  lemma AllOrNothing(cfg: Config, events: seq<Event>, c: nat)
    ensures var s := Run(cfg, EMPTY, events);
            var s' := Committed(s, c);
            Untouched(s, s') || (ClientOf(s, c).ADMITTED? && Started(s, s', ClientOf(s, c).req))
  {
    EveryRunKeepsInv(cfg, events);
    CommittedAllOrNothing(Run(cfg, EMPTY, events), c);
  }

  // ---------------------------------------------------------------- what is rendered is what was quoted

  /**
   * A quote that a transaction works with is, as long as it is open, for the project as it is now: as the transaction has read
   * it, and once the quote has been checked, as the quote says.
   */
  ghost predicate Current(client: Client, quotes: map<string, Quote>, projects: map<string, Project>) {
    !client.IDLE? ==>
      && client.req.quote in quotes && client.req.project in projects
      && var (q, p) := (quotes[client.req.quote], projects[client.req.project]);
         && (HasChecked(client) ==> q.project == client.req.project)
         && (q.status.OPEN? && q.project == client.req.project ==>
               (client.READ? ==> p == client.project) && (HasChecked(client) ==> p.version == q.version && p.hash == q.hash))
  }

  ghost predicate AllCurrent(s: System) {
    forall c :: c in s.clients ==> Current(s.clients[c], s.quotes, s.projects)
  }

  lemma MovedCurrent(s: System, s': System, c: nat, client: Client)
    requires AllCurrent(s) && s'.quotes == s.quotes && s'.projects == s.projects && s'.clients == s.clients[c := client]
    requires Current(client, s.quotes, s.projects)
    ensures AllCurrent(s')
  {
    forall d | d in s'.clients
      ensures Current(s'.clients[d], s.quotes, s.projects)
    {
      assert d != c ==> d in s.clients && s.clients[d] == s'.clients[d];
    }
  }

  lemma CheckedCurrent(cfg: Config, s: System, c: nat, now: int)
    requires AllCurrent(s)
    ensures AllCurrent(Checked(cfg, s, c, now))
  {
    var client := ClientOf(s, c);
    if client.READ? {
      assert Current(client, s.quotes, s.projects);
      if CheckQuote(cfg, s.quotes, client.project, client.req, now).None? {
        MovedCurrent(s, Checked(cfg, s, c, now), c, CHECKED(client.req, now));
      } else {
        MovedCurrent(s, Finished(s, c), c, IDLE);
      }
    }
  }

  lemma NextCurrent(s: System, s': System, c: nat, client: Client)
    requires AllCurrent(s) && s'.quotes == s.quotes && s'.projects == s.projects && s'.clients == s.clients[c := client]
    requires HasChecked(ClientOf(s, c)) && HasChecked(client) && client.req == ClientOf(s, c).req
    ensures AllCurrent(s')
  {
    assert Current(ClientOf(s, c), s.quotes, s.projects);
    MovedCurrent(s, s', c, client);
  }

  /** Quotes only close, are only added, and open quotes of an edited project close with the edit. */
  lemma TablesCurrent(s: System, s': System)
    requires AllCurrent(s) && s'.clients == s.clients && s.quotes.Keys <= s'.quotes.Keys && s.projects.Keys <= s'.projects.Keys
    requires forall id :: id in s.quotes ==>
               s'.quotes[id].project == s.quotes[id].project && s'.quotes[id].version == s.quotes[id].version &&
               s'.quotes[id].hash == s.quotes[id].hash && (s'.quotes[id].status.OPEN? ==> s.quotes[id].status.OPEN?)
    requires forall id, p :: id in s.quotes && p in s.projects && s'.quotes[id].status.OPEN? && s.quotes[id].project == p ==>
               s'.projects[p] == s.projects[p]
    ensures AllCurrent(s')
  {
    forall c | c in s'.clients
      ensures Current(s'.clients[c], s'.quotes, s'.projects)
    {
      assert Current(s.clients[c], s.quotes, s.projects);
    }
  }

  lemma ConsumedCurrent(s: System, s': System, req: Request, now: int)
    requires AllCurrent(s) && Starts(s, s', req, now)
    ensures AllCurrent(s')
  {
    TablesCurrent(s, s');
  }

  lemma CommittedCurrent(s: System, c: nat)
    requires Inv(s) && AllCurrent(s)
    ensures AllCurrent(Committed(s, c))
  {
    var client := ClientOf(s, c);
    MovedCurrent(s, Finished(s, c), c, IDLE);
    if client.ADMITTED? && Written(s, client.req, client.now).Some? {
      var s' := Written(s, client.req, client.now).value;
      assert Approves(client.req, s.quotes);
      CommitStarts(s, client.req, client.now);
      ConsumedCurrent(s, s', client.req, client.now);
      MovedCurrent(s', Finished(s', c), c, IDLE);
    }
  }

  lemma AdmittedCurrent(s: System, c: nat)
    requires AllCurrent(s)
    ensures AllCurrent(Admitted(s, c))
  {
    var client := ClientOf(s, c);
    MovedCurrent(s, Finished(s, c), c, IDLE);
    if client.PLANNED? && Admitted(s, c) != s && Admitted(s, c) != Finished(s, c) {
      NextCurrent(s, Admitted(s, c), c, ADMITTED(client.req, client.now));
    }
  }

  lemma BegunCurrent(s: System, c: nat, req: Request)
    requires AllCurrent(s)
    ensures AllCurrent(Begun(s, c, req))
  {
    if Begun(s, c, req) != s {
      MovedCurrent(s, Begun(s, c, req), c, READ(req, s.projects[req.project]));
    }
  }

  lemma PlanReadCurrent(cfg: Config, s: System, c: nat)
    requires AllCurrent(s)
    ensures AllCurrent(PlanRead(cfg, s, c))
  {
    var client := ClientOf(s, c);
    if client.CHECKED? {
      NextCurrent(s, PlanRead(cfg, s, c), c, PLANNED(client.req, client.now, LimitOf(cfg, s, client.req.ws)));
    }
  }

  lemma ClientStepCurrent(cfg: Config, s: System, e: Event)
    requires Inv(s) && AllCurrent(s) && IsClientStep(e)
    ensures AllCurrent(Step(cfg, s, e))
  {
    match e {
      case Begin(c, req) => BegunCurrent(s, c, req);
      case Check(c, now) => CheckedCurrent(cfg, s, c, now);
      case ReadPlan(c) => PlanReadCurrent(cfg, s, c);
      case Admit(c) => AdmittedCurrent(s, c);
      case Commit(c) => CommittedCurrent(s, c);
      case Abort(c) => MovedCurrent(s, Finished(s, c), c, IDLE);
    }
  }

  lemma EditedCurrent(s: System, id: string, hash: string)
    requires AllCurrent(s)
    ensures AllCurrent(Edited(s, id, hash))
  {
    TablesCurrent(s, Edited(s, id, hash));
  }

  /** Quotes are made or invalidated, projects created. */
  lemma QuotesCurrent(s: System, s': System)
    requires AllCurrent(s) && s'.clients == s.clients && s.projects.Keys <= s'.projects.Keys
    requires forall p :: p in s.projects ==> s'.projects[p] == s.projects[p]
    requires forall id :: id in s.quotes ==> id in s'.quotes && s'.quotes[id] in {s.quotes[id], s.quotes[id].(status := INVALIDATED)}
    ensures AllCurrent(s')
  {
    TablesCurrent(s, s');
  }

  lemma TableStepCurrent(cfg: Config, s: System, e: Event)
    requires AllCurrent(s) && Tasks.WellFormed(s.queue) && !IsClientStep(e)
    ensures AllCurrent(Step(cfg, s, e))
  {
    if e.EditProject? {
      EditedCurrent(s, e.id, e.hash);
    } else {
      QuotesCurrent(s, Step(cfg, s, e));
    }
  }

  lemma StepKeepsCurrent(cfg: Config, s: System, e: Event)
    requires Inv(s) && AllCurrent(s)
    ensures AllCurrent(Step(cfg, s, e))
  {
    if IsClientStep(e) {
      ClientStepCurrent(cfg, s, e);
    } else {
      TableStepCurrent(cfg, s, e);
    }
  }

  lemma {:induction false} EveryRunKeepsCurrent(cfg: Config, events: seq<Event>)
    ensures AllCurrent(Run(cfg, EMPTY, events))
  {
    if events != [] {
      var before := events[..|events| - 1];
      EveryRunKeepsInv(cfg, before);
      EveryRunKeepsCurrent(cfg, before);
      StepKeepsCurrent(cfg, Run(cfg, EMPTY, before), events[|events| - 1]);
    }
  }

  /** The project of the quote has the version and content it was quoted for. */
  ghost predicate AsQuoted(s: System, req: Request) {
    && req.quote in s.quotes && req.project in s.projects && s.quotes[req.quote].project == req.project
    && s.projects[req.project].version == s.quotes[req.quote].version && s.projects[req.project].hash == s.quotes[req.quote].hash
  }

  lemma CommittedAsQuoted(s: System, c: nat)
    requires Inv(s) && AllCurrent(s) && !Untouched(s, Committed(s, c))
    ensures ClientOf(s, c).ADMITTED? && AsQuoted(s, ClientOf(s, c).req) && Committed(s, c).projects == s.projects
  {
    var client := ClientOf(s, c);
    assert client.ADMITTED? && Written(s, client.req, client.now).Some?;
    assert Current(client, s.quotes, s.projects) && Approves(client.req, s.quotes);
    CommitStarts(s, client.req, client.now);
  }

  /**
   * Under every interleaving of starts, edits and quotes, even quotes made from a version read long before: when a start goes
   * through, its project still has the version and content it was quoted for.
   */
  lemma StartedAsQuoted(cfg: Config, events: seq<Event>, c: nat)
    ensures var s := Run(cfg, EMPTY, events);
            !Untouched(s, Committed(s, c)) ==>
              ClientOf(s, c).ADMITTED? && AsQuoted(s, ClientOf(s, c).req) && Committed(s, c).projects == s.projects
  {
    EveryRunKeepsInv(cfg, events);
    EveryRunKeepsCurrent(cfg, events);
    if !Untouched(Run(cfg, EMPTY, events), Committed(Run(cfg, EMPTY, events), c)) {
      CommittedAsQuoted(Run(cfg, EMPTY, events), c);
    }
  }
}
