/**
 * Starting renders: many transactions at once, split where they can interleave
 * (packages/server/src/services/captions.ts, packages/storage/src/postgres-store.ts).
 */
module RenderAdmission {
  import opened Common
  import Ledger
  import LedgerInvariant
  import Tasks

  datatype QuoteStatus = OPEN | CONSUMED(task: nat) | INVALIDATED | EXPIRED

  datatype Quote = Quote(ws: string, project: string, version: int, hash: string, price: string, cost: int,
                         status: QuoteStatus, expiresAt: int)

  datatype Project = Project(ws: string, version: int, hash: string)

  datatype Request = Request(ws: string, project: string, quote: string, approved: int, key: string)

  /**
   * Where a transaction stands: project read, quote checked, plan read, or admitted after counting, holding the billing row if
   * there is one.
   */
  datatype Client =
    | IDLE
    | READ(req: Request, project: Project)
    | CHECKED(req: Request, now: int)
    | PLANNED(req: Request, now: int, limit: nat)
    | ADMITTED(req: Request, now: int)

  datatype Config = Config(freeLimit: nat, price: string)

  /**
   * The committed tables, the running transactions, and who holds the billing row of each workspace. A workspace has its
   * billing row from its creation on; billing[ws] is how many active renders the plan in that row allows.
   */
  datatype System = System(credits: Ledger.Db, queue: Tasks.Queue, quotes: map<string, Quote>, projects: map<string, Project>,
                           billing: map<string, nat>, clients: map<nat, Client>, locks: map<string, nat>)

  datatype Event =
    | Begin(client: nat, req: Request)
    | Check(client: nat, now: int)
    | ReadPlan(client: nat)
    | Admit(client: nat)
    | Commit(client: nat)
    | Abort(client: nat)
    | TaskCall(task: Tasks.Event)
    | CreditCall(credit: LedgerInvariant.Call)
    | NewQuote(id: string, ws: string, project: string, version: int, hash: string, cost: int, expiresAt: int)
    | InvalidateQuotes(project: string)
    | CreateProject(id: string, ws: string, hash: string)
    | EditProject(id: string, hash: string)
    | CreateWorkspace(ws: string)
    | ChangePlan(ws: string, limit: nat)

  const EMPTY := System(Ledger.EMPTY, Tasks.EMPTY, map[], map[], map[], map[], map[])

  function ClientOf(s: System, c: nat): Client {
    if c in s.clients then s.clients[c] else IDLE
  }

  /** The limit of the plan, or of the free plan if there is no billing row. */
  function LimitOf(cfg: Config, s: System, ws: string): nat {
    if ws in s.billing then s.billing[ws] else cfg.freeLimit
  }

  // ---------------------------------------------------------------- the steps of one transaction

  datatype StartError =
    | NOT_FOUND | QUOTE_EXPIRED | QUOTE_INVALIDATED | QUOTE_MISMATCH | RATE_LIMITED | CREDITS(error: Ledger.Error)

  function EffectiveStatus(q: Quote, now: int): QuoteStatus {
    if q.status.OPEN? && q.expiresAt <= now then EXPIRED else q.status
  }

  /** What is checked of the quote against the project read before it. */
  function CheckQuote(cfg: Config, quotes: map<string, Quote>, p: Project, req: Request, now: int): Option<StartError> {
    if req.quote !in quotes || quotes[req.quote].ws != req.ws || quotes[req.quote].project != req.project then Some(NOT_FOUND)
    else
      var q := quotes[req.quote];
      match EffectiveStatus(q, now)
      case EXPIRED => Some(QUOTE_EXPIRED)
      case INVALIDATED => Some(QUOTE_INVALIDATED)
      case CONSUMED(_) => Some(QUOTE_INVALIDATED)
      case OPEN =>
        if q.version != p.version || q.hash != p.hash || q.price != cfg.price then Some(QUOTE_INVALIDATED)
        else if req.approved != q.cost then Some(QUOTE_MISMATCH)
        else None
  }

  predicate IsActiveRender(t: Tasks.Task, ws: string) {
    t.ws == ws && t.kind == Tasks.RENDER_EXPORT && (t.status.QUEUED? || t.status.RUNNING?)
  }

  function ActiveRenders(tasks: seq<Tasks.Task>, ws: string): nat {
    if tasks == [] then 0
    else ActiveRenders(tasks[..|tasks| - 1], ws) + (if IsActiveRender(tasks[|tasks| - 1], ws) then 1 else 0)
  }

  /** The billing row can be locked: there is none, it is free, or the transaction holds it. */
  predicate CanLock(s: System, c: nat, ws: string) {
    ws !in s.billing || ws !in s.locks || s.locks[ws] == c
  }

  function Unlocked(s: System, c: nat): map<string, nat> {
    map ws | ws in s.locks && s.locks[ws] != c :: s.locks[ws]
  }

  /** The transaction ends; locks are given up. */
  function Finished(s: System, c: nat): System {
    s.(clients := s.clients[c := IDLE], locks := Unlocked(s, c))
  }

  function Enqueued(queue: Tasks.Queue, req: Request, now: int): Tasks.Event {
    Tasks.Enqueue(req.ws, Tasks.RENDER_EXPORT, Some(req.key), Some(2), None, now)
  }

  /** The task an enqueue call answers with: the one under the key if there is one, else a new row. */
  function TaskFor(queue: Tasks.Queue, req: Request): nat {
    var found := Tasks.FindKey(queue.tasks, req.ws, Tasks.RENDER_EXPORT, req.key);
    if found.Some? then found.value else |queue.tasks|
  }

  /** Enqueue, reserve and consume, one after the other; None when any of them fails. */
  function Written(s: System, req: Request, now: int): (r: Option<System>)
    requires Tasks.WellFormed(s.queue)
    ensures r.Some? ==> Tasks.WellFormed(r.value.queue)
  {
    var task := TaskFor(s.queue, req);
    if req.quote !in s.quotes then None
    else
      var quote := s.quotes[req.quote];
      var reserved := Ledger.Reserve(s.credits, req.ws, req.quote, task, quote.cost, now);
      if reserved.Err? || quote.ws != req.ws || EffectiveStatus(quote, now) != OPEN then None
      else Some(s.(credits := reserved.value.db, queue := Tasks.Step(s.queue, Enqueued(s.queue, req, now)),
                   quotes := s.quotes[req.quote := quote.(status := CONSUMED(task))]))
  }

  function Moved(s: System, c: nat, client: Client): System {
    s.(clients := s.clients[c := client])
  }

  /** The project is read first. Ids of quotes are made up by the service, so a request can name existing quotes only. */
  function Begun(s: System, c: nat, req: Request): System {
    if !ClientOf(s, c).IDLE? || req.project !in s.projects || s.projects[req.project].ws != req.ws || req.quote !in s.quotes then s
    else Moved(s, c, READ(req, s.projects[req.project]))
  }

  function Checked(cfg: Config, s: System, c: nat, now: int): System {
    var client := ClientOf(s, c);
    if !client.READ? then s
    else if CheckQuote(cfg, s.quotes, client.project, client.req, now).Some? then Finished(s, c)
    else Moved(s, c, CHECKED(client.req, now))
  }

  function PlanRead(cfg: Config, s: System, c: nat): System {
    var client := ClientOf(s, c);
    if !client.CHECKED? then s else Moved(s, c, PLANNED(client.req, client.now, LimitOf(cfg, s, client.req.ws)))
  }

  function Admitted(s: System, c: nat): System {
    var client := ClientOf(s, c);
    if !client.PLANNED? || !CanLock(s, c, client.req.ws) then s
    else if ActiveRenders(s.queue.tasks, client.req.ws) >= client.limit then Finished(s, c)
    else Moved(s, c, ADMITTED(client.req, client.now)).(
           locks := if client.req.ws in s.billing then s.locks[client.req.ws := c] else s.locks)
  }

  function Committed(s: System, c: nat): (r: System)
    requires Tasks.WellFormed(s.queue)
    ensures Tasks.WellFormed(r.queue)
  {
    var client := ClientOf(s, c);
    if !client.ADMITTED? then s
    else
      var written := Written(s, client.req, client.now);
      if written.None? then Finished(s, c) else Finished(written.value, c)
  }

  // ---------------------------------------------------------------- the system

  /** Task calls of everyone else: renders are enqueued here only. */
  predicate Foreign(e: Tasks.Event) {
    e.Enqueue? ==> e.kind != Tasks.RENDER_EXPORT
  }

  /** Credit calls of everyone else: credits are reserved here only, and grants give. */
  predicate Harmless(c: LedgerInvariant.Call) {
    !c.ReserveCall? && (c.GrantCall? ==> c.amount >= 0)
  }

  function Invalidated(quotes: map<string, Quote>, project: string): map<string, Quote> {
    map id | id in quotes ::
      if quotes[id].project == project && quotes[id].status.OPEN? then quotes[id].(status := INVALIDATED) else quotes[id]
  }

  /** A quote is open when it is made; the version and hash it carries may have been read some time before. */
  function Quoted(cfg: Config, s: System, id: string, ws: string, project: string, version: int, hash: string, cost: int, expiresAt: int): System {
    if id in s.quotes || project !in s.projects || s.projects[project].ws != ws then s
    else s.(quotes := s.quotes[id := Quote(ws, project, version, hash, cfg.price, cost, OPEN, expiresAt)])
  }

  function ProjectCreated(s: System, id: string, ws: string, hash: string): System {
    if id in s.projects || ws !in s.billing then s else s.(projects := s.projects[id := Project(ws, 1, hash)])
  }

  /** An edit raises the version and invalidates the open quotes of the project in one transaction. */
  function Edited(s: System, id: string, hash: string): System {
    if id !in s.projects then s
    else
      var p := s.projects[id];
      s.(projects := s.projects[id := Project(p.ws, p.version + 1, hash)], quotes := Invalidated(s.quotes, id))
  }

  /** The effect of an event; one that cannot happen in the state, or fails, leaves the tables as they are. */
  function Step(cfg: Config, s: System, e: Event): (r: System)
    requires Tasks.WellFormed(s.queue)
    ensures Tasks.WellFormed(r.queue)
  {
    match e
    case Begin(c, req) => Begun(s, c, req)
    case Check(c, now) => Checked(cfg, s, c, now)
    case ReadPlan(c) => PlanRead(cfg, s, c)
    case Admit(c) => Admitted(s, c)
    case Commit(c) => Committed(s, c)
    case Abort(c) => Finished(s, c)
    case TaskCall(t) => if Foreign(t) then s.(queue := Tasks.Step(s.queue, t)) else s
    case CreditCall(call) => if Harmless(call) then s.(credits := LedgerInvariant.Apply(s.credits, call)) else s
    case NewQuote(id, ws, project, version, hash, cost, expiresAt) => Quoted(cfg, s, id, ws, project, version, hash, cost, expiresAt)
    case InvalidateQuotes(project) => s.(quotes := Invalidated(s.quotes, project))
    case CreateProject(id, ws, hash) => ProjectCreated(s, id, ws, hash)
    case EditProject(id, hash) => Edited(s, id, hash)
    case CreateWorkspace(ws) => if ws in s.billing then s else s.(billing := s.billing[ws := cfg.freeLimit])
    case ChangePlan(ws, limit) =>
      if ws !in s.billing || ws in s.locks then s else s.(billing := s.billing[ws := limit])
  }

  function Run(cfg: Config, s: System, events: seq<Event>): (r: System)
    requires Tasks.WellFormed(s.queue)
    ensures Tasks.WellFormed(r.queue)
  {
    if events == [] then s else Step(cfg, Run(cfg, s, events[..|events| - 1]), events[|events| - 1])
  }

  // ---------------------------------------------------------------- quotes, reservations and tasks stay in step

  /** The quote of a reservation is consumed by its task, at the quoted cost. */
  ghost predicate ReservationLinked(res: Ledger.Reservation, quotes: map<string, Quote>, tasks: seq<Tasks.Task>) {
    && res.quote in quotes && quotes[res.quote].status == CONSUMED(res.task) && quotes[res.quote].cost == res.amount
    && quotes[res.quote].ws == res.ws
    && res.task < |tasks| && tasks[res.task].kind == Tasks.RENDER_EXPORT && tasks[res.task].ws == res.ws
  }

  ghost predicate QuoteLinked(reservations: seq<Ledger.Reservation>, quotes: map<string, Quote>, id: string) {
    id in quotes && quotes[id].status.CONSUMED? ==> Ledger.FindQuote(reservations, id).Some?
  }

  ghost predicate TaskLinked(reservations: seq<Ledger.Reservation>, tasks: seq<Tasks.Task>, i: nat) {
    i < |tasks| && tasks[i].kind == Tasks.RENDER_EXPORT ==> Ledger.TaskUsed(reservations, i)
  }

  ghost predicate Linked(reservations: seq<Ledger.Reservation>, quotes: map<string, Quote>, tasks: seq<Tasks.Task>) {
    && (forall r :: 0 <= r < |reservations| ==> ReservationLinked(reservations[r], quotes, tasks))
    && (forall id :: QuoteLinked(reservations, quotes, id))
    && (forall i: nat :: TaskLinked(reservations, tasks, i))
  }

  /** A transaction that has checked its quote asks for an existing quote of its workspace at the approved cost. */
  ghost predicate Approves(req: Request, quotes: map<string, Quote>) {
    req.quote in quotes && quotes[req.quote].cost == req.approved && quotes[req.quote].ws == req.ws
  }

  /** The quote has been checked. */
  predicate HasChecked(client: Client) {
    client.CHECKED? || client.PLANNED? || client.ADMITTED?
  }

  ghost predicate ClientsOk(clients: map<nat, Client>, quotes: map<string, Quote>) {
    forall c :: c in clients && HasChecked(clients[c]) ==> Approves(clients[c].req, quotes)
  }

  ghost predicate Inv(s: System) {
    && Ledger.Inv(s.credits) && Tasks.WellFormed(s.queue)
    && Linked(s.credits.reservations, s.quotes, s.queue.tasks)
    && ClientsOk(s.clients, s.quotes)
  }
}
