/** The store calls of a render start, in order (packages/server/src/services/captions.ts, packages/storage/src/postgres-store.ts). */
module RenderService {
  import opened Common
  import opened RenderAdmission
  import Tasks
  import CreditStore
  import TaskStore

  datatype ConsumeOutcome = WON | EXPIRED_NOW | INVALID | ALREADY_CONSUMED | MISSING

  class RenderStore {
    const credits: CreditStore.Store
    const tasks: TaskStore.Store
    var quotes: map<string, Quote>

    function State(): System
      reads this, credits, tasks
    {
      System(credits.Tables(), tasks.State(), quotes, map[], map[], map[], map[])
    }

    ghost predicate Valid()
      reads this, credits, tasks
    {
      credits.Valid() && Tasks.WellFormed(tasks.State())
    }

    constructor (credits: CreditStore.Store, tasks: TaskStore.Store)
      requires credits.Valid() && Tasks.WellFormed(tasks.State())
      ensures Valid() && this.credits == credits && this.tasks == tasks && quotes == map[]
    {
      this.credits, this.tasks, quotes := credits, tasks, map[];
    }

    /** Counted after the billing row is locked. */
    method CountActiveRenderTasks(ws: string) returns (n: nat)
      requires Valid()
      ensures n == ActiveRenders(tasks.tasks, ws)
    {
      n := 0;
      for i := 0 to |tasks.tasks|
        invariant n == ActiveRenders(tasks.tasks[..i], ws)
      {
        assert tasks.tasks[..i + 1][..i] == tasks.tasks[..i];
        if IsActiveRender(tasks.tasks[i], ws) {
          n := n + 1;
        }
      }
      assert tasks.tasks[..|tasks.tasks|] == tasks.tasks;
    }

    /** Guarded transition: an open, unexpired quote of the workspace moves to consumed; an expired one is marked. */
    method ConsumeQuote(ws: string, id: string, task: nat, now: int) returns (outcome: ConsumeOutcome)
      modifies this`quotes
      ensures outcome.WON? <==> id in old(quotes) && old(quotes)[id].ws == ws && EffectiveStatus(old(quotes)[id], now).OPEN?
      ensures outcome.MISSING? <==> id !in old(quotes) || old(quotes)[id].ws != ws
      ensures outcome.WON? ==> quotes == old(quotes)[id := old(quotes)[id].(status := CONSUMED(task))]
      ensures outcome.EXPIRED_NOW? ==> id in old(quotes) && EffectiveStatus(old(quotes)[id], now).EXPIRED? &&
                                       quotes == old(quotes)[id := old(quotes)[id].(status := EXPIRED)]
      ensures outcome.INVALID? ==> id in old(quotes) && old(quotes)[id].status.INVALIDATED? && quotes == old(quotes)
      ensures outcome.ALREADY_CONSUMED? ==> id in old(quotes) && old(quotes)[id].status.CONSUMED? && quotes == old(quotes)
      ensures outcome.MISSING? ==> quotes == old(quotes)
    {
      if id !in quotes || quotes[id].ws != ws {
        return MISSING;
      }
      var quote := quotes[id];
      if quote.status.OPEN? && quote.expiresAt > now {
        quotes := quotes[id := quote.(status := CONSUMED(task))];
        return WON;
      }
      var status := EffectiveStatus(quote, now);
      if status.EXPIRED? {
        if quote.status.OPEN? {
          quotes := quotes[id := quote.(status := EXPIRED)];
        }
        assert quotes == old(quotes)[id := quote.(status := EXPIRED)];
        return EXPIRED_NOW;
      }
      outcome := if status.INVALIDATED? then INVALID else ALREADY_CONSUMED;
    }

    /** The writes of an admitted start: task, reservation and quote together, or none of them. */
    method WriteRender(req: Request, now: int) returns (r: Result<nat, StartError>)
      requires Valid() && Approves(req, quotes) && req.key != ""
      modifies this, credits, tasks
      ensures Valid()
      ensures match Written(old(State()), req, now)
              case Some(s) => State() == s && r == Ok(TaskFor(old(State()).queue, req))
              case None => State() == old(State()) && r.Err?
    {
      var credits0, tasks0, quotes0 := credits.Tables(), tasks.State(), quotes;
      var quote := quotes[req.quote];
      var enqueued := tasks.EnqueueTask(req.ws, Tasks.RENDER_EXPORT, Some(req.key), Some(2), None, now);
      var task := enqueued.value;
      var reserved := credits.ReserveCredits(req.ws, req.quote, task, quote.cost, now);
      if reserved.Err? {
        tasks.Rollback(tasks0);
        return Err(CREDITS(reserved.error));
      }
      var consumed := ConsumeQuote(req.ws, req.quote, task, now);
      if !consumed.WON? {
        credits.Rollback(credits0);
        tasks.Rollback(tasks0);
        quotes := quotes0;
        return Err(QUOTE_INVALIDATED);
      }
      r := Ok(task);
    }
  }
}
