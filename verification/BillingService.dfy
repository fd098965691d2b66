/** The webhook transaction as ordered store writes (packages/server/src/services/billing.ts). */
module BillingService {
  import opened Common
  import opened Billing
  import Spending
  import Ledger
  import CreditStore

  class Webhooks {
    const catalog: Catalog
    const addMonths: (int, nat) -> Option<int>
    const store: CreditStore.Store
    var accounts: map<string, Account>
    var recorded: set<string>

    function State(): Books
      reads this, store
    {
      Books(store.Tables(), accounts, recorded)
    }

    ghost predicate Valid()
      reads this, store
    {
      Sound(catalog, State())
    }

    constructor (catalog: Catalog, addMonths: (int, nat) -> Option<int>, store: CreditStore.Store, accounts: map<string, Account>)
      requires Sound(catalog, Books(store.Tables(), accounts, {}))
      ensures Valid() && this.store == store && State() == Books(store.Tables(), accounts, {})
    {
      this.catalog, this.addMonths, this.store := catalog, addMonths, store;
      this.accounts, this.recorded := accounts, {};
    }

    method RecordBillingEvent(id: string) returns (created: bool)
      modifies this`recorded
      ensures created == (id !in old(recorded)) && recorded == old(recorded) + {id}
    {
      created := id !in recorded;
      recorded := recorded + {id};
    }

    method UpsertBillingAccount(ws: string, wanted: Account)
      requires ws in accounts
      modifies this`accounts
      ensures accounts == Upserted(old(accounts), ws, wanted)
      ensures accounts.Keys == old(accounts).Keys && forall w :: w in accounts && w != ws ==> accounts[w] == old(accounts)[w]
      ensures wanted.eventAt.Some? && !AtMost(old(accounts)[ws].eventAt, wanted.eventAt) ==> accounts == old(accounts)
      ensures wanted.eventAt.None? || AtMost(old(accounts)[ws].eventAt, wanted.eventAt) ==> accounts[ws] == wanted
      ensures wanted.eventAt.Some? ==>
                AtMost(old(accounts)[ws].eventAt, accounts[ws].eventAt) && AtMost(wanted.eventAt, accounts[ws].eventAt)
    {
      var row := accounts[ws];
      if wanted.eventAt.None? || row.eventAt.None? || wanted.eventAt.value >= row.eventAt.value {
        accounts := accounts[ws := wanted];
      }
    }

    /** Handle one verified delivery; duplicates of a recorded event are acknowledged and change nothing. */
    method ProcessWebhook(event: Event, now: int) returns (duplicate: bool)
      requires Valid()
      modifies this, store
      ensures Valid() && State() == Process(catalog, addMonths, old(State()), Delivery(event, now))
      ensures duplicate == (event.id in old(recorded))
      ensures duplicate ==> State() == old(State())
    {
      ghost var s := State();
      var actionable := Actionable(accounts, event);
      var created := RecordBillingEvent(event.id);
      if !created {
        assert recorded == s.recorded;
        return true;
      }
      FirstDelivery(catalog, addMonths, s, Delivery(event, now));
      duplicate := false;
      if !actionable {
        return;
      }
      var ws, sku := event.ws.value, event.sku.value;
      if event.membership {
        if sku in catalog.plans {
          UpsertBillingAccount(ws, Wanted(catalog, accounts[ws], event));
        }
        return;
      }
      if !event.paid {
        return;
      }
      if sku in catalog.topUps {
        Grant(ws, catalog.topUps[sku], Spending.PURCHASED, None, event.id, now, s);
        return;
      }
      if sku !in catalog.plans {
        return;
      }
      UpsertBillingAccount(ws, Wanted(catalog, accounts[ws], event));
      Grant(ws, catalog.plans[sku].credits, Spending.SUBSCRIPTION, Expiry(catalog, addMonths, event), event.id, now, s);
    }

    method Grant(ws: string, amount: nat, kind: Spending.PoolKind, expiresAt: Option<int>, id: string, now: int, ghost s: Books)
      requires Sound(catalog, s) && id !in s.recorded && store.Tables() == s.credits
      modifies store
      ensures Ledger.Grant(s.credits, ws, amount, kind, expiresAt, EventKey(catalog.provider, id), now) == Ok(store.Tables())
    {
      var _ := store.GrantCredits(ws, amount, kind, expiresAt, EventKey(catalog.provider, id), now);
    }
  }
}
