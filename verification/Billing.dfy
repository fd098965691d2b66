/**
 * Billing events: what one delivery does, and why neither order nor repetition of deliveries matters
 * (packages/server/src/services/billing.ts, packages/storage/src/postgres-store.ts).
 */
module Billing {
  import opened Common
  import opened Sums
  import Spending
  import Ledger
  import LedgerInvariant

  datatype SubscriptionStatus = FREE | ACTIVE | PAST_DUE | CANCELED

  /** A row of billing_accounts. */
  datatype Account = Account(plan: string, status: SubscriptionStatus, periodEnd: Option<int>, cancelAtPeriodEnd: bool,
                             customer: Option<string>, subscription: Option<string>, eventAt: Option<int>)

  /**
   * A verified event with the fields its payload carries: whether its type starts with `membership.`, whether it reports a
   * successful payment, and the membership status it spells.
   */
  datatype Event = Event(id: string, at: int, ws: Option<string>, sku: Option<string>, membership: bool, paid: bool,
                         status: SubscriptionStatus, periodEnd: Option<int>, cancelAtPeriodEnd: Option<bool>,
                         customer: Option<string>, subscription: Option<string>)

  datatype Offer = Offer(plan: string, credits: nat)

  /** What can be bought: one-off credits, and plans with the credits one paid period brings. */
  datatype Catalog = Catalog(provider: string, topUps: map<string, nat>, plans: map<string, Offer>, rolloverMonths: nat)

  datatype Books = Books(credits: Ledger.Db, accounts: map<string, Account>, recorded: set<string>)

  datatype Delivery = Delivery(event: Event, now: int)

  // ---------------------------------------------------------------- one delivery

  function EventKey(provider: string, id: string): Spending.Key {
    Spending.Client("billing:" + provider + ":" + id)
  }

  predicate Actionable(accounts: map<string, Account>, e: Event) {
    e.ws.Some? && e.sku.Some? && e.ws.value in accounts
  }

  /** The event moves the subscription of the workspace. */
  predicate Subscribes(cat: Catalog, accounts: map<string, Account>, e: Event, ws: string) {
    && Actionable(accounts, e) && e.ws.value == ws && e.sku.value in cat.plans
    && (e.membership || (e.paid && e.sku.value !in cat.topUps))
  }

  /** The credits a first delivery of the event brings to the workspace. */
  function Bought(cat: Catalog, accounts: map<string, Account>, e: Event, ws: string): nat {
    if !Actionable(accounts, e) || e.ws.value != ws || e.membership || !e.paid then 0
    else if e.sku.value in cat.topUps then cat.topUps[e.sku.value]
    else if e.sku.value in cat.plans then cat.plans[e.sku.value].credits
    else 0
  }

  function OrElse<T>(a: Option<T>, b: Option<T>): Option<T> {
    if a.Some? then a else b
  }

  function EventStatus(e: Event): SubscriptionStatus {
    if e.membership then e.status else ACTIVE
  }

  function PlanOf(cat: Catalog, e: Event): string
    requires e.sku.Some? && e.sku.value in cat.plans
  {
    cat.plans[e.sku.value].plan
  }

  /** The row an event asks for; a membership event falls back on the previous row, a payment does not. */
  function Wanted(cat: Catalog, previous: Account, e: Event): Account
    requires e.sku.Some? && e.sku.value in cat.plans
  {
    var plan := PlanOf(cat, e);
    if e.membership then
      Account(plan, e.status, OrElse(e.periodEnd, previous.periodEnd),
              if e.cancelAtPeriodEnd.Some? then e.cancelAtPeriodEnd.value else previous.cancelAtPeriodEnd,
              OrElse(e.customer, previous.customer), OrElse(e.subscription, previous.subscription), Some(e.at))
    else
      Account(plan, ACTIVE, e.periodEnd, false, e.customer, e.subscription, Some(e.at))
  }

  /** The guarded upsert of an existing row: an event older than the row's is not applied. */
  function Upserted(accounts: map<string, Account>, ws: string, wanted: Account): map<string, Account>
    requires ws in accounts
  {
    var row := accounts[ws];
    if wanted.eventAt.None? || row.eventAt.None? || wanted.eventAt.value >= row.eventAt.value then accounts[ws := wanted]
    else accounts
  }

  /** The accounts after a first delivery. */
  function AccountsAfter(cat: Catalog, accounts: map<string, Account>, e: Event): map<string, Account> {
    if Actionable(accounts, e) && Subscribes(cat, accounts, e, e.ws.value)
    then Upserted(accounts, e.ws.value, Wanted(cat, accounts[e.ws.value], e))
    else accounts
  }

  /** Subscription credits expire some months after the period they pay for. */
  function Expiry(cat: Catalog, addMonths: (int, nat) -> Option<int>, e: Event): Option<int> {
    if e.periodEnd.Some? then addMonths(e.periodEnd.value, cat.rolloverMonths) else None
  }

  /** The grant a first delivery makes, if it makes one. */
  function GrantAfter(cat: Catalog, addMonths: (int, nat) -> Option<int>, s: Books, e: Event, now: int): Result<Ledger.Db, Ledger.Error> {
    if !Actionable(s.accounts, e) || e.membership || !e.paid then Ok(s.credits)
    else if e.sku.value in cat.topUps then
      Ledger.Grant(s.credits, e.ws.value, cat.topUps[e.sku.value], Spending.PURCHASED, None, EventKey(cat.provider, e.id), now)
    else if e.sku.value in cat.plans then
      Ledger.Grant(s.credits, e.ws.value, cat.plans[e.sku.value].credits, Spending.SUBSCRIPTION, Expiry(cat, addMonths, e),
                   EventKey(cat.provider, e.id), now)
    else Ok(s.credits)
  }

  /** One delivery: recorded once, then acted on; a delivery that throws is rolled back as a whole. */
  function Process(cat: Catalog, addMonths: (int, nat) -> Option<int>, s: Books, d: Delivery): Books {
    if d.event.id in s.recorded then s
    else
      var granted := GrantAfter(cat, addMonths, s, d.event, d.now);
      if granted.Err? then s
      else Books(granted.value, AccountsAfter(cat, s.accounts, d.event), s.recorded + {d.event.id})
  }

  function Run(cat: Catalog, addMonths: (int, nat) -> Option<int>, s: Books, ds: seq<Delivery>): Books {
    if ds == [] then s else Process(cat, addMonths, Run(cat, addMonths, s, ds[..|ds| - 1]), ds[|ds| - 1])
  }

  // ---------------------------------------------------------------- what every delivery keeps

  predicate IsKeyOf(entry: Ledger.Entry, provider: string, id: string) {
    entry.key == EventKey(provider, id)
  }

  /** Every ledger entry under an event's key stems from a recorded event. */
  ghost predicate KeysRecorded(provider: string, ledger: seq<Ledger.Entry>, recorded: set<string>) {
    forall i, id :: 0 <= i < |ledger| && IsKeyOf(ledger[i], provider, id) ==> id in recorded
  }

  ghost predicate Sound(cat: Catalog, s: Books) {
    Ledger.Inv(s.credits) && KeysRecorded(cat.provider, s.credits.ledger, s.recorded)
  }

  function TotalGranted(s: Books, ws: string): int {
    Sum(Ledger.Grants(s.credits.ledger, ws))
  }

  lemma KeysDiffer(provider: string, a: string, b: string)
    requires EventKey(provider, a) == EventKey(provider, b)
    ensures a == b
  {
    var p := "billing:" + provider + ":";
    assert (p + a)[|p|..] == a && (p + b)[|p|..] == b;
  }

  lemma KeysStayRecorded(provider: string, ledger: seq<Ledger.Entry>, recorded: set<string>, entry: Ledger.Entry, id: string)
    requires KeysRecorded(provider, ledger, recorded) && entry.key == EventKey(provider, id)
    ensures KeysRecorded(provider, ledger + [entry], recorded + {id})
  {
    forall i, x | 0 <= i < |ledger| + 1 && IsKeyOf((ledger + [entry])[i], provider, x)
      ensures x in recorded + {id}
    {
      if i < |ledger| {
        assert IsKeyOf(ledger[i], provider, x);
      } else {
        KeysDiffer(provider, x, id);
      }
    }
  }

  /** A grant under the key of an event not recorded before. */
  lemma FreshGrant(cat: Catalog, s: Books, ws: string, amount: nat, kind: Spending.PoolKind, expiresAt: Option<int>, id: string, now: int)
    requires Sound(cat, s) && id !in s.recorded
    ensures var g := Ledger.Grant(s.credits, ws, amount, kind, expiresAt, EventKey(cat.provider, id), now);
            && g.Ok? && Ledger.Inv(g.value) && KeysRecorded(cat.provider, g.value.ledger, s.recorded + {id})
            && forall w :: Sum(Ledger.Grants(g.value.ledger, w)) == TotalGranted(s, w) + (if w == ws then amount else 0)
  {
    var key := EventKey(cat.provider, id);
    assert !Ledger.KeyUsed(s.credits.ledger, ws, key) by {
      forall i | 0 <= i < |s.credits.ledger|
        ensures s.credits.ledger[i].key != key
      {
        assert IsKeyOf(s.credits.ledger[i], cat.provider, id) <==> s.credits.ledger[i].key == key;
      }
    }
    LedgerInvariant.GrantKeepsInv(s.credits, ws, amount, kind, expiresAt, key, now);
    var g := Ledger.Granted(s.credits, ws, amount, kind, expiresAt, key, now);
    var entry := g.ledger[|s.credits.ledger|];
    assert g.ledger == s.credits.ledger + [entry];
    KeysStayRecorded(cat.provider, s.credits.ledger, s.recorded, entry, id);
    forall w
      ensures Sum(Ledger.Grants(g.ledger, w)) == TotalGranted(s, w) + (if w == ws then amount else 0)
    {
      LedgerInvariant.EntryAppended(s.credits.ledger, entry, w);
    }
  }

  lemma FirstDelivery(cat: Catalog, addMonths: (int, nat) -> Option<int>, s: Books, d: Delivery)
    requires Sound(cat, s) && d.event.id !in s.recorded
    ensures var s' := Process(cat, addMonths, s, d);
            && Sound(cat, s') && s'.recorded == s.recorded + {d.event.id} && s'.accounts == AccountsAfter(cat, s.accounts, d.event)
            && forall w :: TotalGranted(s', w) == TotalGranted(s, w) + Bought(cat, s.accounts, d.event, w)
  {
    var e := d.event;
    if Actionable(s.accounts, e) && !e.membership && e.paid {
      if e.sku.value in cat.topUps {
        FreshGrant(cat, s, e.ws.value, cat.topUps[e.sku.value], Spending.PURCHASED, None, e.id, d.now);
      } else if e.sku.value in cat.plans {
        FreshGrant(cat, s, e.ws.value, cat.plans[e.sku.value].credits, Spending.SUBSCRIPTION, Expiry(cat, addMonths, e), e.id, d.now);
      }
    }
  }

  lemma AccountsKeepKeys(cat: Catalog, accounts: map<string, Account>, e: Event)
    ensures AccountsAfter(cat, accounts, e).Keys == accounts.Keys
  {
  }

  // ---------------------------------------------------------------- sets of deliveries

  /** The events among the deliveries that had not been recorded before. */
  ghost function Fresh(ds: seq<Delivery>, recorded: set<string>): set<Event> {
    set d | d in ds && d.event.id !in recorded :: d.event
  }

  ghost function Ids(ds: seq<Delivery>): set<string> {
    set d | d in ds :: d.event.id
  }

  /** Deliveries of the same id carry the same event. */
  ghost predicate IdsNameEvents(ds: seq<Delivery>) {
    forall c, d :: c in ds && d in ds && c.event.id == d.event.id ==> c.event == d.event
  }

  lemma Extended(ds: seq<Delivery>, d: Delivery, recorded: set<string>)
    requires IdsNameEvents(ds + [d])
    ensures IdsNameEvents(ds) && Ids(ds + [d]) == Ids(ds) + {d.event.id}
    ensures if d.event.id in recorded + Ids(ds) then Fresh(ds + [d], recorded) == Fresh(ds, recorded)
            else d.event !in Fresh(ds, recorded) && Fresh(ds + [d], recorded) == Fresh(ds, recorded) + {d.event}
  {
    assert forall c :: c in ds + [d] <==> c in ds || c == d;
    if d.event.id in Ids(ds) {
      var c :| c in ds && c.event.id == d.event.id;
      assert c in ds + [d];
      assert c.event == d.event;
    }
  }

  /** The credits bought by a set of events. */
  ghost function TotalBought(cat: Catalog, accounts: map<string, Account>, es: set<Event>, ws: string): int {
    if es == {} then 0
    else var e :| e in es; Bought(cat, accounts, e, ws) + TotalBought(cat, accounts, es - {e}, ws)
  }

  lemma {:induction false} BoughtAdds(cat: Catalog, accounts: map<string, Account>, es: set<Event>, e: Event, ws: string)
    requires e !in es
    ensures TotalBought(cat, accounts, es + {e}, ws) == TotalBought(cat, accounts, es, ws) + Bought(cat, accounts, e, ws)
    decreases |es|
  {
    var all := es + {e};
    var x :| x in all && TotalBought(cat, accounts, all, ws) == Bought(cat, accounts, x, ws) + TotalBought(cat, accounts, all - {x}, ws);
    if x == e {
      assert all - {x} == es;
    } else {
      assert all - {x} == (es - {x}) + {e};
      BoughtAdds(cat, accounts, es - {x}, e, ws);
      BoughtAdds(cat, accounts, es - {x}, x, ws);
      assert (es - {x}) + {x} == es;
    }
  }

  // ---------------------------------------------------------------- credits

  /** One delivery, for any accounts of the same workspaces. */
  lemma DeliveryCredits(cat: Catalog, addMonths: (int, nat) -> Option<int>, r: Books, d: Delivery, accounts: map<string, Account>, ws: string)
    requires Sound(cat, r) && r.accounts.Keys == accounts.Keys
    ensures var r' := Process(cat, addMonths, r, d);
            && Sound(cat, r') && r'.recorded == r.recorded + {d.event.id} && r'.accounts.Keys == accounts.Keys
            && TotalGranted(r', ws) ==
               TotalGranted(r, ws) + (if d.event.id in r.recorded then 0 else Bought(cat, accounts, d.event, ws))
  {
    if d.event.id !in r.recorded {
      FirstDelivery(cat, addMonths, r, d);
      AccountsKeepKeys(cat, r.accounts, d.event);
    }
  }

  /** What holds of the books `r` after the deliveries `ds`, for workspace `ws`. */
  ghost predicate Kept(cat: Catalog, s: Books, ds: seq<Delivery>, r: Books, ws: string) {
    && Sound(cat, r) && r.recorded == s.recorded + Ids(ds) && r.accounts.Keys == s.accounts.Keys
    && TotalGranted(r, ws) == TotalGranted(s, ws) + TotalBought(cat, s.accounts, Fresh(ds, s.recorded), ws)
  }

  lemma DeliveryKept(cat: Catalog, addMonths: (int, nat) -> Option<int>, s: Books, before: seq<Delivery>, d: Delivery, r: Books, ws: string)
    requires Kept(cat, s, before, r, ws) && IdsNameEvents(before + [d])
    ensures Kept(cat, s, before + [d], Process(cat, addMonths, r, d), ws)
  {
    Extended(before, d, s.recorded);
    DeliveryCredits(cat, addMonths, r, d, s.accounts, ws);
    if d.event.id !in s.recorded + Ids(before) {
      BoughtAdds(cat, s.accounts, Fresh(before, s.recorded), d.event, ws);
    }
  }

  lemma {:induction false} RunBooks(cat: Catalog, addMonths: (int, nat) -> Option<int>, s: Books, ds: seq<Delivery>, ws: string)
    requires Sound(cat, s) && IdsNameEvents(ds)
    ensures var r := Run(cat, addMonths, s, ds);
            Sound(cat, r) && r.recorded == s.recorded + Ids(ds) && r.accounts.Keys == s.accounts.Keys
    ensures TotalGranted(Run(cat, addMonths, s, ds), ws) ==
            TotalGranted(s, ws) + TotalBought(cat, s.accounts, Fresh(ds, s.recorded), ws)
  {
    if ds == [] {
      assert Fresh(ds, s.recorded) == {} && Ids(ds) == {};
    } else {
      var before, d := ds[..|ds| - 1], ds[|ds| - 1];
      assert ds == before + [d];
      assert IdsNameEvents(before);
      RunBooks(cat, addMonths, s, before, ws);
      DeliveryKept(cat, addMonths, s, before, d, Run(cat, addMonths, s, before), ws);
    }
  }

  /**
   * Each workspace is granted the sum over the distinct successful payments delivered for it, whatever their order and
   * however often each is delivered.
   */
  lemma CreditsIgnoreOrder(cat: Catalog, addMonths: (int, nat) -> Option<int>, s: Books, ds: seq<Delivery>, ds': seq<Delivery>, ws: string)
    requires Sound(cat, s) && IdsNameEvents(ds) && IdsNameEvents(ds') && Fresh(ds, s.recorded) == Fresh(ds', s.recorded)
    ensures TotalGranted(Run(cat, addMonths, s, ds), ws) == TotalGranted(Run(cat, addMonths, s, ds'), ws)
  {
    RunBooks(cat, addMonths, s, ds, ws);
    RunBooks(cat, addMonths, s, ds', ws);
  }

  // ---------------------------------------------------------------- subscriptions

  predicate AtMost(a: Option<int>, b: Option<int>) {
    a.None? || (b.Some? && a.value <= b.value)
  }

  /** The row's time is the latest of where it started and the times of the subscription events. */
  ghost predicate IsLatest(cat: Catalog, accounts: map<string, Account>, es: set<Event>, ws: string, first: Option<int>, at: Option<int>) {
    && AtMost(first, at) && (forall e :: e in es && Subscribes(cat, accounts, e, ws) ==> AtMost(Some(e.at), at))
    && (at == first || exists e :: e in es && Subscribes(cat, accounts, e, ws) && at == Some(e.at))
  }

  /** A subscription event of the workspace that is not older than time `at`. */
  ghost predicate Counts(cat: Catalog, accounts: map<string, Account>, e: Event, ws: string, at: Option<int>) {
    Subscribes(cat, accounts, e, ws) && AtMost(at, Some(e.at))
  }

  /** The row is as it was and no event counts, or its plan and status are those of an event of its time. */
  ghost predicate Shows(cat: Catalog, accounts: map<string, Account>, es: set<Event>, ws: string, first: Account, row: Account) {
    || (row == first && forall e :: e in es ==> !Counts(cat, accounts, e, ws, first.eventAt))
    || exists e :: e in es && ShownBy(cat, accounts, e, ws, first, row)
  }

  ghost predicate ShownBy(cat: Catalog, accounts: map<string, Account>, e: Event, ws: string, first: Account, row: Account) {
    && Counts(cat, accounts, e, ws, first.eventAt) && row.eventAt == Some(e.at)
    && row.plan == PlanOf(cat, e) && row.status == EventStatus(e)
  }

  lemma SubscribesByKeys(cat: Catalog, accounts: map<string, Account>, accounts': map<string, Account>, e: Event, ws: string)
    requires accounts.Keys == accounts'.Keys
    ensures Subscribes(cat, accounts, e, ws) == Subscribes(cat, accounts', e, ws)
  {
  }

  /** The row after one more event. */
  lemma RowAfter(cat: Catalog, accounts: map<string, Account>, e: Event, ws: string)
    requires ws in accounts
    ensures var (row, row') := (accounts[ws], AccountsAfter(cat, accounts, e)[ws]);
            if !Subscribes(cat, accounts, e, ws) || !AtMost(row.eventAt, Some(e.at)) then row' == row
            else row'.eventAt == Some(e.at) && row'.plan == PlanOf(cat, e) && row'.status == EventStatus(e)
  {
  }

  lemma LatestStays(cat: Catalog, accounts: map<string, Account>, es: set<Event>, e: Event, ws: string, first: Option<int>, at: Option<int>, at': Option<int>)
    requires IsLatest(cat, accounts, es, ws, first, at)
    requires if !Subscribes(cat, accounts, e, ws) || !AtMost(at, Some(e.at)) then at' == at else at' == Some(e.at)
    ensures IsLatest(cat, accounts, es + {e}, ws, first, at') && AtMost(at, at')
  {
    if at' == Some(e.at) && Subscribes(cat, accounts, e, ws) {
      assert e in es + {e};
    } else if at != first {
      var x :| x in es && Subscribes(cat, accounts, x, ws) && at == Some(x.at);
      assert x in es + {e};
    }
  }

  lemma ShowsStays(cat: Catalog, accounts: map<string, Account>, es: set<Event>, e: Event, ws: string, first: Account, row: Account, row': Account)
    requires Shows(cat, accounts, es, ws, first, row) && AtMost(first.eventAt, row.eventAt)
    requires if !Counts(cat, accounts, e, ws, row.eventAt) then row' == row
             else row'.eventAt == Some(e.at) && row'.plan == PlanOf(cat, e) && row'.status == EventStatus(e)
    ensures Shows(cat, accounts, es + {e}, ws, first, row')
  {
    if Counts(cat, accounts, e, ws, row.eventAt) {
      assert ShownBy(cat, accounts, e, ws, first, row');
      assert e in es + {e};
    } else if x :| x in es && ShownBy(cat, accounts, x, ws, first, row) {
      assert x in es + {e} && ShownBy(cat, accounts, x, ws, first, row');
    }
  }

  /** Over any deliveries the row's time never goes back and ends as the latest; its plan and status are those of that event. */
  lemma {:induction false} LatestEventWins(cat: Catalog, addMonths: (int, nat) -> Option<int>, s: Books, ds: seq<Delivery>, ws: string)
    requires Sound(cat, s) && IdsNameEvents(ds) && ws in s.accounts
    ensures var r := Run(cat, addMonths, s, ds);
            && ws in r.accounts
            && IsLatest(cat, s.accounts, Fresh(ds, s.recorded), ws, s.accounts[ws].eventAt, r.accounts[ws].eventAt)
            && Shows(cat, s.accounts, Fresh(ds, s.recorded), ws, s.accounts[ws], r.accounts[ws])
    ensures ds != [] ==>
              var before := Run(cat, addMonths, s, ds[..|ds| - 1]);
              ws in before.accounts && AtMost(before.accounts[ws].eventAt, Run(cat, addMonths, s, ds).accounts[ws].eventAt)
  {
    if ds != [] {
      var before, d := ds[..|ds| - 1], ds[|ds| - 1];
      assert ds == before + [d];
      Extended(before, d, s.recorded);
      RunBooks(cat, addMonths, s, before, ws);
      LatestEventWins(cat, addMonths, s, before, ws);
      var r := Run(cat, addMonths, s, before);
      if d.event.id !in r.recorded {
        FirstDelivery(cat, addMonths, r, d);
        AccountsKeepKeys(cat, r.accounts, d.event);
        RowAfter(cat, r.accounts, d.event, ws);
        SubscribesByKeys(cat, r.accounts, s.accounts, d.event, ws);
        var row, row' := r.accounts[ws], AccountsAfter(cat, r.accounts, d.event)[ws];
        LatestStays(cat, s.accounts, Fresh(before, s.recorded), d.event, ws, s.accounts[ws].eventAt, row.eventAt, row'.eventAt);
        ShowsStays(cat, s.accounts, Fresh(before, s.recorded), d.event, ws, s.accounts[ws], row, row');
      }
    }
  }

  lemma LatestIsUnique(cat: Catalog, accounts: map<string, Account>, es: set<Event>, ws: string, first: Option<int>, a: Option<int>, b: Option<int>)
    requires IsLatest(cat, accounts, es, ws, first, a) && IsLatest(cat, accounts, es, ws, first, b)
    ensures a == b
  {
    assert AtMost(a, b) && AtMost(b, a);
  }

  // ---------------------------------------------------------------- when the order of deliveries shows

  /** The deliveries bring exactly the new events `es`, in some order, each as often as they like. */
  ghost predicate Delivers(s: Books, ds: seq<Delivery>, es: set<Event>) {
    IdsNameEvents(ds) && Fresh(ds, s.recorded) == es
  }

  /** New events, each under an id of its own. */
  ghost predicate NewEvents(s: Books, es: set<Event>) {
    && (forall e :: e in es ==> e.id !in s.recorded)
    && (forall e, f :: e in es && f in es && e.id == f.id ==> e == f)
  }

  /** e is a subscription event that counts, and none of the set is later. */
  ghost predicate IsTop(cat: Catalog, accounts: map<string, Account>, es: set<Event>, ws: string, e: Event)
    requires ws in accounts
  {
    && e in es && Counts(cat, accounts, e, ws, accounts[ws].eventAt)
    && forall g :: g in es && Subscribes(cat, accounts, g, ws) ==> g.at <= e.at
  }

  /** Any set of new events can be delivered, in some order, once each. */
  lemma {:induction false} SomeOrder(s: Books, es: set<Event>) returns (ds: seq<Delivery>)
    requires NewEvents(s, es)
    ensures Delivers(s, ds, es) && forall d :: d in ds ==> d.event in es
    decreases |es|
  {
    if es == {} {
      ds := [];
    } else {
      var e :| e in es;
      var before := SomeOrder(s, es - {e});
      ds := before + [Delivery(e, 0)];
      LastDelivered(s, before, es - {e}, e);
      assert es == es - {e} + {e};
    }
  }

  lemma LastDelivered(s: Books, before: seq<Delivery>, es: set<Event>, e: Event)
    requires Delivers(s, before, es) && (forall d :: d in before ==> d.event in es)
    requires e.id !in s.recorded && forall f :: f in es ==> f.id != e.id
    ensures Delivers(s, before + [Delivery(e, 0)], es + {e}) && e.id !in Ids(before)
    ensures forall d :: d in before + [Delivery(e, 0)] ==> d.event in es + {e}
  {
    var ds := before + [Delivery(e, 0)];
    assert forall d :: d in ds <==> d in before || d == Delivery(e, 0);
    assert Fresh(ds, s.recorded) == es + {e};
  }

  /** No row that the other events left is later than a latest event. */
  lemma TopIsNotOlder(cat: Catalog, accounts: map<string, Account>, es: set<Event>, others: set<Event>, ws: string, e: Event, at: Option<int>)
    requires ws in accounts && IsTop(cat, accounts, es, ws, e) && others <= es
    requires IsLatest(cat, accounts, others, ws, accounts[ws].eventAt, at)
    ensures AtMost(at, Some(e.at))
  {
    if at != accounts[ws].eventAt {
      var g :| g in others && Subscribes(cat, accounts, g, ws) && at == Some(g.at);
      assert g in es;
    }
  }

  lemma RunSnoc(cat: Catalog, addMonths: (int, nat) -> Option<int>, s: Books, before: seq<Delivery>, d: Delivery)
    ensures Run(cat, addMonths, s, before + [d]) == Process(cat, addMonths, Run(cat, addMonths, s, before), d)
  {
    assert (before + [d])[..|before|] == before;
  }

  /** However a set of new events is delivered, the row ends at the same time. */
  lemma EventTimeIgnoresOrder(cat: Catalog, addMonths: (int, nat) -> Option<int>, s: Books, es: set<Event>, ds: seq<Delivery>, ds': seq<Delivery>, ws: string)
    requires Sound(cat, s) && ws in s.accounts && Delivers(s, ds, es) && Delivers(s, ds', es)
    ensures var (r, r') := (Run(cat, addMonths, s, ds), Run(cat, addMonths, s, ds'));
            ws in r.accounts && ws in r'.accounts && r.accounts[ws].eventAt == r'.accounts[ws].eventAt
  {
    LatestEventWins(cat, addMonths, s, ds, ws);
    LatestEventWins(cat, addMonths, s, ds', ws);
    LatestIsUnique(cat, s.accounts, es, ws, s.accounts[ws].eventAt,
                   Run(cat, addMonths, s, ds).accounts[ws].eventAt, Run(cat, addMonths, s, ds').accounts[ws].eventAt);
  }

  /** Two updates of one row commute exactly when they are the same, differ in time, or are both older than the row. */
  lemma UpsertsCommuteExactly(accounts: map<string, Account>, ws: string, a: Account, b: Account)
    requires ws in accounts && a.eventAt.Some? && b.eventAt.Some?
    ensures Upserted(Upserted(accounts, ws, a), ws, b) == Upserted(Upserted(accounts, ws, b), ws, a) <==>
            a == b || a.eventAt != b.eventAt || !AtMost(accounts[ws].eventAt, a.eventAt)
  {
    var ab, ba := Upserted(Upserted(accounts, ws, a), ws, b), Upserted(Upserted(accounts, ws, b), ws, a);
    assert ab == ba <==> ab[ws] == ba[ws];
  }
}
