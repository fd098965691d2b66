/** Which fields of a billing account depend on the order of deliveries (packages/server/src/services/billing.ts). */
module BillingOrder {
  import opened Common
  import opened Billing

  // ---------------------------------------------------------------- fields

  datatype Field = PLAN | STATUS | PERIOD_END | CANCEL | CUSTOMER | SUBSCRIPTION

  datatype Value = Text(text: Option<string>) | Time(time: Option<int>) | Flag(flag: bool) | State(state: SubscriptionStatus)

  function ValueOf(row: Account, f: Field): Value {
    match f
    case PLAN => Text(Some(row.plan))
    case STATUS => State(row.status)
    case PERIOD_END => Time(row.periodEnd)
    case CANCEL => Flag(row.cancelAtPeriodEnd)
    case CUSTOMER => Text(row.customer)
    case SUBSCRIPTION => Text(row.subscription)
  }

  /** The event sets the field: a payment sets all of them, a membership event those it carries. */
  predicate Sets(e: Event, f: Field) {
    !e.membership ||
    match f
    case PLAN => true
    case STATUS => true
    case PERIOD_END => e.periodEnd.Some?
    case CANCEL => e.cancelAtPeriodEnd.Some?
    case CUSTOMER => e.customer.Some?
    case SUBSCRIPTION => e.subscription.Some?
  }

  /** What it sets the field to. */
  function SetTo(cat: Catalog, e: Event, f: Field): Value
    requires e.sku.Some? && e.sku.value in cat.plans
  {
    match f
    case PLAN => Text(Some(PlanOf(cat, e)))
    case STATUS => State(EventStatus(e))
    case PERIOD_END => Time(e.periodEnd)
    case CANCEL => Flag(e.membership && e.cancelAtPeriodEnd == Some(true))
    case CUSTOMER => Text(e.customer)
    case SUBSCRIPTION => Text(e.subscription)
  }

  lemma WantedField(cat: Catalog, previous: Account, e: Event, f: Field)
    requires e.sku.Some? && e.sku.value in cat.plans
    ensures ValueOf(Wanted(cat, previous, e), f) == if Sets(e, f) then SetTo(cat, e, f) else ValueOf(previous, f)
  {
  }

  /** Rows of the same time are equal when all their fields are. */
  lemma FieldsMakeRow(a: Account, b: Account)
    requires a.eventAt == b.eventAt && forall f :: ValueOf(a, f) == ValueOf(b, f)
    ensures a == b
  {
    assert ValueOf(a, PLAN) == ValueOf(b, PLAN) && ValueOf(a, STATUS) == ValueOf(b, STATUS);
    assert ValueOf(a, PERIOD_END) == ValueOf(b, PERIOD_END) && ValueOf(a, CANCEL) == ValueOf(b, CANCEL);
    assert ValueOf(a, CUSTOMER) == ValueOf(b, CUSTOMER) && ValueOf(a, SUBSCRIPTION) == ValueOf(b, SUBSCRIPTION);
  }

  // ---------------------------------------------------------------- what a field can end as

  /** One of the latest events, and it sets the field. */
  ghost predicate TopSets(cat: Catalog, accounts: map<string, Account>, es: set<Event>, ws: string, f: Field, e: Event)
    requires ws in accounts
  {
    IsTop(cat, accounts, es, ws, e) && Sets(e, f)
  }

  /** An event that is not older than the row sets the field to the value. */
  ghost predicate SetBy(cat: Catalog, accounts: map<string, Account>, ws: string, f: Field, e: Event, v: Value)
    requires ws in accounts
  {
    Counts(cat, accounts, e, ws, accounts[ws].eventAt) && Sets(e, f) && SetTo(cat, e, f) == v
  }

  /** The value is the old one or one that some event sets, and if one of the latest events sets it, one that those set. */
  ghost predicate Explained(cat: Catalog, accounts: map<string, Account>, es: set<Event>, ws: string, f: Field, v: Value)
    requires ws in accounts
  {
    && (v == ValueOf(accounts[ws], f) || exists e :: e in es && SetBy(cat, accounts, ws, f, e, v))
    && ((exists e :: TopSets(cat, accounts, es, ws, f, e)) ==>
          exists e :: TopSets(cat, accounts, es, ws, f, e) && SetBy(cat, accounts, ws, f, e, v))
  }

  /** How the latest events change when one more event comes. */
  lemma TopsAfter(cat: Catalog, accounts: map<string, Account>, es: set<Event>, ws: string, e: Event, at: Option<int>, x: Event)
    requires ws in accounts && IsLatest(cat, accounts, es, ws, accounts[ws].eventAt, at)
    ensures IsTop(cat, accounts, es + {e}, ws, x) <==>
            if !Counts(cat, accounts, e, ws, at) then IsTop(cat, accounts, es, ws, x)
            else x == e || (at == Some(e.at) && IsTop(cat, accounts, es, ws, x))
  {
    if IsTop(cat, accounts, es, ws, x) {
      assert AtMost(Some(x.at), at);
      if at != accounts[ws].eventAt {
        var g :| g in es && Subscribes(cat, accounts, g, ws) && at == Some(g.at);
        assert g.at <= x.at;
      }
    }
    if Counts(cat, accounts, e, ws, at) {
      assert AtMost(accounts[ws].eventAt, Some(e.at));
      forall g | g in es && Subscribes(cat, accounts, g, ws)
        ensures g.at <= e.at
      {
        assert AtMost(Some(g.at), at);
      }
    }
    if IsTop(cat, accounts, es + {e}, ws, x) {
      assert e in es + {e};
      assert forall g :: g in es ==> g in es + {e};
    }
  }

  lemma ExplainedStays(cat: Catalog, accounts: map<string, Account>, es: set<Event>, ws: string, f: Field, e: Event, at: Option<int>, v: Value, v': Value)
    requires ws in accounts && IsLatest(cat, accounts, es, ws, accounts[ws].eventAt, at) && Explained(cat, accounts, es, ws, f, v)
    requires v' == if Counts(cat, accounts, e, ws, at) && Sets(e, f) then SetTo(cat, e, f) else v
    ensures Explained(cat, accounts, es + {e}, ws, f, v')
  {
    forall x
      ensures IsTop(cat, accounts, es + {e}, ws, x) <==>
              if !Counts(cat, accounts, e, ws, at) then IsTop(cat, accounts, es, ws, x)
              else x == e || (at == Some(e.at) && IsTop(cat, accounts, es, ws, x))
    {
      TopsAfter(cat, accounts, es, ws, e, at, x);
    }
    if Counts(cat, accounts, e, ws, at) && Sets(e, f) {
      assert e in es + {e} && SetBy(cat, accounts, ws, f, e, v') && TopSets(cat, accounts, es + {e}, ws, f, e);
    } else {
      OldValueStays(cat, accounts, es, ws, f, e, v);
      if x :| TopSets(cat, accounts, es + {e}, ws, f, x) {
        assert TopSets(cat, accounts, es, ws, f, x);
        var y :| TopSets(cat, accounts, es, ws, f, y) && SetBy(cat, accounts, ws, f, y, v);
        assert TopSets(cat, accounts, es + {e}, ws, f, y);
      }
    }
  }

  lemma OldValueStays(cat: Catalog, accounts: map<string, Account>, es: set<Event>, ws: string, f: Field, e: Event, v: Value)
    requires ws in accounts && (v == ValueOf(accounts[ws], f) || exists x :: x in es && SetBy(cat, accounts, ws, f, x, v))
    ensures v == ValueOf(accounts[ws], f) || exists x :: x in es + {e} && SetBy(cat, accounts, ws, f, x, v)
  {
    if x :| x in es && SetBy(cat, accounts, ws, f, x, v) {
      assert x in es + {e};
    }
  }

  /** One delivery of a new event, for one field. */
  lemma FieldAfter(cat: Catalog, accounts: map<string, Account>, e: Event, ws: string, f: Field)
    requires ws in accounts
    ensures var (row, row') := (accounts[ws], AccountsAfter(cat, accounts, e)[ws]);
            ValueOf(row', f) == if Counts(cat, accounts, e, ws, row.eventAt) && Sets(e, f) then SetTo(cat, e, f) else ValueOf(row, f)
  {
    if Counts(cat, accounts, e, ws, accounts[ws].eventAt) {
      WantedField(cat, accounts[ws], e, f);
    }
  }

  lemma NextExplained(cat: Catalog, addMonths: (int, nat) -> Option<int>, s: Books, before: seq<Delivery>, d: Delivery, r: Books, ws: string, f: Field)
    requires Sound(cat, r) && ws in s.accounts && r.accounts.Keys == s.accounts.Keys && r.recorded == s.recorded + Ids(before)
    requires IdsNameEvents(before + [d])
    requires IsLatest(cat, s.accounts, Fresh(before, s.recorded), ws, s.accounts[ws].eventAt, r.accounts[ws].eventAt)
    requires Explained(cat, s.accounts, Fresh(before, s.recorded), ws, f, ValueOf(r.accounts[ws], f))
    ensures var r' := Process(cat, addMonths, r, d);
            ws in r'.accounts && Explained(cat, s.accounts, Fresh(before + [d], s.recorded), ws, f, ValueOf(r'.accounts[ws], f))
  {
    Extended(before, d, s.recorded);
    if d.event.id !in r.recorded {
      DeliveredField(cat, addMonths, s, r, d, Fresh(before, s.recorded), ws, f);
    }
  }

  /** Whatever is delivered in whatever order, each field ends as explained. */
  lemma {:induction false} FieldsExplained(cat: Catalog, addMonths: (int, nat) -> Option<int>, s: Books, ds: seq<Delivery>, ws: string, f: Field)
    requires Sound(cat, s) && IdsNameEvents(ds) && ws in s.accounts
    ensures ws in Run(cat, addMonths, s, ds).accounts
    ensures Explained(cat, s.accounts, Fresh(ds, s.recorded), ws, f, ValueOf(Run(cat, addMonths, s, ds).accounts[ws], f))
  {
    if ds == [] {
      assert Fresh(ds, s.recorded) == {};
    } else {
      var before, d := ds[..|ds| - 1], ds[|ds| - 1];
      assert ds == before + [d];
      assert IdsNameEvents(before);
      RunBooks(cat, addMonths, s, before, ws);
      LatestEventWins(cat, addMonths, s, before, ws);
      FieldsExplained(cat, addMonths, s, before, ws, f);
      NextExplained(cat, addMonths, s, before, d, Run(cat, addMonths, s, before), ws, f);
    }
  }

  lemma DeliveredField(cat: Catalog, addMonths: (int, nat) -> Option<int>, s: Books, r: Books, d: Delivery, es: set<Event>, ws: string, f: Field)
    requires Sound(cat, r) && d.event.id !in r.recorded && ws in s.accounts && ws in r.accounts && r.accounts.Keys == s.accounts.Keys
    requires IsLatest(cat, s.accounts, es, ws, s.accounts[ws].eventAt, r.accounts[ws].eventAt)
    requires Explained(cat, s.accounts, es, ws, f, ValueOf(r.accounts[ws], f))
    ensures var r' := Process(cat, addMonths, r, d);
            ws in r'.accounts && Explained(cat, s.accounts, es + {d.event}, ws, f, ValueOf(r'.accounts[ws], f))
  {
    FirstDelivery(cat, addMonths, r, d);
    AccountsKeepKeys(cat, r.accounts, d.event);
    SubscribesByKeys(cat, r.accounts, s.accounts, d.event, ws);
    FieldAfter(cat, r.accounts, d.event, ws, f);
    ExplainedStays(cat, s.accounts, es, ws, f, d.event, r.accounts[ws].eventAt, ValueOf(r.accounts[ws], f),
                   ValueOf(AccountsAfter(cat, r.accounts, d.event)[ws], f));
  }

  // ---------------------------------------------------------------- when the order shows in a field

  /**
   * The latest events that set the field agree on it; and if none of them sets it, every event that counts and sets it sets
   * it to what the row has.
   */
  ghost predicate Fixed(cat: Catalog, accounts: map<string, Account>, es: set<Event>, ws: string, f: Field)
    requires ws in accounts
  {
    && (forall a, b :: TopSets(cat, accounts, es, ws, f, a) && TopSets(cat, accounts, es, ws, f, b) ==> SetTo(cat, a, f) == SetTo(cat, b, f))
    && ((exists a :: TopSets(cat, accounts, es, ws, f, a)) ||
        forall e :: e in es && Counts(cat, accounts, e, ws, accounts[ws].eventAt) && Sets(e, f) ==>
                      SetTo(cat, e, f) == ValueOf(accounts[ws], f))
  }

  ghost predicate SameField(a: Books, b: Books, ws: string, f: Field) {
    ws in a.accounts && ws in b.accounts && ValueOf(a.accounts[ws], f) == ValueOf(b.accounts[ws], f)
  }

  /** What a fixed field ends as. */
  lemma FixedValue(cat: Catalog, accounts: map<string, Account>, es: set<Event>, ws: string, f: Field, v: Value, v': Value)
    requires ws in accounts && Fixed(cat, accounts, es, ws, f)
    requires Explained(cat, accounts, es, ws, f, v) && Explained(cat, accounts, es, ws, f, v')
    ensures v == v'
  {
    if a :| TopSets(cat, accounts, es, ws, f, a) {
      var x :| TopSets(cat, accounts, es, ws, f, x) && SetBy(cat, accounts, ws, f, x, v);
      var y :| TopSets(cat, accounts, es, ws, f, y) && SetBy(cat, accounts, ws, f, y, v');
    } else {
      assert v == ValueOf(accounts[ws], f) && v' == ValueOf(accounts[ws], f);
    }
  }

  lemma {:induction false} RunConcat(cat: Catalog, addMonths: (int, nat) -> Option<int>, s: Books, a: seq<Delivery>, b: seq<Delivery>)
    ensures Run(cat, addMonths, s, a + b) == Run(cat, addMonths, Run(cat, addMonths, s, a), b)
  {
    if b == [] {
      assert a + b == a;
    } else {
      var front, d := b[..|b| - 1], b[|b| - 1];
      RunConcat(cat, addMonths, s, a, front);
      assert a + b == (a + front) + [d] && b == front + [d];
      RunSnoc(cat, addMonths, s, a + front, d);
      RunSnoc(cat, addMonths, Run(cat, addMonths, s, a), front, d);
    }
  }

  /** Once the row has the latest time and no event of that time sets the field, it stays. */
  lemma FieldStays(cat: Catalog, addMonths: (int, nat) -> Option<int>, r: Books, ds: seq<Delivery>, es: set<Event>, ws: string, f: Field)
    requires Sound(cat, r) && ws in r.accounts && Delivers(r, ds, es)
    requires forall e :: e in es && Counts(cat, r.accounts, e, ws, r.accounts[ws].eventAt) ==> !Sets(e, f)
    ensures SameField(r, Run(cat, addMonths, r, ds), ws, f)
  {
    FieldsExplained(cat, addMonths, r, ds, ws, f);
  }

  ghost function Later(cat: Catalog, accounts: map<string, Account>, es: set<Event>, ws: string, e: Event): set<Event> {
    set g | g in es && Subscribes(cat, accounts, g, ws) && g.at > e.at
  }

  /** There is a latest event if any event counts. */
  lemma {:induction false} SomeTop(cat: Catalog, accounts: map<string, Account>, es: set<Event>, ws: string, e: Event) returns (top: Event)
    requires ws in accounts && e in es && Counts(cat, accounts, e, ws, accounts[ws].eventAt)
    ensures IsTop(cat, accounts, es, ws, top)
    decreases Later(cat, accounts, es, ws, e)
  {
    top := e;
    if Later(cat, accounts, es, ws, e) != {} {
      var g :| g in Later(cat, accounts, es, ws, e);
      assert g !in Later(cat, accounts, es, ws, g);
      top := SomeTop(cat, accounts, es, ws, g);
    } else {
      forall g | g in es && Subscribes(cat, accounts, g, ws)
        ensures g.at <= e.at
      {
        assert g !in Later(cat, accounts, es, ws, e);
      }
    }
  }

  /** An event delivered before all others. */
  lemma Ahead(s: Books, r: Books, rest: seq<Delivery>, others: set<Event>, e: Event)
    requires r.recorded == s.recorded + {e.id} && e.id !in s.recorded && NewEvents(s, others + {e})
    requires Delivers(r, rest, others) && forall d :: d in rest ==> d.event in others
    ensures var ds := [Delivery(e, 0)] + rest;
            Delivers(s, ds, others + {e}) && forall d :: d in ds ==> d.event in others + {e}
  {
    var ds := [Delivery(e, 0)] + rest;
    assert forall d :: d in ds <==> d in rest || d == Delivery(e, 0);
    assert Fresh(ds, s.recorded) == others + {e};
  }

  lemma OneDelivered(cat: Catalog, addMonths: (int, nat) -> Option<int>, s: Books, d: Delivery)
    ensures Run(cat, addMonths, s, [d]) == Process(cat, addMonths, s, d)
  {
    assert [d][..0] == [];
  }

  /** Delivered first, one of the latest events leaves nothing to the others when none of the latest sets the field. */
  lemma TopFirst(cat: Catalog, addMonths: (int, nat) -> Option<int>, s: Books, es: set<Event>, ws: string, f: Field, t: Event)
    returns (ds: seq<Delivery>)
    requires Sound(cat, s) && ws in s.accounts && NewEvents(s, es) && IsTop(cat, s.accounts, es, ws, t)
    requires forall x :: !TopSets(cat, s.accounts, es, ws, f, x)
    ensures Delivers(s, ds, es) && (forall d :: d in ds ==> d.event in es) && SameField(s, Run(cat, addMonths, s, ds), ws, f)
  {
    var d, others := Delivery(t, 0), es - {t};
    var r := Process(cat, addMonths, s, d);
    FirstDelivery(cat, addMonths, s, d);
    AccountsKeepKeys(cat, s.accounts, t);
    RowAfter(cat, s.accounts, t, ws);
    assert !TopSets(cat, s.accounts, es, ws, f, t);
    FieldAfter(cat, s.accounts, t, ws, f);
    var rest := SomeOrder(r, others);
    assert es == others + {t};
    Ahead(s, r, rest, others, t);
    forall x | x in others && Counts(cat, r.accounts, x, ws, r.accounts[ws].eventAt)
      ensures !Sets(x, f)
    {
      SubscribesByKeys(cat, r.accounts, s.accounts, x, ws);
      assert IsTop(cat, s.accounts, es, ws, x);
      assert !TopSets(cat, s.accounts, es, ws, f, x);
    }
    FieldStays(cat, addMonths, r, rest, others, ws, f);
    ds := [d] + rest;
    RunConcat(cat, addMonths, s, [d], rest);
    OneDelivered(cat, addMonths, s, d);
  }

  /** Delivered before the latest events, an older one still decides a field that none of those sets. */
  lemma OlderFirst(cat: Catalog, addMonths: (int, nat) -> Option<int>, s: Books, es: set<Event>, ws: string, f: Field, t: Event, e: Event)
    returns (ds: seq<Delivery>)
    requires Sound(cat, s) && ws in s.accounts && NewEvents(s, es) && IsTop(cat, s.accounts, es, ws, t)
    requires forall x :: !TopSets(cat, s.accounts, es, ws, f, x)
    requires e in es && Counts(cat, s.accounts, e, ws, s.accounts[ws].eventAt) && Sets(e, f)
    ensures Delivers(s, ds, es)
    ensures ws in Run(cat, addMonths, s, ds).accounts
    ensures ValueOf(Run(cat, addMonths, s, ds).accounts[ws], f) == SetTo(cat, e, f)
  {
    var d, others := Delivery(e, 0), es - {e};
    var r := Process(cat, addMonths, s, d);
    FirstDelivery(cat, addMonths, s, d);
    AccountsKeepKeys(cat, s.accounts, e);
    RowAfter(cat, s.accounts, e, ws);
    FieldAfter(cat, s.accounts, e, ws, f);
    assert !TopSets(cat, s.accounts, es, ws, f, t);
    TopsOfRest(cat, s.accounts, r.accounts, es, ws, f, t, e);
    var rest := TopFirst(cat, addMonths, r, others, ws, f, t);
    assert es == others + {e};
    Ahead(s, r, rest, others, e);
    ds := [d] + rest;
    RunConcat(cat, addMonths, s, [d], rest);
    OneDelivered(cat, addMonths, s, d);
  }

  /** The latest events, once an event that is none of them has been delivered. */
  lemma TopsOfRest(cat: Catalog, accounts: map<string, Account>, accounts': map<string, Account>, es: set<Event>, ws: string, f: Field, t: Event, e: Event)
    requires ws in accounts && accounts'.Keys == accounts.Keys && IsTop(cat, accounts, es, ws, t) && t != e
    requires e in es && Counts(cat, accounts, e, ws, accounts[ws].eventAt) && accounts'[ws].eventAt == Some(e.at)
    requires forall x :: !TopSets(cat, accounts, es, ws, f, x)
    ensures IsTop(cat, accounts', es - {e}, ws, t) && forall x :: !TopSets(cat, accounts', es - {e}, ws, f, x)
  {
    forall x
      ensures Subscribes(cat, accounts', x, ws) == Subscribes(cat, accounts, x, ws)
    {
      SubscribesByKeys(cat, accounts', accounts, x, ws);
    }
    forall x
      ensures !TopSets(cat, accounts', es - {e}, ws, f, x)
    {
      if TopSets(cat, accounts', es - {e}, ws, f, x) {
        assert t.at <= x.at;
        assert TopSets(cat, accounts, es, ws, f, x);
      }
    }
  }

  /** Delivered last, one of the latest events leaves in the field what it sets. */
  lemma SetterLast(cat: Catalog, addMonths: (int, nat) -> Option<int>, s: Books, es: set<Event>, ws: string, f: Field, e: Event)
    returns (ds: seq<Delivery>)
    requires Sound(cat, s) && ws in s.accounts && NewEvents(s, es) && TopSets(cat, s.accounts, es, ws, f, e)
    ensures Delivers(s, ds, es)
    ensures ws in Run(cat, addMonths, s, ds).accounts
    ensures ValueOf(Run(cat, addMonths, s, ds).accounts[ws], f) == SetTo(cat, e, f)
  {
    var d, others := Delivery(e, 0), es - {e};
    var before := SomeOrder(s, others);
    LastDelivered(s, before, others, e);
    assert es == others + {e};
    ds := before + [d];
    RunBooks(cat, addMonths, s, before, ws);
    LatestEventWins(cat, addMonths, s, before, ws);
    RunSnoc(cat, addMonths, s, before, d);
    var r := Run(cat, addMonths, s, before);
    TopIsNotOlder(cat, s.accounts, es, others, ws, e, r.accounts[ws].eventAt);
    FirstDelivery(cat, addMonths, r, d);
    AccountsKeepKeys(cat, r.accounts, e);
    SubscribesByKeys(cat, r.accounts, s.accounts, e, ws);
    FieldAfter(cat, r.accounts, e, ws, f);
  }

  /** Two orders that leave a field different, when it is not fixed. */
  lemma FieldShowsOrder(cat: Catalog, addMonths: (int, nat) -> Option<int>, s: Books, es: set<Event>, ws: string, f: Field)
    returns (ds: seq<Delivery>, ds': seq<Delivery>)
    requires Sound(cat, s) && ws in s.accounts && NewEvents(s, es) && !Fixed(cat, s.accounts, es, ws, f)
    ensures Delivers(s, ds, es) && Delivers(s, ds', es)
    ensures !SameField(Run(cat, addMonths, s, ds), Run(cat, addMonths, s, ds'), ws, f)
  {
    if a, b :| TopSets(cat, s.accounts, es, ws, f, a) && TopSets(cat, s.accounts, es, ws, f, b) && SetTo(cat, a, f) != SetTo(cat, b, f) {
      ds := SetterLast(cat, addMonths, s, es, ws, f, a);
      ds' := SetterLast(cat, addMonths, s, es, ws, f, b);
    } else {
      var e :| e in es && Counts(cat, s.accounts, e, ws, s.accounts[ws].eventAt) && Sets(e, f) &&
               SetTo(cat, e, f) != ValueOf(s.accounts[ws], f);
      var t := SomeTop(cat, s.accounts, es, ws, e);
      ds := TopFirst(cat, addMonths, s, es, ws, f, t);
      ds' := OlderFirst(cat, addMonths, s, es, ws, f, t, e);
    }
  }

  /**
   * Every order of delivering a set of new events leaves the same value in a field if and only if the latest events that set it
   * agree, or none of those sets it and all others set it to what it was.
   */
  lemma FieldOrderExactly(cat: Catalog, addMonths: (int, nat) -> Option<int>, s: Books, es: set<Event>, ws: string, f: Field)
    requires Sound(cat, s) && ws in s.accounts && NewEvents(s, es)
    ensures Fixed(cat, s.accounts, es, ws, f) <==>
            forall ds, ds' :: Delivers(s, ds, es) && Delivers(s, ds', es) ==>
                                SameField(Run(cat, addMonths, s, ds), Run(cat, addMonths, s, ds'), ws, f)
  {
    if Fixed(cat, s.accounts, es, ws, f) {
      forall ds, ds' | Delivers(s, ds, es) && Delivers(s, ds', es)
        ensures SameField(Run(cat, addMonths, s, ds), Run(cat, addMonths, s, ds'), ws, f)
      {
        FieldsExplained(cat, addMonths, s, ds, ws, f);
        FieldsExplained(cat, addMonths, s, ds', ws, f);
        FixedValue(cat, s.accounts, es, ws, f, ValueOf(Run(cat, addMonths, s, ds).accounts[ws], f),
                   ValueOf(Run(cat, addMonths, s, ds').accounts[ws], f));
      }
    } else {
      var ds, ds' := FieldShowsOrder(cat, addMonths, s, es, ws, f);
    }
  }

  ghost predicate SameRow(a: Books, b: Books, ws: string) {
    ws in a.accounts && ws in b.accounts && a.accounts[ws] == b.accounts[ws]
  }

  /** Every order leaves the same row exactly when every field is fixed. */
  lemma RowOrderExactly(cat: Catalog, addMonths: (int, nat) -> Option<int>, s: Books, es: set<Event>, ws: string)
    requires Sound(cat, s) && ws in s.accounts && NewEvents(s, es)
    ensures (forall f :: Fixed(cat, s.accounts, es, ws, f)) <==>
            forall ds, ds' :: Delivers(s, ds, es) && Delivers(s, ds', es) ==>
                                SameRow(Run(cat, addMonths, s, ds), Run(cat, addMonths, s, ds'), ws)
  {
    if forall f :: Fixed(cat, s.accounts, es, ws, f) {
      forall ds, ds' | Delivers(s, ds, es) && Delivers(s, ds', es)
        ensures SameRow(Run(cat, addMonths, s, ds), Run(cat, addMonths, s, ds'), ws)
      {
        EventTimeIgnoresOrder(cat, addMonths, s, es, ds, ds', ws);
        forall f
          ensures SameField(Run(cat, addMonths, s, ds), Run(cat, addMonths, s, ds'), ws, f)
        {
          FieldOrderExactly(cat, addMonths, s, es, ws, f);
        }
        var row, row' := Run(cat, addMonths, s, ds).accounts[ws], Run(cat, addMonths, s, ds').accounts[ws];
        assert forall f :: SameField(Run(cat, addMonths, s, ds), Run(cat, addMonths, s, ds'), ws, f) ==> ValueOf(row, f) == ValueOf(row', f);
        FieldsMakeRow(row, row');
      }
    } else {
      var f :| !Fixed(cat, s.accounts, es, ws, f);
      var ds, ds' := FieldShowsOrder(cat, addMonths, s, es, ws, f);
      assert !SameRow(Run(cat, addMonths, s, ds), Run(cat, addMonths, s, ds'), ws);
    }
  }

  /** The latest events that count agree on plan and status. */
  ghost predicate TopsAgree(cat: Catalog, accounts: map<string, Account>, es: set<Event>, ws: string)
    requires ws in accounts
  {
    forall e, f :: IsTop(cat, accounts, es, ws, e) && IsTop(cat, accounts, es, ws, f) ==>
                     PlanOf(cat, e) == PlanOf(cat, f) && EventStatus(e) == EventStatus(f)
  }

  /** A field that every event sets is fixed when the latest events agree on it. */
  lemma AlwaysSet(cat: Catalog, accounts: map<string, Account>, es: set<Event>, ws: string, f: Field)
    requires ws in accounts && (f == PLAN || f == STATUS)
    ensures Fixed(cat, accounts, es, ws, f) <==>
            forall a, b :: IsTop(cat, accounts, es, ws, a) && IsTop(cat, accounts, es, ws, b) ==> SetTo(cat, a, f) == SetTo(cat, b, f)
  {
    forall e
      ensures TopSets(cat, accounts, es, ws, f, e) == IsTop(cat, accounts, es, ws, e)
    {
    }
    if e :| e in es && Counts(cat, accounts, e, ws, accounts[ws].eventAt) {
      var t := SomeTop(cat, accounts, es, ws, e);
      assert TopSets(cat, accounts, es, ws, f, t);
    }
  }

  lemma AgreeingTopsFix(cat: Catalog, accounts: map<string, Account>, es: set<Event>, ws: string)
    requires ws in accounts
    ensures TopsAgree(cat, accounts, es, ws) <==> Fixed(cat, accounts, es, ws, PLAN) && Fixed(cat, accounts, es, ws, STATUS)
  {
    AlwaysSet(cat, accounts, es, ws, PLAN);
    AlwaysSet(cat, accounts, es, ws, STATUS);
    forall a, b | IsTop(cat, accounts, es, ws, a) && IsTop(cat, accounts, es, ws, b)
      ensures SetTo(cat, a, PLAN) == SetTo(cat, b, PLAN) <==> PlanOf(cat, a) == PlanOf(cat, b)
      ensures SetTo(cat, a, STATUS) == SetTo(cat, b, STATUS) <==> EventStatus(a) == EventStatus(b)
    {
    }
  }

  ghost predicate SamePlan(a: Books, b: Books, ws: string) {
    SameField(a, b, ws, PLAN) && SameField(a, b, ws, STATUS)
  }

  /** Every order leaves the same plan and status if and only if the latest events agree on both. */
  lemma OrderShowsExactly(cat: Catalog, addMonths: (int, nat) -> Option<int>, s: Books, es: set<Event>, ws: string)
    requires Sound(cat, s) && ws in s.accounts && NewEvents(s, es)
    ensures TopsAgree(cat, s.accounts, es, ws) <==>
            forall ds, ds' :: Delivers(s, ds, es) && Delivers(s, ds', es) ==>
                                SamePlan(Run(cat, addMonths, s, ds), Run(cat, addMonths, s, ds'), ws)
  {
    AgreeingTopsFix(cat, s.accounts, es, ws);
    FieldOrderExactly(cat, addMonths, s, es, ws, PLAN);
    FieldOrderExactly(cat, addMonths, s, es, ws, STATUS);
  }

  // ---------------------------------------------------------------- an example

  /** A row of a new workspace. */
  const NEW_ROW := Account("free", FREE, None, false, None, None, None)

  /** A membership event of an active plan at some time, with or without a period end. */
  function Renewal(id: string, at: int, periodEnd: Option<int>): Event {
    Event(id, at, Some("w"), Some("pro"), true, false, ACTIVE, periodEnd, None, None, None)
  }

  predicate EndsAt(s: Books, periodEnd: Option<int>) {
    "w" in s.accounts && s.accounts["w"].periodEnd == periodEnd
  }

  /** The later of two membership events carries no period end: the earlier one's stays only when it arrives first. */
  lemma PeriodEndShowsOrder(cat: Catalog, addMonths: (int, nat) -> Option<int>, s: Books, now: int)
    requires Sound(cat, s) && s.accounts == map["w" := NEW_ROW] && s.recorded == {} && "pro" in cat.plans
    ensures var (a, b) := (Delivery(Renewal("a", 1, Some(5)), now), Delivery(Renewal("b", 2, None), now));
            && a.event.at != b.event.at
            && EndsAt(Run(cat, addMonths, s, [a, b]), Some(5)) && EndsAt(Run(cat, addMonths, s, [b, a]), None)
  {
    var a, b := Delivery(Renewal("a", 1, Some(5)), now), Delivery(Renewal("b", 2, None), now);
    TwoDelivered(cat, addMonths, s, a, b);
    TwoDelivered(cat, addMonths, s, b, a);
  }

  lemma TwoDelivered(cat: Catalog, addMonths: (int, nat) -> Option<int>, s: Books, a: Delivery, b: Delivery)
    requires Sound(cat, s) && a.event.id !in s.recorded && b.event.id !in s.recorded && a.event.id != b.event.id
    ensures Run(cat, addMonths, s, [a, b]).accounts == AccountsAfter(cat, AccountsAfter(cat, s.accounts, a.event), b.event)
  {
    RunTwo(cat, addMonths, s, a, b);
    Delivered(cat, addMonths, s, a);
    Delivered(cat, addMonths, Process(cat, addMonths, s, a), b);
  }

  lemma RunTwo(cat: Catalog, addMonths: (int, nat) -> Option<int>, s: Books, a: Delivery, b: Delivery)
    ensures Run(cat, addMonths, s, [a, b]) == Process(cat, addMonths, Process(cat, addMonths, s, a), b)
  {
    OneDelivered(cat, addMonths, s, a);
    assert [a, b] == [a] + [b];
    RunSnoc(cat, addMonths, s, [a], b);
  }

  lemma Delivered(cat: Catalog, addMonths: (int, nat) -> Option<int>, s: Books, d: Delivery)
    requires Sound(cat, s) && d.event.id !in s.recorded
    ensures var s' := Process(cat, addMonths, s, d);
            Sound(cat, s') && s'.recorded == s.recorded + {d.event.id} && s'.accounts == AccountsAfter(cat, s.accounts, d.event)
  {
    FirstDelivery(cat, addMonths, s, d);
  }
}
