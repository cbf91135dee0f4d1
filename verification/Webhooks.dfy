/** Keeping workspaces in step with Stripe by webhook (app/services/billing/webhooks.py): events may
    come twice, late or out of order, and a failed delivery saves nothing. */
module Webhooks {
  import opened Dicts

  datatype Item = Item(price: Option<string>, periodEnd: Option<int>)

  datatype Subscription = Subscription(
    id: string, status: Option<string>, cancelAtPeriodEnd: Option<bool>, items: seq<Item>, periodEnd: Option<int>,
    customer: Option<string>, tenantId: Option<string>)

  datatype Plan = Free | Pro

  datatype Tenant = Tenant(
    plan: Plan, customerId: Option<string>, subscriptionId: Option<string>, status: Option<string>,
    periodEnd: Option<int>, cancelAtPeriodEnd: bool)

  /** The fields of an event's object that are read; `parentSubscription` is the newer invoice form. */
  datatype EventObject = EventObject(
    mode: Option<string>, id: Option<string>, subscription: Option<string>, parentSubscription: Option<string>)

  datatype Event = Event(id: string, kind: string, payload: EventObject)

  const SUBSCRIPTION_EVENTS: set<string> := {
    "customer.subscription.created", "customer.subscription.updated", "customer.subscription.deleted",
    "customer.subscription.paused", "customer.subscription.resumed" }
  const INVOICE_EVENTS: set<string> := { "invoice.paid", "invoice.payment_failed" }

  /** Tables written in one transaction: workspaces by id, and the outcome of each handled event. */
  datatype Db = Db(tenants: Dict<string, Tenant>, recorded: Dict<string, string>)

  /** Python's truth of an optional string. */
  predicate Truthy(s: Option<string>) {
    s.Some? && s.value != ""
  }

  predicate IsOurs(s: Subscription, prices: set<string>) {
    exists i :: 0 <= i < |s.items| && s.items[i].price.Some? && s.items[i].price.value in prices
  }

  /** `max((e for e in ends if e), default=None)` */
  function LatestEnd(items: seq<Item>): Option<int> {
    if items == [] then None
    else
      var rest := LatestEnd(items[1..]);
      var end := items[0].periodEnd;
      if end.None? || end.value == 0 then rest
      else if rest.Some? && rest.value >= end.value then rest
      else end
  }

  function PeriodEnd(s: Subscription): Option<int> {
    var end := if LatestEnd(s.items).Some? then LatestEnd(s.items) else s.periodEnd;
    if end.Some? && end.value != 0 then end else None
  }

  function Apply(t: Tenant, s: Subscription): Tenant {
    Tenant(Pro, if s.customer.Some? && !Truthy(t.customerId) then s.customer else t.customerId,
           Some(s.id), s.status, PeriodEnd(s), s.cancelAtPeriodEnd == Some(true))
  }

  function SubscriptionOf(e: Event): Option<string> {
    if e.kind == "checkout.session.completed" && e.payload.mode == Some("subscription") then e.payload.subscription
    else if e.kind in SUBSCRIPTION_EVENTS then e.payload.id
    else if e.kind in INVOICE_EVENTS then
      if Truthy(e.payload.parentSubscription) then e.payload.parentSubscription else e.payload.subscription
    else None
  }

  function ByCustomer(tenants: Dict<string, Tenant>, customer: string): Option<string> {
    if tenants == [] then None
    else if tenants[0].1.customerId == Some(customer) then Some(tenants[0].0)
    else ByCustomer(tenants[1..], customer)
  }

  /** The workspace named in the metadata, if it exists, else the customer's. */
  function TenantFor(tenants: Dict<string, Tenant>, s: Subscription): Option<string> {
    if Truthy(s.tenantId) && HasKey(tenants, s.tenantId.value) then s.tenantId
    else if s.customer.None? then None
    else ByCustomer(tenants, s.customer.value)
  }

  /** Effect of `sync_subscription` on the tenants, and whether a workspace was found. */
  function Sync(tenants: Dict<string, Tenant>, s: Subscription, prices: set<string>): (Dict<string, Tenant>, bool) {
    var id := TenantFor(tenants, s);
    if !IsOurs(s, prices) || id.None? || Get(tenants, id.value).None? then (tenants, false)
    else (Put(tenants, id.value, Apply(Get(tenants, id.value).value, s)), true)
  }

  /** `handle` and the caller's commit; None when fetching the subscription raises (nothing saved). */
  function Handle(db: Db, e: Event, stripe: map<string, Subscription>, prices: set<string>): (Db, Option<string>) {
    if HasKey(db.recorded, e.id) then (db, Some("duplicate"))
    else
      var subscription := SubscriptionOf(e);
      if !Truthy(subscription) then (db.(recorded := Put(db.recorded, e.id, "ignored")), Some("ignored"))
      else if subscription.value !in stripe then (db, None)
      else
        var (tenants, found) := Sync(db.tenants, stripe[subscription.value], prices);
        var outcome := if found then "synced" else "not_ours";
        (Db(tenants, Put(db.recorded, e.id, outcome)), Some(outcome))
  }

  // ---- Stripe and its deliveries ----

  /** `emitted`: every event Stripe has produced; it delivers them again until one is accepted. */
  datatype World = World(stripe: map<string, Subscription>, emitted: set<Event>, db: Db)

  datatype Move =
    | Change(subscription: Subscription, event: Event)  // a subscription changes, and an event says so
    | Emit(event: Event)                                // any other event
    | Deliver(event: Event, fails: bool)                // any emitted event, at any time, any number of times

  ghost predicate NewId(w: World, e: Event) {
    (forall x :: x in w.emitted ==> x.id != e.id) && !HasKey(w.db.recorded, e.id)
  }

  ghost predicate Possible(w: World, m: Move) {
    match m
    case Change(s, e) => NewId(w, e) && SubscriptionOf(e) == Some(s.id)
    case Emit(e) => NewId(w, e)
    case Deliver(e, _) => e in w.emitted
  }

  function Next(w: World, m: Move, prices: set<string>): World {
    match m
    case Change(s, e) => w.(stripe := w.stripe[s.id := s], emitted := w.emitted + {e})
    case Emit(e) => w.(emitted := w.emitted + {e})
    case Deliver(e, fails) => if fails then w else w.(db := Handle(w.db, e, w.stripe, prices).0)
  }

  ghost predicate IsRun(worlds: seq<World>, moves: seq<Move>, prices: set<string>) {
    && |worlds| == |moves| + 1
    && forall i :: 0 <= i < |moves| ==>
         Possible(worlds[i], moves[i]) && worlds[i + 1] == Next(worlds[i], moves[i], prices)
  }

  /** Subscription `sid` is ours and belongs to workspace `tid`, which has no other. */
  ghost predicate Owned(w: World, sid: string, tid: string, prices: set<string>) {
    && sid != "" && DistinctKeys(w.db.tenants) && HasKey(w.db.tenants, tid)
    && (sid in w.stripe ==> w.stripe[sid].id == sid && IsOurs(w.stripe[sid], prices)
                            && TenantFor(w.db.tenants, w.stripe[sid]) == Some(tid))
    && forall other :: other in w.stripe && other != sid && IsOurs(w.stripe[other], prices) ==>
         TenantFor(w.db.tenants, w.stripe[other]) != Some(tid)
  }

  /** The workspace shows exactly the subscription's current state. */
  ghost predicate Mirrors(t: Tenant, s: Subscription) {
    t == Tenant(Pro, t.customerId, Some(s.id), s.status, PeriodEnd(s), s.cancelAtPeriodEnd == Some(true))
  }

  ghost predicate UpToDate(w: World, sid: string, tid: string) {
    sid in w.stripe ==> Get(w.db.tenants, tid).Some? && Mirrors(Get(w.db.tenants, tid).value, w.stripe[sid])
  }

  /** Some event about the subscription is still to be recorded. */
  ghost predicate Outstanding(w: World, sid: string) {
    exists e :: e in w.emitted && SubscriptionOf(e) == Some(sid) && !HasKey(w.db.recorded, e.id)
  }

  ghost predicate Inv(w: World, sid: string, tid: string) {
    && (UpToDate(w, sid, tid) || Outstanding(w, sid))
    && DistinctKeys(w.db.recorded)
    && forall a, b :: a in w.emitted && b in w.emitted && a.id == b.id ==> a == b
  }

  // ---- What is read of a subscription and of an event ----

  /** A price of ours is among the subscription's items. */
  lemma IsOursIs(s: Subscription, prices: set<string>)
    ensures IsOurs(s, prices) <==> exists item :: item in s.items && item.price.Some? && item.price.value in prices
  {
    if item :| item in s.items && item.price.Some? && item.price.value in prices {
      var i :| 0 <= i < |s.items| && s.items[i] == item;
    }
  }

  predicate EndsAt(item: Item, end: int) {
    item.periodEnd == Some(end) && end != 0
  }

  lemma {:induction false} LatestEndIs(items: seq<Item>)
    ensures LatestEnd(items).None? ==> forall item, end :: item in items ==> !EndsAt(item, end)
    ensures LatestEnd(items).Some? ==>
              && (exists item :: item in items && EndsAt(item, LatestEnd(items).value))
              && forall item, end :: item in items && EndsAt(item, end) ==> end <= LatestEnd(items).value
  {
    if items != [] {
      LatestEndIs(items[1..]);
      assert items == [items[0]] + items[1..];
      assert forall item :: item in items <==> item == items[0] || item in items[1..];
      assert items[0].periodEnd.Some? && items[0].periodEnd.value != 0 ==> EndsAt(items[0], items[0].periodEnd.value);
    }
  }

  /** The period ends with the last of its items that has an end, else when the subscription itself says. */
  lemma PeriodEndIs(s: Subscription)
    ensures forall end :: PeriodEnd(s) == Some(end) <==>
              end != 0
              && if exists item, other :: item in s.items && EndsAt(item, other)
                 then (exists item :: item in s.items && EndsAt(item, end))
                      && forall item, other :: item in s.items && EndsAt(item, other) ==> other <= end
                 else s.periodEnd == Some(end)
  {
    LatestEndIs(s.items);
  }

  /** Which subscription an event is about. */
  lemma SubscriptionOfIs(e: Event)
    ensures SubscriptionOf(e)
         == if e.kind == "checkout.session.completed"
            then (if e.payload.mode == Some("subscription") then e.payload.subscription else None)
            else if e.kind == "invoice.paid" || e.kind == "invoice.payment_failed"
            then (if e.payload.parentSubscription.None? || e.payload.parentSubscription == Some("")
                  then e.payload.subscription else e.payload.parentSubscription)
            else if e.kind == "customer.subscription.created" || e.kind == "customer.subscription.updated"
                    || e.kind == "customer.subscription.deleted" || e.kind == "customer.subscription.paused"
                    || e.kind == "customer.subscription.resumed"
            then e.payload.id
            else None
  {
  }

  ghost predicate HasCustomer(tenants: Dict<string, Tenant>, id: string, customer: string) {
    exists i :: 0 <= i < |tenants| && tenants[i].0 == id && tenants[i].1.customerId == Some(customer)
  }

  lemma {:induction false} ByCustomerIs(tenants: Dict<string, Tenant>, customer: string)
    ensures ByCustomer(tenants, customer).Some? ==> HasCustomer(tenants, ByCustomer(tenants, customer).value, customer)
    ensures ByCustomer(tenants, customer).None? ==> forall id :: !HasCustomer(tenants, id, customer)
  {
    if tenants != [] {
      ByCustomerIs(tenants[1..], customer);
      forall id
        ensures HasCustomer(tenants, id, customer) <==>
                  || (tenants[0].0 == id && tenants[0].1.customerId == Some(customer))
                  || HasCustomer(tenants[1..], id, customer)
      {
        CustomerTail(tenants, id, customer);
      }
    }
  }

  lemma CustomerTail(tenants: Dict<string, Tenant>, id: string, customer: string)
    requires tenants != []
    ensures HasCustomer(tenants, id, customer) <==>
              || (tenants[0].0 == id && tenants[0].1.customerId == Some(customer))
              || HasCustomer(tenants[1..], id, customer)
  {
    var rest := tenants[1..];
    if i :| 0 <= i < |rest| && rest[i].0 == id && rest[i].1.customerId == Some(customer) {
      assert tenants[i + 1] == rest[i];
    }
    if i :| 0 < i < |tenants| && tenants[i].0 == id && tenants[i].1.customerId == Some(customer) {
      assert rest[i - 1] == tenants[i];
    }
  }

  /** A subscription belongs to the workspace its label names, if there is one, else to one with its customer, if
      there is one. */
  lemma TenantForIs(tenants: Dict<string, Tenant>, s: Subscription)
    ensures var r := TenantFor(tenants, s);
            if s.tenantId.Some? && s.tenantId.value != "" && HasKey(tenants, s.tenantId.value) then r == s.tenantId
            else
              && (r.Some? <==> s.customer.Some? && exists id :: HasCustomer(tenants, id, s.customer.value))
              && (r.Some? ==> HasCustomer(tenants, r.value, s.customer.value))
  {
    if s.customer.Some? { ByCustomerIs(tenants, s.customer.value); }
  }

  /** No event is lost: what was emitted stays to be delivered, and a change is what Stripe then holds. */
  lemma {:induction false} NothingIsLost(worlds: seq<World>, moves: seq<Move>, prices: set<string>, i: nat)
    requires IsRun(worlds, moves, prices) && i < |moves|
    ensures moves[i].Change? ==>
              && moves[i].subscription.id in worlds[i + 1].stripe
              && worlds[i + 1].stripe[moves[i].subscription.id] == moves[i].subscription
    ensures !moves[i].Deliver? ==> moves[i].event in worlds[|moves|].emitted
    ensures worlds[i].emitted <= worlds[|moves|].emitted
    decreases |moves| - i
  {
    if i + 1 < |moves| { NothingIsLost(worlds, moves, prices, i + 1); }
  }

  /** Delivering an event of another subscription leaves the workspace alone. */
  lemma {:induction false} OtherSync(w: World, sid: string, tid: string, prices: set<string>, other: string)
    requires Owned(w, sid, tid, prices) && other in w.stripe && other != sid
    ensures Get(Sync(w.db.tenants, w.stripe[other], prices).0, tid) == Get(w.db.tenants, tid)
  {
    var id := TenantFor(w.db.tenants, w.stripe[other]);
    if IsOurs(w.stripe[other], prices) && id.Some? && Get(w.db.tenants, id.value).Some? {
      GetAfterPut(w.db.tenants, id.value, Apply(Get(w.db.tenants, id.value).value, w.stripe[other]), tid);
    }
  }

  /** Delivering an event of this subscription brings the workspace up to date. */
  lemma {:induction false} OwnSync(w: World, sid: string, tid: string, prices: set<string>)
    requires Owned(w, sid, tid, prices) && sid in w.stripe
    ensures var t := Get(Sync(w.db.tenants, w.stripe[sid], prices).0, tid);
            t.Some? && Mirrors(t.value, w.stripe[sid])
  {
    GetAfterPut(w.db.tenants, tid, Apply(Get(w.db.tenants, tid).value, w.stripe[sid]), tid);
  }

  lemma DeliverKeepsInv(w: World, e: Event, sid: string, tid: string, prices: set<string>)
    requires Inv(w, sid, tid) && Owned(w, sid, tid, prices) && e in w.emitted
    ensures Inv(Next(w, Deliver(e, false), prices), sid, tid)
  {
    var w' := Next(w, Deliver(e, false), prices);
    var outcome := Handle(w.db, e, w.stripe, prices).1;
    if w'.db != w.db {
      PutKeepsDistinct(w.db.recorded, e.id, outcome.value);
      forall x | x in w.emitted && x != e ensures HasKey(w'.db.recorded, x.id) <==> HasKey(w.db.recorded, x.id) {}
      var subscription := SubscriptionOf(e);
      if subscription == Some(sid) {
        OwnSync(w, sid, tid, prices);
      } else {
        if Truthy(subscription) { OtherSync(w, sid, tid, prices, subscription.value); }
        if Outstanding(w, sid) {
          var x :| x in w.emitted && SubscriptionOf(x) == Some(sid) && !HasKey(w.db.recorded, x.id);
          assert x != e;
        }
      }
    }
  }

  lemma NextKeepsInv(w: World, m: Move, sid: string, tid: string, prices: set<string>)
    requires Inv(w, sid, tid) && Owned(w, sid, tid, prices) && Possible(w, m)
    ensures Inv(Next(w, m, prices), sid, tid)
  {
    var w' := Next(w, m, prices);
    match m {
      case Change(s, e) =>
        if s.id == sid {
          assert e in w'.emitted && !HasKey(w'.db.recorded, e.id);
        }
      case Emit(e) =>
      case Deliver(e, fails) => if !fails { DeliverKeepsInv(w, e, sid, tid, prices); }
    }
  }

  /** For any duplication, reordering and failed deliveries of the events of a subscription that
      stays ours with one workspace: whenever all its emitted events are recorded, the workspace
      mirrors Stripe's current subscription. */
  lemma {:induction false} WebhooksConverge(worlds: seq<World>, moves: seq<Move>, sid: string, tid: string,
                                            prices: set<string>)
    requires IsRun(worlds, moves, prices) && Inv(worlds[0], sid, tid)
    requires forall i :: 0 <= i < |worlds| ==> Owned(worlds[i], sid, tid, prices)
    ensures Inv(worlds[|moves|], sid, tid)
    ensures (forall e :: e in worlds[|moves|].emitted && SubscriptionOf(e) == Some(sid) ==>
               HasKey(worlds[|moves|].db.recorded, e.id)) ==> UpToDate(worlds[|moves|], sid, tid)
    decreases |moves|
  {
    if moves != [] {
      var last := |moves| - 1;
      var ws := worlds[..last + 1];
      assert forall i :: 0 <= i <= last ==> ws[i] == worlds[i];
      WebhooksConverge(ws, moves[..last], sid, tid, prices);
      NextKeepsInv(worlds[last], moves[last], sid, tid, prices);
    }
  }

  // ---- Checkout labels every subscription with its workspace ----

  ghost predicate GoodLabel(tenants: Dict<string, Tenant>, s: Subscription, sid: string, tid: string,
                            prices: set<string>)
  {
    if s.id == sid then IsOurs(s, prices) && s.tenantId == Some(tid)
    else IsOurs(s, prices) ==> Truthy(s.tenantId) && s.tenantId != Some(tid) && HasKey(tenants, s.tenantId.value)
  }

  /** Subscriptions of ours name existing workspaces, and only `sid` names `tid`. */
  ghost predicate Labelled(w: World, sid: string, tid: string, prices: set<string>) {
    && sid != "" && tid != "" && DistinctKeys(w.db.tenants) && HasKey(w.db.tenants, tid)
    && forall id :: id in w.stripe ==> w.stripe[id].id == id && GoodLabel(w.db.tenants, w.stripe[id], sid, tid, prices)
  }

  lemma SyncKeepsKeys(tenants: Dict<string, Tenant>, s: Subscription, prices: set<string>)
    requires DistinctKeys(tenants)
    ensures DistinctKeys(Sync(tenants, s, prices).0)
    ensures forall key :: HasKey(Sync(tenants, s, prices).0, key) <==> HasKey(tenants, key)
  {
    var id := TenantFor(tenants, s);
    if IsOurs(s, prices) && id.Some? && Get(tenants, id.value).Some? {
      var t := Apply(Get(tenants, id.value).value, s);
      PutKeepsDistinct(tenants, id.value, t);
      forall key ensures HasKey(Put(tenants, id.value, t), key) <==> HasKey(tenants, key) {
        GetAfterPut(tenants, id.value, t, key);
      }
    }
  }

  lemma NextKeepsLabels(w: World, m: Move, sid: string, tid: string, prices: set<string>)
    requires Labelled(w, sid, tid, prices) && Possible(w, m)
    requires m.Change? ==> GoodLabel(w.db.tenants, m.subscription, sid, tid, prices)
    ensures Labelled(Next(w, m, prices), sid, tid, prices)
    ensures forall key :: HasKey(Next(w, m, prices).db.tenants, key) <==> HasKey(w.db.tenants, key)
  {
    if m.Deliver? && !m.fails && Truthy(SubscriptionOf(m.event)) && SubscriptionOf(m.event).value in w.stripe {
      SyncKeepsKeys(w.db.tenants, w.stripe[SubscriptionOf(m.event).value], prices);
    }
  }

  /** So for a subscription labelled with its workspace at checkout, webhooks converge whatever the
      deliveries. */
  lemma {:induction false} LabelledConverge(worlds: seq<World>, moves: seq<Move>, sid: string, tid: string,
                                            prices: set<string>)
    requires IsRun(worlds, moves, prices) && Inv(worlds[0], sid, tid) && Labelled(worlds[0], sid, tid, prices)
    requires forall i :: 0 <= i < |moves| && moves[i].Change? ==>
               GoodLabel(worlds[0].db.tenants, moves[i].subscription, sid, tid, prices)
    ensures Labelled(worlds[|moves|], sid, tid, prices) && Inv(worlds[|moves|], sid, tid)
    ensures forall key :: HasKey(worlds[|moves|].db.tenants, key) <==> HasKey(worlds[0].db.tenants, key)
    ensures (forall e :: e in worlds[|moves|].emitted && SubscriptionOf(e) == Some(sid) ==>
               HasKey(worlds[|moves|].db.recorded, e.id)) ==> UpToDate(worlds[|moves|], sid, tid)
    decreases |moves|
  {
    if moves != [] {
      var last := |moves| - 1;
      var ws := worlds[..last + 1];
      assert forall i :: 0 <= i <= last ==> ws[i] == worlds[i];
      LabelledConverge(ws, moves[..last], sid, tid, prices);
      assert Owned(worlds[last], sid, tid, prices);
      NextKeepsInv(worlds[last], moves[last], sid, tid, prices);
      NextKeepsLabels(worlds[last], moves[last], sid, tid, prices);
    }
  }

  /** Delivering a recorded event again changes nothing. */
  lemma RedeliveryIsNoOp(w: World, e: Event, fails: bool, prices: set<string>)
    requires HasKey(w.db.recorded, e.id)
    ensures Next(w, Deliver(e, fails), prices) == w
  {
  }

  // ---- Retrying until every event is accepted always gets there ----

  function DeliverAll(w: World, es: seq<Event>, prices: set<string>): World
    decreases |es|
  {
    if es == [] then w else DeliverAll(Next(w, Deliver(es[0], false), prices), es[1..], prices)
  }

  ghost predicate Fetchable(w: World) {
    forall e :: e in w.emitted && Truthy(SubscriptionOf(e)) ==> SubscriptionOf(e).value in w.stripe
  }

  lemma {:induction false} DeliverAllRecords(w: World, es: seq<Event>, prices: set<string>)
    requires DistinctKeys(w.db.recorded) && Fetchable(w) && forall i :: 0 <= i < |es| ==> es[i] in w.emitted
    ensures var w' := DeliverAll(w, es, prices);
            && w'.stripe == w.stripe && w'.emitted == w.emitted
            && (forall i :: 0 <= i < |es| ==> HasKey(w'.db.recorded, es[i].id))
            && forall id :: HasKey(w.db.recorded, id) ==> HasKey(w'.db.recorded, id)
    decreases |es|
  {
    if es != [] {
      var next := Next(w, Deliver(es[0], false), prices);
      var outcome := Handle(w.db, es[0], w.stripe, prices).1;
      assert es[0] in w.emitted;
      if !HasKey(w.db.recorded, es[0].id) {
        PutKeepsDistinct(w.db.recorded, es[0].id, outcome.value);
        forall id ensures HasKey(next.db.recorded, id) <==> id == es[0].id || HasKey(w.db.recorded, id) {}
      }
      DeliverAllRecords(next, es[1..], prices);
      assert forall i :: 0 < i < |es| ==> es[i] == es[1..][i - 1];
    }
  }

  // ---- The service, writing its tables in place ----

  /** The workspace shows the subscription; its Stripe customer is set when it had none and one is named. No
      other workspace changes. */
  ghost predicate Synced(before: Dict<string, Tenant>, after: Dict<string, Tenant>, id: string, s: Subscription) {
    forall key :: SyncedAt(Get(before, key), Get(after, key), key == id, s)
  }

  ghost predicate SyncedAt(before: Option<Tenant>, after: Option<Tenant>, own: bool, s: Subscription) {
    if !own then after == before
    else
      && before.Some? && after.Some? && Mirrors(after.value, s)
      && after.value.customerId
         == if Truthy(before.value.customerId) || s.customer.None? then before.value.customerId else s.customer
  }

  /** The workspace a subscription of ours belongs to. */
  function Workspace(tenants: Dict<string, Tenant>, s: Subscription, prices: set<string>): Option<string> {
    var id := TenantFor(tenants, s);
    if IsOurs(s, prices) && id.Some? && HasKey(tenants, id.value) then id else None
  }

  lemma SyncMeans(tenants: Dict<string, Tenant>, s: Subscription, prices: set<string>)
    requires DistinctKeys(tenants)
    ensures var (after, found) := Sync(tenants, s, prices);
            && (found <==> Workspace(tenants, s, prices).Some?)
            && DistinctKeys(after)
            && (if found then Synced(tenants, after, Workspace(tenants, s, prices).value, s) else after == tenants)
  {
    var id := Workspace(tenants, s, prices);
    SyncKeepsKeys(tenants, s, prices);
    if id.Some? {
      forall key ensures key != id.value ==> Get(Sync(tenants, s, prices).0, key) == Get(tenants, key) {
        GetAfterPut(tenants, id.value, Apply(Get(tenants, id.value).value, s), key);
      }
      GetAfterPut(tenants, id.value, Apply(Get(tenants, id.value).value, s), id.value);
    }
  }

  /** What handling leaves: a duplicate or a failure, everything as it was; else the event recorded, and the
      workspace of its subscription, if any, in step with Stripe. */
  ghost predicate Handled(before: Db, after: Db, e: Event, stripe: map<string, Subscription>, prices: set<string>,
                          outcome: Option<string>)
  {
    var sid := SubscriptionOf(e);
    if HasKey(before.recorded, e.id) then outcome == Some("duplicate") && after == before
    else if Truthy(sid) && sid.value !in stripe then outcome == None && after == before
    else
      && (forall id :: HasKey(after.recorded, id) <==> id == e.id || HasKey(before.recorded, id))
      && outcome.Some? && Get(after.recorded, e.id) == outcome
      && if Truthy(sid) && Workspace(before.tenants, stripe[sid.value], prices).Some?
         then outcome == Some("synced")
              && Synced(before.tenants, after.tenants, Workspace(before.tenants, stripe[sid.value], prices).value,
                        stripe[sid.value])
         else outcome == Some(if Truthy(sid) then "not_ours" else "ignored") && after.tenants == before.tenants
  }

  lemma HandleMeans(db: Db, e: Event, stripe: map<string, Subscription>, prices: set<string>)
    requires DistinctKeys(db.tenants) && DistinctKeys(db.recorded)
    ensures var (after, outcome) := Handle(db, e, stripe, prices); Handled(db, after, e, stripe, prices, outcome)
  {
    var (after, outcome) := Handle(db, e, stripe, prices);
    var sid := SubscriptionOf(e);
    if outcome.Some? && !HasKey(db.recorded, e.id) {
      forall id ensures HasKey(after.recorded, id) <==> id == e.id || HasKey(db.recorded, id) {}
      GetAfterPut(db.recorded, e.id, outcome.value, e.id);
      if Truthy(sid) { SyncMeans(db.tenants, stripe[sid.value], prices); }
    }
  }

  class SubscriptionSync {
    var tenants: Dict<string, Tenant>
    var recorded: Dict<string, string>

    ghost predicate Valid()
      reads this
    {
      DistinctKeys(tenants) && DistinctKeys(recorded)
    }

    constructor (db: Db)
      requires DistinctKeys(db.tenants) && DistinctKeys(db.recorded)
      ensures Valid() && Tables() == db
    {
      tenants, recorded := db.tenants, db.recorded;
    }

    function Tables(): Db
      reads this
    {
      Db(tenants, recorded)
    }

    /** Finds a workspace exactly when the subscription is ours and names one; it then mirrors it. */
    method SyncSubscription(s: Subscription, prices: set<string>) returns (found: bool)
      requires Valid()
      modifies this`tenants
      ensures Valid()
      ensures (tenants, found) == Sync(old(tenants), s, prices)
      ensures found <==> Workspace(old(tenants), s, prices).Some?
      ensures if found then Synced(old(tenants), tenants, Workspace(old(tenants), s, prices).value, s)
              else tenants == old(tenants)
    {
      SyncMeans(tenants, s, prices);
      if !IsOurs(s, prices) { return false; }
      var id := TenantFor(tenants, s);
      if id.None? { return false; }
      var tenant := Get(tenants, id.value);
      if tenant.None? { return false; }
      tenants := Put(tenants, id.value, Apply(tenant.value, s));
      return true;
    }

    /** Handles one delivered event and commits, or raises and rolls back. Whatever Stripe has emitted, a
        workspace with an owned subscription stays in step or has an event outstanding. */
    method HandleEvent(e: Event, stripe: map<string, Subscription>, prices: set<string>, ghost emitted: set<Event>)
      returns (outcome: Option<string>)
      requires Valid() && e in emitted
      modifies this
      ensures Valid()
      ensures (Tables(), outcome) == Handle(old(Tables()), e, stripe, prices)
      ensures Handled(old(Tables()), Tables(), e, stripe, prices, outcome)
      ensures forall sid, tid ::
        && Inv(World(stripe, emitted, old(Tables())), sid, tid)
        && Owned(World(stripe, emitted, old(Tables())), sid, tid, prices) ==>
          Inv(World(stripe, emitted, Tables()), sid, tid)
    {
      HandleMeans(Tables(), e, stripe, prices);
      HandleKeepsInv(World(stripe, emitted, Tables()), e, prices);
      if HasKey(recorded, e.id) { return Some("duplicate"); }
      var subscription := SubscriptionOf(e);
      var result := "ignored";
      if Truthy(subscription) {
        if subscription.value !in stripe { return None; }
        var found := SyncSubscription(stripe[subscription.value], prices);
        result := if found then "synced" else "not_ours";
      }
      PutKeepsDistinct(recorded, e.id, result);
      recorded := Put(recorded, e.id, result);
      return Some(result);
    }
  }

  lemma HandleKeepsInv(w: World, e: Event, prices: set<string>)
    requires e in w.emitted
    ensures forall sid, tid :: Inv(w, sid, tid) && Owned(w, sid, tid, prices) ==>
              Inv(w.(db := Handle(w.db, e, w.stripe, prices).0), sid, tid)
  {
    forall sid, tid | Inv(w, sid, tid) && Owned(w, sid, tid, prices)
      ensures Inv(w.(db := Handle(w.db, e, w.stripe, prices).0), sid, tid)
    {
      DeliverKeepsInv(w, e, sid, tid, prices);
    }
  }
}
