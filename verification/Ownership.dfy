/**
 Merchant ownership of every row (backend/scripts/payment_db_backup.py): the eight ownership counts
 a backup insists on, and what every run of the store keeps them at.
 */
module Ownership {
  import opened Wrappers
  import opened PaymentState
  import opened PaymentTables
  import opened StoreInvariants
  import opened Creation

  datatype OwnershipChecks = OwnershipChecks(
    paymentOwnerOrphans: nat,
    idempotencyOwnerOrphans: nat,
    idempotencyPaymentMismatch: nat,
    eventOwnerOrphans: nat,
    eventPaymentMismatch: nat,
    endpointOwnerOrphans: nat,
    credentialOwnerOrphans: nat,
    deliveryOwnerMismatch: nat)

  predicate Orphan(t: Tables, merchantId: string) {
    merchantId == "" || merchantId !in t.merchants
  }

  ghost function Checks(t: Tables): OwnershipChecks {
    OwnershipChecks(|OrphanPayments(t)|, |OrphanKeys(t)|, |MismatchedKeys(t)|, |OrphanEvents(t)|, |MismatchedEvents(t)|,
                    |OrphanEndpoints(t)|, |OrphanCredentials(t)|, |MismatchedDeliveries(t)|)
  }

  ghost function OrphanPayments(t: Tables): set<string> {
    set id | id in t.payments && Orphan(t, t.payments[id].merchantId)
  }

  ghost function OrphanKeys(t: Tables): set<(string, string)> {
    set k | k in t.idempotency && Orphan(t, k.0)
  }

  ghost function MismatchedKeys(t: Tables): set<(string, string)> {
    set k | k in t.idempotency && t.idempotency[k].paymentId in t.payments
            && k.0 != t.payments[t.idempotency[k].paymentId].merchantId
  }

  ghost function OrphanEvents(t: Tables): set<int> {
    set i | 0 <= i < |t.events| && Orphan(t, t.events[i].merchantId)
  }

  ghost function MismatchedEvents(t: Tables): set<int> {
    set i | 0 <= i < |t.events| && t.events[i].id.paymentId in t.payments
            && t.events[i].merchantId != t.payments[t.events[i].id.paymentId].merchantId
  }

  ghost function OrphanCredentials(t: Tables): set<string> {
    set c | c in t.credentials && Orphan(t, t.credentials[c])
  }

  ghost function MismatchedDeliveries(t: Tables): set<(DeliveryId, int)> {
    set d, i | d in t.deliveries && 0 <= i < |t.events| && t.events[i].id == d.eventId
               && d.endpointId in t.endpoints
               && t.events[i].merchantId != t.endpoints[d.endpointId].merchantId :: (d, i)
  }

  ghost function OrphanEndpoints(t: Tables): set<string> {
    set e | e in t.endpoints && Orphan(t, t.endpoints[e].merchantId)
  }

  /** What it means for each count to be zero. */
  lemma ChecksMeaning(t: Tables)
    ensures var c := Checks(t);
      && (c.paymentOwnerOrphans == 0 <==> forall id :: id in t.payments ==> Known(t, t.payments[id].merchantId))
      && (c.idempotencyOwnerOrphans == 0 <==> forall k :: k in t.idempotency ==> Known(t, k.0))
      && (c.idempotencyPaymentMismatch == 0 <==>
            forall k :: k in t.idempotency && t.idempotency[k].paymentId in t.payments ==>
              t.payments[t.idempotency[k].paymentId].merchantId == k.0)
      && (c.eventOwnerOrphans == 0 <==> forall i :: 0 <= i < |t.events| ==> Known(t, t.events[i].merchantId))
      && (c.eventPaymentMismatch == 0 <==>
            forall i :: 0 <= i < |t.events| && t.events[i].id.paymentId in t.payments ==>
              t.payments[t.events[i].id.paymentId].merchantId == t.events[i].merchantId)
      && (c.endpointOwnerOrphans == 0 <==> forall e :: e in t.endpoints ==> Known(t, t.endpoints[e].merchantId))
      && (c.credentialOwnerOrphans == 0 <==> forall c :: c in t.credentials ==> Known(t, t.credentials[c]))
      && (c.deliveryOwnerMismatch == 0 <==>
            forall d, i :: d in t.deliveries && 0 <= i < |t.events| && t.events[i].id == d.eventId && d.endpointId in t.endpoints ==>
              t.events[i].merchantId == t.endpoints[d.endpointId].merchantId)
  {
    RootsMeaning(t);
    EventsMeaning(t);
    DeliveriesMeaning(t);
  }

  predicate Known(t: Tables, merchantId: string) {
    merchantId != "" && merchantId in t.merchants
  }

  lemma Uncounted<T>(s: set<T>)
    ensures |s| == 0 <==> forall x :: x !in s
  {
  }

  lemma RootsMeaning(t: Tables)
    ensures var c := Checks(t);
      && (c.paymentOwnerOrphans == 0 <==> forall id :: id in t.payments ==> Known(t, t.payments[id].merchantId))
      && (c.idempotencyOwnerOrphans == 0 <==> forall k :: k in t.idempotency ==> Known(t, k.0))
      && (c.idempotencyPaymentMismatch == 0 <==>
            forall k :: k in t.idempotency && t.idempotency[k].paymentId in t.payments ==>
              t.payments[t.idempotency[k].paymentId].merchantId == k.0)
      && (c.endpointOwnerOrphans == 0 <==> forall e :: e in t.endpoints ==> Known(t, t.endpoints[e].merchantId))
      && (c.credentialOwnerOrphans == 0 <==> forall c :: c in t.credentials ==> Known(t, t.credentials[c]))
  {
    Uncounted(OrphanPayments(t));
    assert forall id :: id in OrphanPayments(t) <==> id in t.payments && !Known(t, t.payments[id].merchantId);
    Uncounted(OrphanKeys(t));
    assert forall k :: k in OrphanKeys(t) <==> k in t.idempotency && !Known(t, k.0);
    Uncounted(MismatchedKeys(t));
    assert forall k :: k in MismatchedKeys(t) <==>
        k in t.idempotency && t.idempotency[k].paymentId in t.payments && t.payments[t.idempotency[k].paymentId].merchantId != k.0;
    Uncounted(OrphanEndpoints(t));
    assert forall e :: e in OrphanEndpoints(t) <==> e in t.endpoints && !Known(t, t.endpoints[e].merchantId);
    Uncounted(OrphanCredentials(t));
    assert forall c :: c in OrphanCredentials(t) <==> c in t.credentials && !Known(t, t.credentials[c]);
  }

  lemma EventsMeaning(t: Tables)
    ensures var c := Checks(t);
      && (c.eventOwnerOrphans == 0 <==> forall i :: 0 <= i < |t.events| ==> Known(t, t.events[i].merchantId))
      && (c.eventPaymentMismatch == 0 <==>
            forall i :: 0 <= i < |t.events| && t.events[i].id.paymentId in t.payments ==>
              t.payments[t.events[i].id.paymentId].merchantId == t.events[i].merchantId)
  {
    Uncounted(OrphanEvents(t));
    assert forall i :: i in OrphanEvents(t) <==> 0 <= i < |t.events| && !Known(t, t.events[i].merchantId);
    Uncounted(MismatchedEvents(t));
    assert forall i :: i in MismatchedEvents(t) <==>
        0 <= i < |t.events| && t.events[i].id.paymentId in t.payments
        && t.payments[t.events[i].id.paymentId].merchantId != t.events[i].merchantId;
  }

  lemma DeliveriesMeaning(t: Tables)
    ensures Checks(t).deliveryOwnerMismatch == 0 <==>
            forall d, i :: d in t.deliveries && 0 <= i < |t.events| && t.events[i].id == d.eventId && d.endpointId in t.endpoints ==>
              t.events[i].merchantId == t.endpoints[d.endpointId].merchantId
  {
    Uncounted(MismatchedDeliveries(t));
    assert forall d, i :: (d, i) in MismatchedDeliveries(t) <==>
        d in t.deliveries && 0 <= i < |t.events| && t.events[i].id == d.eventId && d.endpointId in t.endpoints
        && t.events[i].merchantId != t.endpoints[d.endpointId].merchantId;
  }

  /** Each row's merchant, and the merchant of the row it points to. */
  ghost predicate Owned(t: Tables) {
    && OwnedRoots(t)
    && OwnedEvents(t)
    && OwnedDeliveries(t)
  }

  ghost predicate OwnedRoots(t: Tables) {
    && LEGACY_MERCHANT_ID in t.merchants
    && (forall m :: m in t.merchants ==> m != "")
    && (forall c :: c in t.credentials ==> t.credentials[c] in t.merchants)
    && (forall id :: id in t.payments ==> t.payments[id].merchantId in t.merchants)
  }

  ghost predicate OwnedEvents(t: Tables) {
    forall i :: 0 <= i < |t.events| ==>
      t.events[i].id.paymentId in t.payments && t.events[i].merchantId == t.payments[t.events[i].id.paymentId].merchantId
  }

  ghost predicate OwnedDeliveries(t: Tables) {
    forall d :: d in t.deliveries ==>
      && EventStored(t.events, d.eventId)
      && d.eventId.paymentId in t.payments
      && d.endpointId in t.endpoints
      && t.endpoints[d.endpointId].merchantId == t.payments[d.eventId.paymentId].merchantId
  }

  /** A payment row inserted or updated, its event appended and fanned out. */
  lemma InsertEventKeepsOwners(t: Tables, id: string, p: Payment, eventType: EventType, at: int)
    requires Owned(t)
    requires p.merchantId in t.merchants && (id in t.payments ==> t.payments[id].merchantId == p.merchantId)
    ensures Owned(InsertEvent(t.(payments := t.payments[id := p]), id, p, eventType, at))
  {
    var u := t.(payments := t.payments[id := p]);
    assert OwnedEvents(u) && OwnedDeliveries(u) && OwnedRoots(u);
    if !EventStored(u.events, EventId(id, p.version, eventType)) {
      AppendKeepsEventOwners(u, id, p, eventType, at);
      FanOutKeepsDeliveryOwners(u, id, p, eventType, at);
    }
  }

  lemma AppendKeepsEventOwners(u: Tables, id: string, p: Payment, eventType: EventType, at: int)
    requires OwnedEvents(u) && OwnedRoots(u) && id in u.payments && u.payments[id] == p
    ensures OwnedEvents(InsertEvent(u, id, p, eventType, at)) && OwnedRoots(InsertEvent(u, id, p, eventType, at))
  {
  }

  lemma FanOutKeepsDeliveryOwners(u: Tables, id: string, p: Payment, eventType: EventType, at: int)
    requires OwnedDeliveries(u) && id in u.payments && u.payments[id] == p
    requires !EventStored(u.events, EventId(id, p.version, eventType))
    ensures OwnedDeliveries(InsertEvent(u, id, p, eventType, at))
  {
    var eventId := EventId(id, p.version, eventType);
    var t' := InsertEvent(u, id, p, eventType, at);
    FanOutMembers(u.endpoints, eventId, p.merchantId, at);
    assert t'.events[|u.events|].id == eventId;
    forall d | d in t'.deliveries
      ensures EventStored(t'.events, d.eventId)
    {
      if d in u.deliveries {
        var i :| 0 <= i < |u.events| && u.events[i].id == d.eventId;
        assert t'.events[i].id == d.eventId;
      }
    }
  }

  lemma StepKeepsOwners(t: Tables, s: Step)
    requires Owned(t)
    ensures Owned(Apply(t, s))
  {
    match s
    case Create(req) => CreateKeepsOwners(t, req);
    case Refresh(id, at) => RefreshKeepsOwners(t, id, at);
    case NewMerchant(m, name) => MerchantKeepsOwners(t, m, name);
    case NewCredential(c, m, tag) => CredentialKeepsOwners(t, c, m, tag);
    case _ => DeliveryStepsKeepOwners(t, s);
  }

  lemma MerchantKeepsOwners(t: Tables, merchantId: string, displayName: string)
    requires Owned(t)
    ensures Owned(AddMerchant(t, merchantId, displayName).tables)
  {
    var t' := AddMerchant(t, merchantId, displayName).tables;
    assert t' == t.(merchants := t'.merchants) && t.merchants <= t'.merchants;
    assert OwnedEvents(t') && OwnedDeliveries(t');
  }

  lemma CredentialKeepsOwners(t: Tables, credentialId: string, merchantId: string, tag: Option<string>)
    requires Owned(t)
    ensures Owned(AddCredential(t, credentialId, merchantId, tag).tables)
  {
    var t' := AddCredential(t, credentialId, merchantId, tag).tables;
    assert t' == t.(credentials := t'.credentials);
    assert OwnedEvents(t') && OwnedDeliveries(t');
  }

  lemma CreateKeepsOwners(t: Tables, req: CreateRequest)
    requires Owned(t)
    ensures Owned(CreatePayment(t, req).tables)
  {
    CreateAnatomy(t, req);
    var t' := CreatePayment(t, req).tables;
    if t' != t {
      InsertEventKeepsOwners(t, req.paymentId, NewPayment(req), Created, req.createdAt);
    }
  }

  lemma RefreshKeepsOwners(t: Tables, id: string, at: int)
    requires Owned(t)
    ensures Owned(RefreshPayment(t, id, at).tables)
  {
    RefreshAnatomy(t, id, at);
    var t' := RefreshPayment(t, id, at).tables;
    if t' != t {
      var e := EvaluatePayment(t, id, at).value;
      InsertEventKeepsOwners(t, id, Updated(t.payments[id], e, at), Became(e.status), at);
    }
  }

  lemma DeliveryStepsKeepOwners(t: Tables, s: Step)
    requires Owned(t) && !s.Create? && !s.Refresh? && !s.NewMerchant? && !s.NewCredential?
    ensures Owned(Apply(t, s))
  {
    OtherStepsFrame(t, s);
    EndpointsKeepOwner(t, s);
    QuietFrame(t, s);
    OwnersFollow(t, Apply(t, s));
  }

  lemma QuietFrame(t: Tables, s: Step)
    requires !s.Create? && !s.Refresh? && !s.NewMerchant? && !s.NewCredential?
    ensures var t' := Apply(t, s);
      && t'.merchants == t.merchants && t'.credentials == t.credentials
      && t'.deliveries.Keys == t.deliveries.Keys
  {
    match s
    case NewEndpoint(_, _, _, _, _) =>
    case CloseEndpoint(_, _, _) =>
    case Upsert(id, o, at) => UpsertFrame(t, id, o, at);
    case DeleteNotIn(id, txids) => DeleteFrame(t, id, txids);
    case SetTip(height, hash, at) => TipFrame(t, height, hash, at);
    case Succeed(_, _, _) =>
    case Fail(_, _, _, _, _, _) =>
  }

  lemma OwnersFollow(t: Tables, t': Tables)
    requires Owned(t) && t'.merchants == t.merchants && t'.credentials == t.credentials
    requires t'.payments == t.payments && t'.events == t.events && t'.idempotency == t.idempotency
    requires t'.baselines == t.baselines
    requires t'.deliveries.Keys == t.deliveries.Keys
    requires forall e :: e in t.endpoints ==> e in t'.endpoints && t'.endpoints[e].merchantId == t.endpoints[e].merchantId
    ensures Owned(t')
  {
    assert forall d :: d in t'.deliveries ==> d in t.deliveries;
  }

  lemma EndpointsKeepOwner(t: Tables, s: Step)
    ensures forall e :: e in t.endpoints ==>
              e in Apply(t, s).endpoints && Apply(t, s).endpoints[e].merchantId == t.endpoints[e].merchantId
  {
    if !s.NewEndpoint? && !s.CloseEndpoint? {
      EndpointsFrame(t, s);
    }
  }

  lemma EndpointsFrame(t: Tables, s: Step)
    requires !s.NewEndpoint? && !s.CloseEndpoint?
    ensures Apply(t, s).endpoints == t.endpoints
  {
    if s.Create? {
      CreateAnatomy(t, s.req);
    } else if s.Refresh? {
      RefreshAnatomy(t, s.paymentId, s.at);
    } else {
      EndpointsFrameOther(t, s);
    }
  }

  lemma EndpointsFrameOther(t: Tables, s: Step)
    requires !s.NewEndpoint? && !s.CloseEndpoint? && !s.Create? && !s.Refresh?
    ensures Apply(t, s).endpoints == t.endpoints
  {
  }

  lemma {:induction false} RunKeepsOwners(t: Tables, steps: seq<Step>)
    requires Owned(t)
    ensures Owned(Run(t, steps))
    decreases |steps|
  {
    if steps != [] {
      StepKeepsOwners(t, steps[0]);
      RunKeepsOwners(Apply(t, steps[0]), steps[1..]);
    }
  }

  // ---------- Where endpoints come from ----------

  /** Step `i` of a run registers a new endpoint. */
  ghost predicate Registers(steps: seq<Step>, i: nat) {
    i < |steps| && steps[i].NewEndpoint? && steps[i].endpointId !in Run(EMPTY_TABLES, steps[..i]).endpoints
  }

  /** The endpoints of a run are those its registering steps named, under the merchants they named. */
  lemma {:induction false} EndpointOrigins(steps: seq<Step>)
    ensures var t := Run(EMPTY_TABLES, steps);
      && (forall e :: e in t.endpoints ==> exists i: nat ::
            Registers(steps, i) && steps[i].endpointId == e && steps[i].merchantId == t.endpoints[e].merchantId)
      && (forall i: nat :: Registers(steps, i) ==>
            steps[i].endpointId in t.endpoints && t.endpoints[steps[i].endpointId].merchantId == steps[i].merchantId)
    decreases |steps|
  {
    if steps != [] {
      var n := |steps| - 1;
      var front, last := steps[..n], steps[n];
      EndpointOrigins(front);
      assert steps == front + [last];
      RunThen(EMPTY_TABLES, front, last);
      var before, t := Run(EMPTY_TABLES, front), Run(EMPTY_TABLES, steps);
      EndpointsKeepOwner(before, last);
      forall i: nat | i < n
        ensures Registers(steps, i) <==> Registers(front, i)
      {
        assert steps[..i] == front[..i];
      }
      forall e | e in t.endpoints
        ensures exists i: nat ::
                  Registers(steps, i) && steps[i].endpointId == e && steps[i].merchantId == t.endpoints[e].merchantId
      {
        if e in before.endpoints {
          var i: nat :| Registers(front, i) && front[i].endpointId == e && front[i].merchantId == before.endpoints[e].merchantId;
          assert Registers(steps, i) && steps[i] == front[i];
        } else {
          if !last.NewEndpoint? && !last.CloseEndpoint? {
            EndpointsFrame(before, last);
          }
          assert Registers(steps, n);
        }
      }
    }
  }

  /** In every reachable state seven of the eight ownership counts are zero whatever was done, among
      them that a delivery's event and endpoint share a merchant; the eighth is zero exactly when every
      endpoint was registered for a merchant that exists. */
  lemma OwnershipClosure(steps: seq<Step>)
    ensures var t := Run(EMPTY_TABLES, steps);
      && Checks(t) == OwnershipChecks(0, 0, 0, 0, 0, Checks(t).endpointOwnerOrphans, 0, 0)
      && (Checks(t).endpointOwnerOrphans == 0 <==>
          forall i: nat :: Registers(steps, i) ==> steps[i].merchantId in t.merchants)
  {
    RunKeepsOwners(EMPTY_TABLES, steps);
    EmptySound();
    RunSound(EMPTY_TABLES, steps);
    var t := Run(EMPTY_TABLES, steps);
    OwnedChecks(t);
    EndpointOrigins(steps);
    if OrphanEndpoints(t) == {} {
      forall i: nat | Registers(steps, i)
        ensures steps[i].merchantId in t.merchants
      {
        assert steps[i].endpointId !in OrphanEndpoints(t);
      }
    } else {
      var e :| e in OrphanEndpoints(t);
      var i: nat :| Registers(steps, i) && steps[i].endpointId == e && steps[i].merchantId == t.endpoints[e].merchantId;
    }
  }

  lemma OwnedChecks(t: Tables)
    requires Owned(t) && KeysSound(t)
    ensures Checks(t) == OwnershipChecks(0, 0, 0, 0, 0, |OrphanEndpoints(t)|, 0, 0)
  {
    assert (set id | id in t.payments && Orphan(t, t.payments[id].merchantId)) == {};
    assert (set k | k in t.idempotency && Orphan(t, k.0)) == {};
    assert (set k | k in t.idempotency && t.idempotency[k].paymentId in t.payments
                    && k.0 != t.payments[t.idempotency[k].paymentId].merchantId) == {};
    assert (set i | 0 <= i < |t.events| && Orphan(t, t.events[i].merchantId)) == {};
    assert (set i | 0 <= i < |t.events| && t.events[i].id.paymentId in t.payments
                    && t.events[i].merchantId != t.payments[t.events[i].id.paymentId].merchantId) == {};
    assert (set c | c in t.credentials && Orphan(t, t.credentials[c])) == {};
    assert (set d, i | d in t.deliveries && 0 <= i < |t.events| && t.events[i].id == d.eventId
                       && d.endpointId in t.endpoints
                       && t.events[i].merchantId != t.endpoints[d.endpointId].merchantId :: (d, i)) == {};
  }

  /** The store itself never asks whether an endpoint's merchant exists, so one step makes the eighth count
      one. Over HTTP the merchant is the caller's own, which exists. */
  lemma EndpointWithoutMerchant()
    ensures var t := Run(EMPTY_TABLES, [NewEndpoint("whe_1", "mrc_nobody", "https://shop.example/hook", None, 0)]);
      Checks(t).endpointOwnerOrphans == 1
  {
    var s := NewEndpoint("whe_1", "mrc_nobody", "https://shop.example/hook", None, 0);
    var t := Apply(EMPTY_TABLES, s);
    assert [s][1..] == [];
    assert t.endpoints == map["whe_1" := Endpoint("mrc_nobody", "https://shop.example/hook", None, true, 0, 0)];
    assert OrphanEndpoints(t) == {"whe_1"};
  }
}
