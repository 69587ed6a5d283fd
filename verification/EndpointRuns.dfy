/**
 Webhook endpoints over whole runs (backend/app/services/payment_store.py): what an endpoint receives once it
 has been added, and that one that has been disabled receives nothing more.
 */
module EndpointRuns {
  import opened Wrappers
  import opened PaymentState
  import opened PaymentTables
  import opened StoreInvariants
  import opened Creation
  import opened WebhookWorker
  import opened DeliveryRuns

  /** An endpoint just added receives each later event of its merchant, of a type it takes, as a delivery that is
      due at once; and no other event. */
  lemma AddedReceives(t: Tables, endpointId: string, merchantId: string, url: string, eventTypes: Option<set<EventType>>,
                      since: int, id: string, p: Payment, eventType: EventType, at: int)
    requires endpointId !in t.endpoints && !EventStored(t.events, EventId(id, p.version, eventType))
    requires DeliveryId(EventId(id, p.version, eventType), endpointId) !in t.deliveries
    ensures var added := AddEndpoint(t, endpointId, merchantId, url, eventTypes, since);
      var u, d := InsertEvent(added.tables, id, p, eventType, at), DeliveryId(EventId(id, p.version, eventType), endpointId);
      && added.result == Ok(()) && added.tables.endpoints[endpointId].url == url
      && (d in u.deliveries <==> p.merchantId == merchantId && (eventTypes == None || eventType in eventTypes.value))
      && (d in u.deliveries ==> Unattempted(u.deliveries[d], at) && forall now :: Due(u, d, now) <==> now >= at)
  {
    var v := AddEndpoint(t, endpointId, merchantId, url, eventTypes, since).tables;
    FanOutMembers(v.endpoints, EventId(id, p.version, eventType), p.merchantId, at);
    LastIsStored(v.events, Event(EventId(id, p.version, eventType), p.merchantId, at, PayloadOf(p)));
  }

  lemma LastIsStored(events: seq<Event>, e: Event)
    ensures EventStored(events + [e], e.id)
  {
    assert (events + [e])[|events|] == e;
  }

  /** Adding an endpoint under an id in use changes nothing. */
  lemma AddedOnce(t: Tables, endpointId: string, merchantId: string, url: string, eventTypes: Option<set<EventType>>, at: int)
    ensures AddEndpoint(t, endpointId, merchantId, url, eventTypes, at).result.Ok? <==> endpointId !in t.endpoints
    ensures endpointId in t.endpoints ==> AddEndpoint(t, endpointId, merchantId, url, eventTypes, at).tables == t
  {
  }

  /** The endpoint is there and takes nothing. */
  predicate Closed(t: Tables, endpointId: string) {
    endpointId in t.endpoints && t.endpoints[endpointId].enabled == false
  }

  /** Only its own merchant disables an endpoint; it is then closed, and all others are as they were. */
  lemma DisableCloses(t: Tables, endpointId: string, merchantId: string, at: int)
    ensures var o := DisableEndpoint(t, endpointId, merchantId, at);
      if endpointId in t.endpoints && t.endpoints[endpointId].merchantId == merchantId then
        && o.result == Ok(()) && Closed(o.tables, endpointId) && o.tables.endpoints.Keys == t.endpoints.Keys
        && o.tables == t.(endpoints := o.tables.endpoints)
        && forall e :: e in t.endpoints && e != endpointId ==> o.tables.endpoints[e] == t.endpoints[e]
      else
        o == Outcome(t, Err(NotFound))
  {
  }

  /** Nothing more is queued for the endpoint. */
  ghost predicate NothingNew(t: Tables, t': Tables, endpointId: string) {
    Closed(t', endpointId) && forall d :: d in t'.deliveries && d.endpointId == endpointId ==> d in t.deliveries
  }

  lemma InsertQueuesNothing(t: Tables, id: string, p: Payment, eventType: EventType, at: int, endpointId: string)
    requires Closed(t, endpointId)
    ensures NothingNew(t, InsertEvent(t, id, p, eventType, at), endpointId)
  {
    FanOutMembers(t.endpoints, EventId(id, p.version, eventType), p.merchantId, at);
  }

  lemma StepQueuesNothing(t: Tables, s: Step, endpointId: string)
    requires Closed(t, endpointId)
    ensures NothingNew(t, Apply(t, s), endpointId)
  {
    match s
    case Create(req) => CreateQueuesNothing(t, req, endpointId);
    case Refresh(id, at) => RefreshQueuesNothing(t, id, at, endpointId);
    case Succeed(_, _, _) =>
    case Fail(_, _, _, _, _, _) =>
    case _ =>
      OtherDeliveriesFrame(t, s);
      OtherKeepsClosed(t, s, endpointId);
  }

  lemma CreateQueuesNothing(t: Tables, req: CreateRequest, endpointId: string)
    requires Closed(t, endpointId)
    ensures NothingNew(t, PaymentTables.CreatePayment(t, req).tables, endpointId)
  {
    CreateAnatomy(t, req);
    InsertQueuesNothing(Unlogged(t, req), req.paymentId, NewPayment(req), Created, req.createdAt, endpointId);
  }

  lemma RefreshQueuesNothing(t: Tables, id: string, at: int, endpointId: string)
    requires Closed(t, endpointId)
    ensures NothingNew(t, RefreshPayment(t, id, at).tables, endpointId)
  {
    RefreshAnatomy(t, id, at);
    if RefreshPayment(t, id, at).tables != t {
      var e := EvaluatePayment(t, id, at).value;
      var p' := Updated(t.payments[id], e, at);
      InsertQueuesNothing(t.(payments := t.payments[id := p']), id, p', Became(e.status), at, endpointId);
    }
  }

  lemma OtherKeepsClosed(t: Tables, s: Step, endpointId: string)
    requires Closed(t, endpointId) && !s.Create? && !s.Refresh? && !s.Succeed? && !s.Fail?
    ensures Closed(Apply(t, s), endpointId)
  {
    match s
    case NewMerchant(_, _) =>
    case NewCredential(_, _, _) =>
    case NewEndpoint(_, _, _, _, _) =>
    case CloseEndpoint(_, _, _) =>
    case Upsert(id, o, at) => UpsertFrame(t, id, o, at);
    case DeleteNotIn(id, txids) => DeleteFrame(t, id, txids);
    case SetTip(height, hash, at) => TipFrame(t, height, hash, at);
  }

  /** Once closed, whatever any process does: the endpoint stays closed, no event queues a delivery for it, and
      none that it still has is ever due again. */
  lemma {:induction false} ClosedForGood(t: Tables, steps: seq<Step>, endpointId: string)
    requires Closed(t, endpointId)
    ensures NothingNew(t, Run(t, steps), endpointId)
    ensures forall d: DeliveryId, now :: d.endpointId == endpointId ==> !Due(Run(t, steps), d, now)
    decreases |steps|
  {
    if steps != [] {
      StepQueuesNothing(t, steps[0], endpointId);
      ClosedForGood(Apply(t, steps[0]), steps[1..], endpointId);
    }
  }
}
