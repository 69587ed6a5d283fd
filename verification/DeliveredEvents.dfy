/**
 From a delivered row to the merchant's order (backend/app/services/webhook_worker.py to
 backend/examples/reference_merchant.py): if a receiver answers 2xx only to an event its order book took, a
 delivery that ended delivered brought its event to the order.
 */
module DeliveredEvents {
  import opened Text
  import opened Wrappers
  import opened PaymentState
  import opened PaymentTables
  import opened StoreInvariants
  import opened Creation
  import opened ReferenceMerchant
  import opened MerchantRuns
  import opened EndToEnd
  import Worker = WebhookWorker
  import Deliveries = DeliveryRuns

  /** At act `j` the merchant received this event, and its order book did not refuse it. */
  ghost predicate Took(acts: seq<Act>, j: nat, event: EventId) {
    && j < |acts| && acts[j].Receiving? && acts[j].n.eventId == event
    && Receive(Play(EMPTY_BOOKS, acts[..j]), acts[j].n, acts[j].at).result.Ok?
  }

  /** The receiver of this delivery answered 2xx only to what the order book took. */
  ghost predicate HonestReceiver(moves: seq<Deliveries.Move>, acts: seq<Act>, id: DeliveryId) {
    (exists i :: 0 <= i < |moves| && Deliveries.AcceptedTry(moves[i], id)) ==> exists j: nat :: Took(acts, j, id.eventId)
  }

  /** Before its order is reserved, an event is refused. */
  lemma RefusedEarly(s: Story, b: Books, n: Notice, at: int)
    requires s.Unheard(b) && s.Genuine(Receiving(n, at)) && n.paymentId == s.paymentId
    ensures Receive(b, n, at).result == Err(UnknownOrder)
  {
  }

  lemma {:induction false} PlaySplit(b: Books, a: seq<Act>, c: seq<Act>)
    ensures Play(b, a + c) == Play(Play(b, a), c)
    decreases |a|
  {
    if a == [] {
      assert a + c == c;
    } else {
      assert (a + c)[0] == a[0] && (a + c)[1..] == a[1..] + c;
      PlaySplit(Perform(b, a[0]), a[1..], c);
    }
  }

  /** So an event that was taken was taken after the reservation. */
  lemma OnlyLateIsTaken(s: Story, early: seq<Act>, reserve: Act, late: seq<Act>, j: nat)
    requires s.WellFormed() && AllGenuine(s, early + [reserve]) && Reserves(early, reserve, s.orderId) && j <= |early|
    requires var a := (early + [reserve] + late)[j]; a.Receiving? && a.n.eventId.paymentId == s.paymentId
    ensures !Took(early + [reserve] + late, j, (early + [reserve] + late)[j].n.eventId)
  {
    var acts, before := early + [reserve] + late, early[..j];
    assert acts[..j] == before && acts[j] == (early + [reserve])[j];
    assert s.Genuine((early + [reserve])[j]);
    NotYetReserved(early, j, s.orderId);
    assert AllGenuine(s, before) by {
      assert forall i :: 0 <= i < j ==> before[i] == (early + [reserve])[i];
    }
    assert s.Unheard(EMPTY_BOOKS);
    EarlyRunLeavesNoTrace(s, EMPTY_BOOKS, before);
    RefusedEarly(s, Play(EMPTY_BOOKS, before), acts[j].n, acts[j].at);
  }

  lemma NotYetReserved(early: seq<Act>, j: nat, orderId: string)
    requires j <= |early| && orderId !in Play(EMPTY_BOOKS, early).orders
    ensures orderId !in Play(EMPTY_BOOKS, early[..j]).orders
  {
    assert early[..j] + early[j..] == early;
    PlaySplit(EMPTY_BOOKS, early[..j], early[j..]);
    if orderId in Play(EMPTY_BOOKS, early[..j]).orders {
      OrdersStay(Play(EMPTY_BOOKS, early[..j]), early[j..], orderId);
      assert false;
    }
  }

  /** For any run of the platform and its worker, and of the merchant: if the delivery of the payment's current
      event ended delivered, its receiver answers 2xx only to what the merchant's order book took, and no later bind
      regresses, then the merchant's order has the payment's status and version. */
  lemma DeliveredMeansAgreed(cfg: Worker.Settings, moves: seq<Deliveries.Move>, delivery: DeliveryId,
                             early: seq<Act>, reserve: Act, late: seq<Act>)
    requires Deliveries.Legal(cfg, EMPTY_TABLES, moves)
    requires var t, id := Deliveries.Play(cfg, EMPTY_TABLES, moves), delivery.eventId.paymentId;
      && delivery in t.deliveries && t.deliveries[delivery].status == Delivered
      && id in t.payments && delivery.eventId.version == t.payments[id].version
      && var p := t.payments[id];
         && p.reference.Some? && ValidReference(p.reference.value) && ValidPaymentId(id)
         && AllSent(Deliveries.PlaySteps(cfg, EMPTY_TABLES, moves), p.merchantId, early + [reserve] + late)
         && Reserves(early, reserve, p.reference.value)
         && StoryOf(t, id).Steady(Perform(Play(EMPTY_BOOKS, early), reserve), late)
    requires HonestReceiver(moves, early + [reserve] + late, delivery)
    ensures var p := Deliveries.Play(cfg, EMPTY_TABLES, moves).payments[delivery.eventId.paymentId];
      var b := Play(EMPTY_BOOKS, early + [reserve] + late);
      && p.reference.value in b.orders
      && var order := b.orders[p.reference.value];
         && order.paymentId == Some(delivery.eventId.paymentId)
         && order.version == Some(p.version) && order.status == Some(p.status)
  {
    var steps, id := Deliveries.PlaySteps(cfg, EMPTY_TABLES, moves), delivery.eventId.paymentId;
    Deliveries.PlayIsRun(cfg, EMPTY_TABLES, moves);
    Deliveries.DeliveredWasAccepted(cfg, EMPTY_TABLES, moves, delivery);
    var j: nat :| Took(early + [reserve] + late, j, delivery.eventId);
    SentParts(steps, Run(EMPTY_TABLES, steps).payments[id].merchantId, early, reserve, late);
    AllSentGenuine(steps, id, early + [reserve]);
    if j <= |early| {
      OnlyLateIsTaken(StoryOf(Run(EMPTY_TABLES, steps), id), early, reserve, late, j);
      assert false;
    }
    var last := j - |early| - 1;
    assert late[last] == (early + [reserve] + late)[j];
    SentIsGenuine(steps, id, late[last]);
    MerchantAgreesWithStore(steps, id, early, reserve, late, last);
  }

  lemma SentParts(steps: seq<Step>, merchantId: string, early: seq<Act>, reserve: Act, late: seq<Act>)
    requires AllSent(steps, merchantId, early + [reserve] + late)
    ensures AllSent(steps, merchantId, early) && Sent(steps, merchantId, reserve) && AllSent(steps, merchantId, late)
    ensures AllSent(steps, merchantId, early + [reserve])
  {
    var acts := early + [reserve] + late;
    assert forall i :: 0 <= i < |early| ==> early[i] == acts[i];
    assert acts[|early|] == reserve;
    assert forall i :: 0 <= i < |late| ==> late[i] == acts[|early| + 1 + i];
    assert forall i :: 0 <= i < |early + [reserve]| ==> (early + [reserve])[i] == acts[i];
  }
}
