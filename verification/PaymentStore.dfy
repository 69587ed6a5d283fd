/**
 The payment store itself (backend/app/services/payment_store.py): an object whose methods update
 its tables row by row. Each method is proved to take the tables through exactly the atomic step
 of the same name.
 */
module PaymentStore {
  import opened Wrappers
  import opened PaymentState
  import opened PaymentTables
  import opened Text

  class PaymentStore {
    var merchants: set<string>
    var credentials: map<string, string>
    var payments: map<string, Payment>
    var idempotency: map<(string, string), IdempotencyRow>
    var baselines: map<string, set<string>>
    var transactions: map<string, Rows>
    var events: seq<Event>
    var endpoints: map<string, Endpoint>
    var deliveries: map<DeliveryId, Delivery>
    var tip: Option<ChainTip>

    ghost function View(): Tables
      reads this
    {
      Tables(merchants, credentials, payments, idempotency, baselines, transactions, events, endpoints, deliveries, tip)
    }

    constructor ()
      ensures View() == EMPTY_TABLES
    {
      merchants, credentials, payments, idempotency := {LEGACY_MERCHANT_ID}, map[], map[], map[];
      baselines, transactions, events, endpoints, deliveries, tip := map[], map[], [], map[], map[], None;
    }

    method RegisterMerchant(merchantId: string, displayName: string) returns (r: Result<(), StoreError>)
      modifies this`merchants
      ensures Outcome(View(), r) == AddMerchant(old(View()), merchantId, displayName)
    {
      var name := Strip(displayName);
      if name == "" || |name| > MAX_NAME {
        return Err(InvalidName);
      }
      if !(MERCHANT_ID_PREFIX <= merchantId) || |merchantId| > 96 || merchantId in merchants {
        return Err(ConstraintViolation);
      }
      merchants := merchants + {merchantId};
      return Ok(());
    }

    method CreateCredential(credentialId: string, merchantId: string, tag: Option<string>)
      returns (r: Result<(), StoreError>)
      modifies this`credentials
      ensures Outcome(View(), r) == AddCredential(old(View()), credentialId, merchantId, tag)
    {
      if merchantId !in merchants {
        return Err(MerchantMissing);
      }
      if tag.Some? {
        var normalized := Strip(tag.value);
        if |normalized| > MAX_NAME {
          return Err(InvalidLabel);
        }
      }
      if credentialId in credentials {
        return Err(ConstraintViolation);
      }
      credentials := credentials[credentialId := merchantId];
      return Ok(());
    }

    method CreateWebhookEndpoint(endpointId: string, merchantId: string, url: string,
                                 eventTypes: Option<set<EventType>>, at: int)
      returns (r: Result<(), StoreError>)
      modifies this`endpoints
      ensures Outcome(View(), r) == AddEndpoint(old(View()), endpointId, merchantId, url, eventTypes, at)
    {
      if endpointId in endpoints {
        return Err(ConstraintViolation);
      }
      endpoints := endpoints[endpointId := Endpoint(merchantId, url, eventTypes, true, at, at)];
      return Ok(());
    }

    method DisableWebhookEndpoint(endpointId: string, merchantId: string, at: int) returns (r: Result<(), StoreError>)
      modifies this`endpoints
      ensures Outcome(View(), r) == DisableEndpoint(old(View()), endpointId, merchantId, at)
    {
      if endpointId !in endpoints || endpoints[endpointId].merchantId != merchantId {
        return Err(NotFound);
      }
      endpoints := endpoints[endpointId := endpoints[endpointId].(enabled := false, updatedAt := at)];
      return Ok(());
    }

    /** Store an event once and queue one delivery per subscribed endpoint, endpoint by endpoint. */
    method StoreEvent(paymentId: string, p: Payment, eventType: EventType, at: int)
      modifies this`events, this`deliveries
      ensures View() == InsertEvent(old(View()), paymentId, p, eventType, at)
    {
      var id := EventId(paymentId, p.version, eventType);
      if exists i :: 0 <= i < |events| && events[i].id == id {
        return;
      }
      events := events + [Event(id, p.merchantId, at, PayloadOf(p))];
      var subscribers := set e | e in endpoints && endpoints[e].enabled && endpoints[e].merchantId == p.merchantId;
      var left := subscribers;
      while left != {}
        invariant left <= subscribers
        invariant deliveries == FanOut(endpoints - left, id, p.merchantId, at) + old(deliveries)
        invariant events == old(events) + [Event(id, p.merchantId, at, PayloadOf(p))]
      {
        var e :| e in left;
        var types := endpoints[e].eventTypes;
        if types.None? || eventType in types.value {
          if DeliveryId(id, e) !in deliveries {
            deliveries := deliveries[DeliveryId(id, e) := NewDelivery(at)];
          }
        }
        FanOutNext(endpoints, left, e, id, p.merchantId, at, old(deliveries));
        left := left - {e};
      }
      assert FanOut(endpoints - {}, id, p.merchantId, at) == FanOut(endpoints, id, p.merchantId, at);
    }

    method CreatePayment(req: CreateRequest) returns (r: Result<Payment, StoreError>)
      modifies this`payments, this`baselines, this`events, this`deliveries, this`idempotency
      ensures Outcome(View(), r) == PaymentTables.CreatePayment(old(View()), req)
    {
      if req.merchantId !in merchants {
        return Err(MerchantMissing);
      }
      if req.key.None? != req.requestHash.None? {
        return Err(KeyWithoutHash);
      }
      if req.key.Some? && (req.merchantId, req.key.value) in idempotency {
        var existing := idempotency[(req.merchantId, req.key.value)];
        if existing.requestHash != req.requestHash.value {
          return Err(IdempotencyConflict);
        }
        if existing.paymentId !in payments {
          return Err(MappingWithoutPayment);
        }
        return Ok(payments[existing.paymentId]);
      }
      if req.reference.Some? && ReferenceTaken(payments, req.merchantId, req.reference.value) {
        return Err(ReferenceConflict);
      }
      if AddressReserved(payments, req.address, req.createdAt) {
        return Err(AddressInUse);
      }
      if req.paymentId in payments || req.amount <= 0 || req.required < 0 || req.createdHeight < 0 {
        return Err(ConstraintViolation);
      }
      if req.key.Some? && exists k :: k in idempotency && idempotency[k].paymentId == req.paymentId {
        return Err(ConstraintViolation);
      }
      var p := NewPayment(req);
      payments := payments[req.paymentId := p];
      var txids := {};
      for i := 0 to |req.baseline|
        invariant txids == TxidSet(req.baseline[..i])
      {
        txids := txids + {req.baseline[i]};
        assert TxidSet(req.baseline[..i + 1]) == TxidSet(req.baseline[..i]) + {req.baseline[i]} by {
          TxidSetGrows(req.baseline, i);
        }
      }
      assert req.baseline[..|req.baseline|] == req.baseline;
      baselines := baselines[req.paymentId := txids];
      StoreEvent(req.paymentId, p, Created, req.createdAt);
      if req.key.Some? {
        idempotency := idempotency[(req.merchantId, req.key.value) :=
          IdempotencyRow(req.requestHash.value, req.paymentId, req.createdAt)];
      }
      return Ok(p);
    }

    method UpsertTransaction(paymentId: string, o: Observation, at: int) returns (r: Result<(), StoreError>)
      modifies this`transactions
      ensures Outcome(View(), r) == PaymentTables.UpsertTransaction(old(View()), paymentId, o, at)
    {
      if paymentId !in payments {
        return Err(NotFound);
      }
      var rows := if paymentId in transactions then transactions[paymentId] else map[];
      var seen := o.firstSeen;
      if o.Key() in rows {
        var existing := rows[o.Key()];
        if existing.value != o.value {
          return Err(ValueConflict);
        }
        seen := EarlierSeen(existing.firstSeen, seen);
      }
      if o.vout < 0 || o.value <= 0 {
        return Err(ConstraintViolation);
      }
      transactions := transactions[paymentId := rows[o.Key() := TxRow(o.value, o.height, seen, at)]];
      return Ok(());
    }

    /** Drop the rows of transactions missing from a history, one stale transaction at a time. */
    method DeleteTransactionsNotIn(paymentId: string, txids: set<string>)
      modifies this`transactions
      ensures View() == PaymentTables.DeleteTransactionsNotIn(old(View()), paymentId, txids).tables
    {
      if paymentId !in transactions {
        return;
      }
      var rows := transactions[paymentId];
      var stale := set k | k in rows && k.txid !in txids :: k.txid;
      while stale != {}
        invariant stale !! txids
        invariant paymentId in transactions && transactions == old(transactions)[paymentId := transactions[paymentId]]
        invariant forall k :: k in transactions[paymentId] ==> k in rows && transactions[paymentId][k] == rows[k]
        invariant forall k :: k in rows && k !in transactions[paymentId] ==> k.txid !in txids
        invariant forall k :: k in transactions[paymentId] && k.txid !in txids ==> k.txid in stale
      {
        var txid :| txid in stale;
        var kept := map k | k in transactions[paymentId] && k.txid != txid :: transactions[paymentId][k];
        transactions := transactions[paymentId := kept];
        stale := stale - {txid};
      }
      assert transactions[paymentId] == KeepRows(rows, txids);
    }

    method UpdateChainTip(height: int, hash: Option<string>, at: int) returns (r: Result<(), StoreError>)
      modifies this`tip
      ensures Outcome(View(), r) == SetChainTip(old(View()), height, hash, at)
    {
      if height < 0 {
        return Err(ConstraintViolation);
      }
      tip := Some(ChainTip(height, hash, at));
      return Ok(());
    }

    method RefreshPayment(paymentId: string, now: int) returns (r: Result<Payment, StoreError>)
      modifies this`payments, this`events, this`deliveries
      ensures Outcome(View(), r) == PaymentTables.RefreshPayment(old(View()), paymentId, now)
    {
      if paymentId !in payments {
        return Err(NotFound);
      }
      var p := payments[paymentId];
      var height := if tip.Some? then tip.value.height else p.createdHeight;
      var rows := if paymentId in transactions then transactions[paymentId] else map[];
      var log := SelectObservations(rows);
      var evaluated := EvaluatePaymentObservations(p.amount, log, height, p.required, p.Window(), now);
      MergeOfDistinct(log, rows, p.Window());
      if evaluated.Err? {
        return Err(EvaluationFailed(evaluated.error));
      }
      var e := evaluated.value;
      if p.status != e.status || p.received != e.received || p.confirmed != e.confirmed
         || p.policyConfirmed != e.policyConfirmed
      {
        var p' := p.(status := e.status, received := e.received, confirmed := e.confirmed,
                     policyConfirmed := e.policyConfirmed, version := p.version + 1, updatedAt := now);
        payments := payments[paymentId := p'];
        StoreEvent(paymentId, p', Became(e.status), now);
        return Ok(p');
      }
      return Ok(p);
    }

    method MarkWebhookDeliverySuccess(id: DeliveryId, httpStatus: int, at: int) returns (r: Result<(), StoreError>)
      modifies this`deliveries
      ensures Outcome(View(), r) == MarkSuccess(old(View()), id, httpStatus, at)
    {
      if id !in deliveries {
        return Err(NotFound);
      }
      var d := deliveries[id];
      deliveries := deliveries[id := d.(status := Delivered, attempts := d.attempts + 1, lastAttemptAt := Some(at),
                                        httpStatus := Some(httpStatus), errorCode := None, deliveredAt := Some(at),
                                        updatedAt := at)];
      return Ok(());
    }

    method MarkWebhookDeliveryFailure(id: DeliveryId, httpStatus: Option<int>, errorCode: string, at: int, next: int,
                                      dead: bool)
      returns (r: Result<(), StoreError>)
      modifies this`deliveries
      ensures Outcome(View(), r) == MarkFailure(old(View()), id, httpStatus, errorCode, at, next, dead)
    {
      if id !in deliveries {
        return Err(NotFound);
      }
      var d := deliveries[id];
      deliveries := deliveries[id := d.(status := if dead then Dead else Retry, attempts := d.attempts + 1,
                                        lastAttemptAt := Some(at), httpStatus := httpStatus,
                                        errorCode := Some(errorCode), nextAttemptAt := next, updatedAt := at)];
      return Ok(());
    }
  }

  lemma TxidSetGrows(txids: seq<string>, i: nat)
    requires i < |txids|
    ensures TxidSet(txids[..i + 1]) == TxidSet(txids[..i]) + {txids[i]}
  {
    var longer, shorter := txids[..i + 1], txids[..i];
    assert longer == shorter + [txids[i]];
    forall x
      ensures x in TxidSet(longer) <==> x in TxidSet(shorter) + {txids[i]}
    {
      if x in TxidSet(shorter) {
        var j :| 0 <= j < i && shorter[j] == x;
        assert longer[j] == x;
      }
      if x == txids[i] {
        assert longer[i] == x;
      }
    }
  }

  lemma FanOutNext(endpoints: map<string, Endpoint>, left: set<string>, e: string, id: EventId, merchantId: string,
                   at: int, before: map<DeliveryId, Delivery>)
    requires e in left && left <= endpoints.Keys
    ensures var done := FanOut(endpoints - left, id, merchantId, at) + before;
      FanOut(endpoints - (left - {e}), id, merchantId, at) + before
      == if Wants(endpoints[e], merchantId, id.eventType) && DeliveryId(id, e) !in done
         then done[DeliveryId(id, e) := NewDelivery(at)]
         else done
  {
    var later := endpoints - (left - {e});
    FanOutRows(endpoints - left, id, merchantId, at);
    FanOutRows(later, id, merchantId, at);
    assert forall x :: x in later <==> x in endpoints - left || x == e;
  }

  // ---------- Reading the rows of a payment ----------

  /** A log that lists the rows of a table, each once. */
  ghost predicate Lists(log: seq<Observation>, rows: Rows) {
    && (forall i :: 0 <= i < |log| ==> log[i].Key() in rows && log[i] == rows[log[i].Key()].At(log[i].Key()))
    && (forall i, j :: 0 <= i < j < |log| ==> log[i].Key() != log[j].Key())
    && (forall k :: k in rows ==> exists i :: 0 <= i < |log| && log[i].Key() == k)
  }

  method SelectObservations(rows: Rows) returns (log: seq<Observation>)
    ensures Lists(log, rows)
  {
    log := [];
    var left := rows;
    while left != map[]
      invariant left.Keys <= rows.Keys && forall k :: k in left ==> left[k] == rows[k]
      invariant Lists(log, rows - left.Keys)
      decreases |left|
    {
      var k :| k in left;
      ListsNext(log, rows, left.Keys, k);
      log := log + [left[k].At(k)];
      left := left - {k};
    }
    assert rows - {} == rows;
  }

  lemma ListsNext(log: seq<Observation>, rows: Rows, left: set<Outpoint>, k: Outpoint)
    requires k in left && left <= rows.Keys
    requires Lists(log, rows - left)
    ensures Lists(log + [rows[k].At(k)], rows - (left - {k}))
  {
    var longer := log + [rows[k].At(k)];
    forall q | q in rows - (left - {k})
      ensures exists i :: 0 <= i < |longer| && longer[i].Key() == q
    {
      if q == k {
        assert longer[|log|].Key() == q;
      } else {
        assert q in rows - left;
        var i :| 0 <= i < |log| && log[i].Key() == q;
        assert longer[i].Key() == q;
      }
    }
  }

  /** Rows are unique by outpoint, so merging any listing of them is just scoping: nothing can
      conflict and the order of the listing does not matter. */
  lemma {:induction false} MergeOfDistinct(log: seq<Observation>, rows: Rows, w: Window)
    requires Lists(log, rows)
    ensures Merge(log, w) == Ok(Counted(rows, w))
    decreases |log|
  {
    if log == [] {
      assert rows == map[];
    } else {
      var front, last := log[..|log| - 1], log[|log| - 1];
      var k := last.Key();
      ListsFront(log, rows);
      MergeOfDistinct(front, rows - {k}, w);
      CountedSplit(rows, w, k);
      assert k !in Counted(rows - {k}, w);
    }
  }

  lemma ListsFront(log: seq<Observation>, rows: Rows)
    requires Lists(log, rows) && log != []
    ensures Lists(log[..|log| - 1], rows - {log[|log| - 1].Key()})
  {
    var front, k := log[..|log| - 1], log[|log| - 1].Key();
    forall q | q in rows - {k}
      ensures exists i :: 0 <= i < |front| && front[i].Key() == q
    {
      var i :| 0 <= i < |log| && log[i].Key() == q;
      assert front[i].Key() == q;
    }
  }

  lemma CountedSplit(rows: Rows, w: Window, k: Outpoint)
    requires k in rows
    ensures var rest := Counted(rows - {k}, w);
      Counted(rows, w) == if Belongs(rows[k].At(k), w) then rest[k := rows[k].At(k)] else rest
  {
  }
}
