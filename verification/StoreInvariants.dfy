/**
 What every interleaving of store steps keeps: sound rows, one complete event log per payment,
 unique idempotency keys and references, disjoint receive windows, and closed merchant ownership.
 */
module StoreInvariants {
  import opened Wrappers
  import opened PaymentState
  import opened PaymentTables

  // ---------- What the two compound steps change ----------

  /** Creation changes nothing, or adds one new payment and appends its event. */
  lemma CreateAnatomy(t: Tables, req: CreateRequest)
    ensures var t' := CreatePayment(t, req).tables;
      || t' == t
      || (&& req.merchantId in t.merchants && req.paymentId !in t.payments
          && !BreaksConstraint(t, req)
          && !(req.reference.Some? && ReferenceTaken(t.payments, req.merchantId, req.reference.value))
          && !AddressReserved(t.payments, req.address, req.createdAt)
          && (req.key.Some? ==> (req.merchantId, req.key.value) !in t.idempotency)
          && var stored := t.(payments := t.payments[req.paymentId := NewPayment(req)],
                              baselines := t.baselines[req.paymentId := TxidSet(req.baseline)]);
             var logged := InsertEvent(stored, req.paymentId, NewPayment(req), Created, req.createdAt);
             t' == logged.(idempotency := t'.idempotency)
             && t'.idempotency ==
                if req.key.Some? && req.requestHash.Some? then
                  t.idempotency[(req.merchantId, req.key.value) :=
                    IdempotencyRow(req.requestHash.value, req.paymentId, req.createdAt)]
                else t.idempotency)
  {
  }

  /** A refresh changes nothing, or stores a different evaluation under the next version. */
  lemma RefreshAnatomy(t: Tables, id: string, now: int)
    ensures var t' := RefreshPayment(t, id, now).tables;
      || t' == t
      || (&& id in t.payments
          && exists e :: !Agrees(t.payments[id], e) && EvaluatePayment(t, id, now) == Ok(e)
                         && t' == StoreEvaluation(t, id, e, now)
                         && t' == t.(payments := t.payments[id := Updated(t.payments[id], e, now)],
                                     events := t'.events, deliveries := t'.deliveries))
  {
  }

  // ---------- Sound rows ----------

  predicate SoundPayment(p: Payment) {
    p.amount > 0 && p.required >= 0 && p.createdHeight >= 0 && p.version >= 1
  }

  ghost predicate SoundRows(rows: Rows) {
    forall k :: k in rows ==> rows[k].value > 0 && k.vout >= 0
  }

  ghost predicate SoundPayments(payments: map<string, Payment>) {
    forall id :: id in payments ==> SoundPayment(payments[id])
  }

  ghost predicate SoundTransactions(transactions: map<string, Rows>, payments: set<string>) {
    forall id :: id in transactions ==> id in payments && SoundRows(transactions[id])
  }

  ghost predicate RowsSound(t: Tables) {
    && SoundPayments(t.payments)
    && SoundTransactions(t.transactions, t.payments.Keys)
    && (t.tip.Some? ==> t.tip.value.height >= 0)
  }

  lemma StepKeepsRows(t: Tables, s: Step)
    requires RowsSound(t)
    ensures RowsSound(Apply(t, s))
  {
    match s
    case Create(req) => CreateKeepsRows(t, req);
    case Refresh(id, at) => RefreshKeepsRows(t, id, at);
    case Upsert(id, o, at) => UpsertKeepsRows(t, id, o, at);
    case DeleteNotIn(id, txids) => DeleteKeepsRows(t, id, txids);
    case SetTip(height, hash, at) => TipKeepsRows(t, height, hash, at);
    case _ => BookkeepingFrame(t, s);
  }

  /** Merchants, endpoints and deliveries are kept without touching payments or the chain. */
  lemma BookkeepingFrame(t: Tables, s: Step)
    requires !s.Create? && !s.Refresh? && !s.Upsert? && !s.DeleteNotIn? && !s.SetTip?
    ensures var t' := Apply(t, s);
      t'.payments == t.payments && t'.transactions == t.transactions && t'.tip == t.tip
      && t'.baselines == t.baselines && t'.events == t.events
  {
    match s
    case NewMerchant(m, name) => MerchantFrame(t, m, name);
    case NewCredential(c, m, tag) => CredentialFrame(t, c, m, tag);
    case NewEndpoint(e, m, url, types, at) => EndpointFrame(t, e, m, url, types, at);
    case CloseEndpoint(e, m, at) => EndpointFrame(t, e, m, "", None, at);
    case Succeed(id, http, at) => DeliveryFrame(t, id, Some(http), "", at, at, false);
    case Fail(id, http, code, at, next, dead) => DeliveryFrame(t, id, http, code, at, next, dead);
  }

  lemma MerchantFrame(t: Tables, merchantId: string, name: string)
    ensures var t' := AddMerchant(t, merchantId, name).tables; t' == t.(merchants := t'.merchants)
  {
    MerchantMeaning(t, merchantId, name);
  }

  lemma CredentialFrame(t: Tables, credentialId: string, merchantId: string, tag: Option<string>)
    ensures var t' := AddCredential(t, credentialId, merchantId, tag).tables; t' == t.(credentials := t'.credentials)
  {
    CredentialMeaning(t, credentialId, merchantId, tag);
  }

  lemma EndpointFrame(t: Tables, endpointId: string, merchantId: string, url: string, types: Option<set<EventType>>, at: int)
    ensures var t' := AddEndpoint(t, endpointId, merchantId, url, types, at).tables; t' == t.(endpoints := t'.endpoints)
    ensures var t' := DisableEndpoint(t, endpointId, merchantId, at).tables; t' == t.(endpoints := t'.endpoints)
  {
  }

  lemma DeliveryFrame(t: Tables, id: DeliveryId, http: Option<int>, code: string, at: int, next: int, dead: bool)
    ensures http.Some? ==> var t' := MarkSuccess(t, id, http.value, at).tables; t' == t.(deliveries := t'.deliveries)
    ensures var t' := MarkFailure(t, id, http, code, at, next, dead).tables; t' == t.(deliveries := t'.deliveries)
  {
  }

  lemma TipKeepsRows(t: Tables, height: int, hash: Option<string>, at: int)
    requires RowsSound(t)
    ensures RowsSound(SetChainTip(t, height, hash, at).tables)
  {
  }

  lemma CreateKeepsRows(t: Tables, req: CreateRequest)
    requires RowsSound(t)
    ensures RowsSound(CreatePayment(t, req).tables)
  {
    CreateAnatomy(t, req);
    var t' := CreatePayment(t, req).tables;
    if t' != t {
      assert t'.payments == t.payments[req.paymentId := NewPayment(req)];
      assert t'.transactions == t.transactions && t'.tip == t.tip;
    }
  }

  lemma RefreshKeepsRows(t: Tables, id: string, at: int)
    requires RowsSound(t)
    ensures RowsSound(RefreshPayment(t, id, at).tables)
  {
    RefreshAnatomy(t, id, at);
    var t' := RefreshPayment(t, id, at).tables;
    assert t'.payments.Keys == t.payments.Keys;
  }

  lemma DeleteKeepsRows(t: Tables, id: string, txids: set<string>)
    requires RowsSound(t)
    ensures RowsSound(DeleteTransactionsNotIn(t, id, txids).tables)
  {
    var t' := DeleteTransactionsNotIn(t, id, txids).tables;
    if id in t.transactions {
      assert SoundRows(t.transactions[id]);
      assert t'.transactions == t.transactions[id := KeepRows(t.transactions[id], txids)];
    }
  }

  lemma UpsertKeepsRows(t: Tables, id: string, o: Observation, at: int)
    requires RowsSound(t)
    ensures RowsSound(UpsertTransaction(t, id, o, at).tables)
  {
    var t' := UpsertTransaction(t, id, o, at).tables;
    assert t'.payments == t.payments && t'.tip == t.tip;
    if t' != t {
      assert SoundRows(RowsOf(t, id));
      assert SoundRows(UpsertRow(RowsOf(t, id), o, at));
      assert t'.transactions == t.transactions[id := UpsertRow(RowsOf(t, id), o, at)];
    }
  }

  /** In sound tables a refresh raises only for an unknown payment. */
  lemma RefreshSucceeds(t: Tables, id: string, now: int)
    requires RowsSound(t) && id in t.payments
    ensures RefreshPayment(t, id, now).result.Ok?
    ensures Positive(Counted(RowsOf(t, id), t.payments[id].Window()))
  {
  }

  // ---------- Event log ----------

  /** The events of one payment, in the order they were stored. */
  function LogOf(events: seq<Event>, id: string): seq<Event> {
    if events == [] then
      []
    else
      var last := events[|events| - 1];
      LogOf(events[..|events| - 1], id) + (if last.id.paymentId == id then [last] else [])
  }

  /** Two payloads of one payment that differ in the status or in a total, and in nothing else. */
  predicate Moved(a: Payload, b: Payload) {
    && b == a.(status := b.status, received := b.received, confirmed := b.confirmed, policyConfirmed := b.policyConfirmed)
    && a != b
  }

  /** An event's body says what the payment's row says, field by field. */
  predicate Tells(e: Payload, p: Payment) {
    && e.status == p.status && e.amount == p.amount
    && e.received == p.received && e.confirmed == p.confirmed && e.policyConfirmed == p.policyConfirmed
    && e.required == p.required && e.expiresAt == p.expiresAt && e.reference == p.reference
  }

  /** An event's body says what the payment's row said when it was created. */
  predicate TellsBeginning(e: Payload, p: Payment) {
    && e.status == Waiting && e.received == 0 && e.confirmed == 0 && e.policyConfirmed == 0
    && e.amount == p.amount && e.required == p.required && e.expiresAt == p.expiresAt && e.reference == p.reference
  }

  /** A log that tells a payment's whole history: one event per version, the first its creation,
      each later one a real change, the last the current row. */
  ghost predicate History(log: seq<Event>, id: string, p: Payment) {
    && |log| == p.version > 0
    && (forall i :: 0 <= i < |log| ==>
          log[i].id.paymentId == id && log[i].id.version == i + 1 && log[i].merchantId == p.merchantId)
    && log[0].id.eventType == Created && TellsBeginning(log[0].payload, p) && log[0].createdAt == p.createdAt
    && (forall i :: 0 < i < |log| ==>
          log[i].id.eventType == Became(log[i].payload.status) && Moved(log[i - 1].payload, log[i].payload))
    && Tells(log[|log| - 1].payload, p) && log[|log| - 1].createdAt == p.updatedAt
  }

  ghost predicate LogsSound(t: Tables) {
    forall id :: if id in t.payments then History(LogOf(t.events, id), id, t.payments[id]) else LogOf(t.events, id) == []
  }

  lemma {:induction false} StoredInLog(events: seq<Event>, id: EventId)
    ensures EventStored(events, id) <==>
              exists i :: 0 <= i < |LogOf(events, id.paymentId)| && LogOf(events, id.paymentId)[i].id == id
  {
    if events != [] {
      var n := |events| - 1;
      var front, log := events[..n], LogOf(events, id.paymentId);
      var before := LogOf(front, id.paymentId);
      StoredInLog(front, id);
      if EventStored(events, id) {
        if events[n].id == id {
          assert log[|before|].id == id;
        } else {
          var i :| 0 <= i < |events| && events[i].id == id;
          assert front[i].id == id;
          var j :| 0 <= j < |before| && before[j].id == id;
          assert log[j].id == id;
        }
      } else {
        assert events[n].id != id;
        assert forall i :: 0 <= i < n ==> front[i] == events[i];
      }
    }
  }

  lemma LogAppend(events: seq<Event>, e: Event, id: string)
    ensures LogOf(events + [e], id) == LogOf(events, id) + (if e.id.paymentId == id then [e] else [])
  {
    assert (events + [e])[..|events|] == events;
  }

  /** A version that no event carries yet is really inserted: the `OR IGNORE` never drops an event. */
  lemma FreshVersion(t: Tables, id: string, version: int, eventType: EventType)
    requires LogsSound(t)
    requires id in t.payments ==> version > t.payments[id].version
    ensures !EventStored(t.events, EventId(id, version, eventType))
  {
    StoredInLog(t.events, EventId(id, version, eventType));
  }

  lemma HistoryBegins(id: string, req: CreateRequest)
    requires id == req.paymentId
    ensures var p := NewPayment(req);
      History([Event(EventId(id, 1, Created), req.merchantId, req.createdAt, PayloadOf(p))], id, p)
  {
  }

  lemma HistoryGrows(log: seq<Event>, id: string, p: Payment, e: Evaluation, now: int)
    requires History(log, id, p) && !Agrees(p, e)
    ensures var p' := Updated(p, e, now);
      History(log + [Event(EventId(id, p'.version, Became(e.status)), p.merchantId, now, PayloadOf(p'))], id, p')
  {
    var p' := Updated(p, e, now);
    var last := Event(EventId(id, p'.version, Became(e.status)), p.merchantId, now, PayloadOf(p'));
    var log' := log + [last];
    assert forall i :: 0 <= i < |log| ==> log'[i] == log[i];
    assert Moved(log[|log| - 1].payload, last.payload);
  }

  /** One event appended to one log leaves every other log alone. */
  lemma LogsExtend(events: seq<Event>, e: Event, payments: map<string, Payment>, p': Payment)
    requires forall id :: if id in payments then History(LogOf(events, id), id, payments[id]) else LogOf(events, id) == []
    requires History(LogOf(events, e.id.paymentId) + [e], e.id.paymentId, p')
    ensures var payments' := payments[e.id.paymentId := p'];
      forall id :: if id in payments' then History(LogOf(events + [e], id), id, payments'[id])
                   else LogOf(events + [e], id) == []
  {
    forall id
      ensures if id in payments[e.id.paymentId := p'] then
                History(LogOf(events + [e], id), id, payments[e.id.paymentId := p'][id])
              else LogOf(events + [e], id) == []
    {
      LogExtends(events, e, payments, p', id);
    }
  }

  lemma LogExtends(events: seq<Event>, e: Event, payments: map<string, Payment>, p': Payment, id: string)
    requires if id in payments then History(LogOf(events, id), id, payments[id]) else LogOf(events, id) == []
    requires History(LogOf(events, e.id.paymentId) + [e], e.id.paymentId, p')
    ensures var payments' := payments[e.id.paymentId := p'];
      if id in payments' then History(LogOf(events + [e], id), id, payments'[id]) else LogOf(events + [e], id) == []
  {
    LogAppend(events, e, id);
    if id != e.id.paymentId {
      assert LogOf(events, id) + [] == LogOf(events, id);
    }
  }

  lemma CreateKeepsLogs(t: Tables, req: CreateRequest)
    requires LogsSound(t)
    ensures LogsSound(CreatePayment(t, req).tables)
  {
    CreateAnatomy(t, req);
    var t', p := CreatePayment(t, req).tables, NewPayment(req);
    if t' != t {
      FreshVersion(t, req.paymentId, 1, Created);
      HistoryBegins(req.paymentId, req);
      assert LogOf(t.events, req.paymentId) == [];
      LogsExtend(t.events, Event(EventId(req.paymentId, 1, Created), req.merchantId, req.createdAt, PayloadOf(p)),
                 t.payments, p);
    }
  }

  lemma StoreKeepsLogs(t: Tables, id: string, e: Evaluation, now: int)
    requires LogsSound(t) && id in t.payments && !Agrees(t.payments[id], e)
    ensures LogsSound(StoreEvaluation(t, id, e, now))
  {
    var p := t.payments[id];
    var p' := Updated(p, e, now);
    FreshVersion(t, id, p'.version, Became(e.status));
    HistoryGrows(LogOf(t.events, id), id, p, e, now);
    LogsExtend(t.events, Event(EventId(id, p'.version, Became(e.status)), p.merchantId, now, PayloadOf(p')),
               t.payments, p');
  }

  lemma StepKeepsLogs(t: Tables, s: Step)
    requires LogsSound(t)
    ensures LogsSound(Apply(t, s))
  {
    match s
    case Create(req) => CreateKeepsLogs(t, req);
    case Refresh(id, at) => RefreshKeepsLogs(t, id, at);
    case _ => OthersKeepLogs(t, s);
  }

  lemma RefreshKeepsLogs(t: Tables, id: string, at: int)
    requires LogsSound(t)
    ensures LogsSound(RefreshPayment(t, id, at).tables)
  {
    RefreshAnatomy(t, id, at);
    if RefreshPayment(t, id, at).tables != t {
      StoreKeepsLogs(t, id, EvaluatePayment(t, id, at).value, at);
    }
  }

  lemma OthersKeepLogs(t: Tables, s: Step)
    requires LogsSound(t) && !s.Create? && !s.Refresh?
    ensures LogsSound(Apply(t, s))
  {
    OtherStepsFrame(t, s);
  }

  /** Only creation and refreshing touch payments, events or idempotency rows. */
  lemma OtherStepsFrame(t: Tables, s: Step)
    requires !s.Create? && !s.Refresh?
    ensures var t' := Apply(t, s);
      && t'.payments == t.payments && t'.events == t.events && t'.idempotency == t.idempotency
      && t'.baselines == t.baselines && t.merchants <= t'.merchants
  {
    match s
    case Upsert(id, o, at) => UpsertFrame(t, id, o, at);
    case DeleteNotIn(id, txids) => DeleteFrame(t, id, txids);
    case SetTip(height, hash, at) => TipFrame(t, height, hash, at);
    case _ =>
      BookkeepingFrame(t, s);
      QuietTables(t, s);
  }

  lemma UpsertFrame(t: Tables, id: string, o: Observation, at: int)
    ensures var t' := UpsertTransaction(t, id, o, at).tables; t' == t.(transactions := t'.transactions)
  {
  }

  lemma DeleteFrame(t: Tables, id: string, txids: set<string>)
    ensures var t' := DeleteTransactionsNotIn(t, id, txids).tables; t' == t.(transactions := t'.transactions)
  {
  }

  lemma TipFrame(t: Tables, height: int, hash: Option<string>, at: int)
    ensures var t' := SetChainTip(t, height, hash, at).tables; t' == t.(tip := t'.tip)
  {
  }

  lemma QuietTables(t: Tables, s: Step)
    requires !s.Create? && !s.Refresh? && !s.Upsert? && !s.DeleteNotIn? && !s.SetTip?
    ensures Apply(t, s).idempotency == t.idempotency && t.merchants <= Apply(t, s).merchants
  {
    match s
    case NewMerchant(_, _) =>
    case NewCredential(_, _, _) =>
    case NewEndpoint(_, _, _, _, _) =>
    case CloseEndpoint(_, _, _) =>
    case Succeed(_, _, _) =>
    case Fail(_, _, _, _, _, _) =>
  }
}
