/**
 The tables of the payment database (backend/app/services/payment_store.py, merchant_store.py) as one
 value, and each write of the store as one atomic step on it. A step that raises leaves the tables
 as they were, as the rolled-back transaction does.
 */
module PaymentTables {
  import opened Wrappers
  import opened PaymentState
  import opened Text

  const LEGACY_MERCHANT_ID := "mrc_legacy_v1"
  const MERCHANT_ID_PREFIX := "mrc_"

  datatype Payment = Payment(
    merchantId: string,
    address: string,
    scripthash: string,
    amount: int,
    required: int,
    createdAt: int,
    createdHeight: int,
    expiresAt: int,
    reference: Option<string>,
    status: Status,
    version: int,
    received: int,
    confirmed: int,
    policyConfirmed: int,
    updatedAt: int)
  {
    function Window(): Window {
      PaymentState.Window(Some(createdHeight), Some(createdAt), Some(expiresAt))
    }
  }

  datatype TxRow = TxRow(value: int, height: int, firstSeen: Option<int>, updatedAt: int) {
    function At(k: Outpoint): Observation {
      Observation(k.txid, k.vout, value, height, firstSeen)
    }
  }

  /** The outputs recorded for one payment. */
  type Rows = map<Outpoint, TxRow>

  datatype IdempotencyRow = IdempotencyRow(requestHash: string, paymentId: string, createdAt: int)

  datatype EventType = Created | Became(status: Status)

  /** Identifiers are hashes of these parts; distinct parts are taken to give distinct hashes. */
  datatype EventId = EventId(paymentId: string, version: int, eventType: EventType)
  datatype DeliveryId = DeliveryId(eventId: EventId, endpointId: string)

  datatype Payload = Payload(
    status: Status,
    amount: int,
    received: int,
    confirmed: int,
    policyConfirmed: int,
    required: int,
    expiresAt: int,
    reference: Option<string>)

  datatype Event = Event(id: EventId, merchantId: string, createdAt: int, payload: Payload)

  /** `eventTypes` is `None` for an endpoint subscribed to everything. */
  datatype Endpoint = Endpoint(merchantId: string, url: string, eventTypes: Option<set<EventType>>, enabled: bool,
                               createdAt: int, updatedAt: int)

  datatype DeliveryStatus = Pending | Retry | Delivered | Dead

  datatype Delivery = Delivery(
    status: DeliveryStatus,
    attempts: int,
    nextAttemptAt: int,
    lastAttemptAt: Option<int>,
    httpStatus: Option<int>,
    errorCode: Option<string>,
    deliveredAt: Option<int>,
    createdAt: int,
    updatedAt: int)

  datatype ChainTip = ChainTip(height: int, hash: Option<string>, updatedAt: int)

  datatype Tables = Tables(
    merchants: set<string>,
    credentials: map<string, string>,
    payments: map<string, Payment>,
    idempotency: map<(string, string), IdempotencyRow>,
    baselines: map<string, set<string>>,
    transactions: map<string, Rows>,
    events: seq<Event>,
    endpoints: map<string, Endpoint>,
    deliveries: map<DeliveryId, Delivery>,
    tip: Option<ChainTip>)

  const EMPTY_TABLES := Tables({LEGACY_MERCHANT_ID}, map[], map[], map[], map[], map[], [], map[], map[], None)

  datatype StoreError =
    | MerchantMissing
    | InvalidName
    | InvalidLabel
    | KeyWithoutHash
    | IdempotencyConflict
    | MappingWithoutPayment
    | ReferenceConflict
    | AddressInUse
    | NotFound
    | ValueConflict
    | ConstraintViolation
    | TipUnavailable
    | EvaluationFailed(cause: EvaluationError)

  /** The tables after a call, and what the call returned or raised. */
  datatype Outcome<+T> = Outcome(tables: Tables, result: Result<T, StoreError>)

  function Fails<T>(t: Tables, e: StoreError): Outcome<T> {
    Outcome(t, Err(e))
  }

  // ---------- Lookups ----------

  function RowsOf(t: Tables, paymentId: string): Rows {
    if paymentId in t.transactions then t.transactions[paymentId] else map[]
  }

  function BaselineOf(t: Tables, paymentId: string): set<string> {
    if paymentId in t.baselines then t.baselines[paymentId] else {}
  }

  predicate ReferenceTaken(payments: map<string, Payment>, merchantId: string, reference: string) {
    exists id :: id in payments && payments[id].merchantId == merchantId && payments[id].reference == Some(reference)
  }

  /** Some payment on the address is still inside its inclusive receive window at `at`. */
  predicate AddressReserved(payments: map<string, Payment>, address: string, at: int) {
    exists id :: id in payments && payments[id].address == address && payments[id].expiresAt >= at
  }

  predicate EventStored(events: seq<Event>, id: EventId) {
    exists i :: 0 <= i < |events| && events[i].id == id
  }

  // ---------- Events and webhook fan-out ----------

  function PayloadOf(p: Payment): Payload {
    Payload(p.status, p.amount, p.received, p.confirmed, p.policyConfirmed, p.required, p.expiresAt, p.reference)
  }

  predicate Wants(endpoint: Endpoint, merchantId: string, eventType: EventType) {
    && endpoint.enabled
    && endpoint.merchantId == merchantId
    && (endpoint.eventTypes.Some? ==> eventType in endpoint.eventTypes.value)
  }

  function NewDelivery(at: int): Delivery {
    Delivery(Pending, 0, at, None, None, None, None, at, at)
  }

  function FanOut(endpoints: map<string, Endpoint>, id: EventId, merchantId: string, at: int): map<DeliveryId, Delivery> {
    map e | e in endpoints && Wants(endpoints[e], merchantId, id.eventType) :: DeliveryId(id, e) := NewDelivery(at)
  }

  /** An enabled endpoint of the merchant that takes this type of event, or every type. */
  predicate Subscribed(endpoints: map<string, Endpoint>, e: string, merchantId: string, eventType: EventType) {
    && e in endpoints && endpoints[e].enabled == true && endpoints[e].merchantId == merchantId
    && (endpoints[e].eventTypes == None || eventType in endpoints[e].eventTypes.value)
  }

  /** A delivery no one has attempted, waiting since `at` for the first attempt. */
  predicate Unattempted(d: Delivery, at: int) {
    && d.status == Pending && d.attempts == 0 && d.nextAttemptAt == at && d.createdAt == at && d.updatedAt == at
    && d.lastAttemptAt == None && d.httpStatus == None && d.errorCode == None && d.deliveredAt == None
  }

  lemma FanOutRows(endpoints: map<string, Endpoint>, id: EventId, merchantId: string, at: int)
    ensures forall d :: d in FanOut(endpoints, id, merchantId, at) <==>
              d.eventId == id && d.endpointId in endpoints && Wants(endpoints[d.endpointId], merchantId, id.eventType)
    ensures forall d :: d in FanOut(endpoints, id, merchantId, at) ==>
              FanOut(endpoints, id, merchantId, at)[d] == NewDelivery(at)
  {
    var f := FanOut(endpoints, id, merchantId, at);
    forall d
      ensures d in f <==>
                d.eventId == id && d.endpointId in endpoints && Wants(endpoints[d.endpointId], merchantId, id.eventType)
    {
      assert d == DeliveryId(d.eventId, d.endpointId);
    }
  }

  /** An event is queued to exactly the subscribed endpoints, each waiting for its first attempt. */
  lemma FanOutMembers(endpoints: map<string, Endpoint>, id: EventId, merchantId: string, at: int)
    ensures forall d :: d in FanOut(endpoints, id, merchantId, at) <==>
              d.eventId == id && Subscribed(endpoints, d.endpointId, merchantId, id.eventType)
    ensures forall d :: d in FanOut(endpoints, id, merchantId, at) ==> Unattempted(FanOut(endpoints, id, merchantId, at)[d], at)
  {
    FanOutRows(endpoints, id, merchantId, at);
  }

  /** Append the event of a payment's current version and queue its deliveries, unless the event is
      already stored. */
  function InsertEvent(t: Tables, paymentId: string, p: Payment, eventType: EventType, at: int): Tables {
    var id := EventId(paymentId, p.version, eventType);
    if EventStored(t.events, id) then
      t
    else
      t.(events := t.events + [Event(id, p.merchantId, at, PayloadOf(p))],
         deliveries := FanOut(t.endpoints, id, p.merchantId, at) + t.deliveries)
  }

  // ---------- Merchants, credentials, endpoints ----------

  const MAX_NAME := 128

  predicate ValidName(displayName: string) {
    1 <= |Strip(displayName)| <= MAX_NAME
  }

  function AddMerchant(t: Tables, merchantId: string, displayName: string): Outcome<()> {
    if !ValidName(displayName) then
      Fails(t, InvalidName)
    else if !(MERCHANT_ID_PREFIX <= merchantId) || |merchantId| > 96 || merchantId in t.merchants then
      Fails(t, ConstraintViolation)
    else
      Outcome(t.(merchants := t.merchants + {merchantId}), Ok(()))
  }

  /** A blank label is no label. */
  function AddCredential(t: Tables, credentialId: string, merchantId: string, tag: Option<string>): Outcome<()> {
    if merchantId !in t.merchants then Fails(t, MerchantMissing)
    else if tag.Some? && |Strip(tag.value)| > MAX_NAME then Fails(t, InvalidLabel)
    else if credentialId in t.credentials then Fails(t, ConstraintViolation)
    else Outcome(t.(credentials := t.credentials[credentialId := merchantId]), Ok(()))
  }

  function AddEndpoint(t: Tables, endpointId: string, merchantId: string, url: string,
                       eventTypes: Option<set<EventType>>, at: int): Outcome<()> {
    if endpointId in t.endpoints then
      Fails(t, ConstraintViolation)
    else
      Outcome(t.(endpoints := t.endpoints[endpointId := Endpoint(merchantId, url, eventTypes, true, at, at)]), Ok(()))
  }

  function DisableEndpoint(t: Tables, endpointId: string, merchantId: string, at: int): Outcome<()> {
    if endpointId !in t.endpoints || t.endpoints[endpointId].merchantId != merchantId then
      Fails(t, NotFound)
    else
      var e := t.endpoints[endpointId].(enabled := false, updatedAt := at);
      Outcome(t.(endpoints := t.endpoints[endpointId := e]), Ok(()))
  }

  /** A merchant is added under a new id of at most 96 characters that starts with mrc_, if its name without the
      space around it has 1 to 128 characters. */
  lemma MerchantMeaning(t: Tables, merchantId: string, displayName: string)
    ensures var o := AddMerchant(t, merchantId, displayName);
      && (o.result.Ok? <==>
            && Strip(displayName) != "" && |Strip(displayName)| <= 128
            && |merchantId| >= 4 && merchantId[..4] == "mrc_" && |merchantId| <= 96 && merchantId !in t.merchants)
      && (o.result.Ok? ==> o.tables == t.(merchants := t.merchants + {merchantId}))
      && (o.result.Err? ==> o.tables == t)
  {
    assert |merchantId| >= 4 ==> (MERCHANT_ID_PREFIX <= merchantId <==> merchantId[..4] == "mrc_");
  }

  /** A credential is added under a new id for a known merchant, if its label has at most 128 characters. */
  lemma CredentialMeaning(t: Tables, credentialId: string, merchantId: string, tag: Option<string>)
    ensures var o := AddCredential(t, credentialId, merchantId, tag);
      && (o.result.Ok? <==>
            && merchantId in t.merchants && credentialId !in t.credentials && (tag == None || |Strip(tag.value)| <= 128))
      && (o.result.Ok? ==>
            && o.tables == t.(credentials := o.tables.credentials) && o.tables.credentials.Keys == t.credentials.Keys + {credentialId}
            && (forall c :: c in t.credentials ==> o.tables.credentials[c] == t.credentials[c])
            && o.tables.credentials[credentialId] == merchantId)
      && (o.result.Err? ==> o.tables == t)
  {
  }

  // ---------- Payment creation ----------

  datatype CreateRequest = CreateRequest(
    paymentId: string,
    merchantId: string,
    address: string,
    scripthash: string,
    amount: int,
    required: int,
    createdAt: int,
    createdHeight: int,
    expiresAt: int,
    reference: Option<string>,
    baseline: seq<string>,
    key: Option<string>,
    requestHash: Option<string>)

  function NewPayment(req: CreateRequest): Payment {
    Payment(req.merchantId, req.address, req.scripthash, req.amount, req.required, req.createdAt, req.createdHeight,
            req.expiresAt, req.reference, Waiting, 1, 0, 0, 0, req.createdAt)
  }

  function TxidSet(txids: seq<string>): set<string> {
    set i | 0 <= i < |txids| :: txids[i]
  }

  predicate BreaksConstraint(t: Tables, req: CreateRequest) {
    || req.paymentId in t.payments
    || req.amount <= 0
    || req.required < 0
    || req.createdHeight < 0
    || (req.key.Some? && exists k :: k in t.idempotency && t.idempotency[k].paymentId == req.paymentId)
  }

  function InsertPayment(t: Tables, req: CreateRequest): Tables {
    var p := NewPayment(req);
    var stored := t.(payments := t.payments[req.paymentId := p],
                     baselines := t.baselines[req.paymentId := TxidSet(req.baseline)]);
    var logged := InsertEvent(stored, req.paymentId, p, Created, req.createdAt);
    if req.key.Some? && req.requestHash.Some? then
      var row := IdempotencyRow(req.requestHash.value, req.paymentId, req.createdAt);
      logged.(idempotency := t.idempotency[(req.merchantId, req.key.value) := row])
    else
      logged
  }

  function CreatePayment(t: Tables, req: CreateRequest): Outcome<Payment> {
    if req.merchantId !in t.merchants then
      Fails(t, MerchantMissing)
    else if req.key.None? != req.requestHash.None? then
      Fails(t, KeyWithoutHash)
    else if req.key.Some? && (req.merchantId, req.key.value) in t.idempotency then
      var row := t.idempotency[(req.merchantId, req.key.value)];
      if row.requestHash != req.requestHash.value then Fails(t, IdempotencyConflict)
      else if row.paymentId !in t.payments then Fails(t, MappingWithoutPayment)
      else Outcome(t, Ok(t.payments[row.paymentId]))
    else if req.reference.Some? && ReferenceTaken(t.payments, req.merchantId, req.reference.value) then
      Fails(t, ReferenceConflict)
    else if AddressReserved(t.payments, req.address, req.createdAt) then
      Fails(t, AddressInUse)
    else if BreaksConstraint(t, req) then
      Fails(t, ConstraintViolation)
    else
      Outcome(InsertPayment(t, req), Ok(NewPayment(req)))
  }

  // ---------- Observed transactions and the chain tip ----------

  function UpsertRow(rows: Rows, o: Observation, at: int): Rows {
    var seen := if o.Key() in rows then EarlierSeen(rows[o.Key()].firstSeen, o.firstSeen) else o.firstSeen;
    rows[o.Key() := TxRow(o.value, o.height, seen, at)]
  }

  predicate ValueClash(rows: Rows, o: Observation) {
    o.Key() in rows && rows[o.Key()].value != o.value
  }

  function UpsertTransaction(t: Tables, paymentId: string, o: Observation, at: int): Outcome<()> {
    if paymentId !in t.payments then Fails(t, NotFound)
    else if ValueClash(RowsOf(t, paymentId), o) then Fails(t, ValueConflict)
    else if o.vout < 0 || o.value <= 0 then Fails(t, ConstraintViolation)
    else Outcome(t.(transactions := t.transactions[paymentId := UpsertRow(RowsOf(t, paymentId), o, at)]), Ok(()))
  }

  function KeepRows(rows: Rows, txids: set<string>): Rows {
    map k | k in rows && k.txid in txids :: rows[k]
  }

  function DeleteTransactionsNotIn(t: Tables, paymentId: string, txids: set<string>): Outcome<()> {
    if paymentId !in t.transactions then Outcome(t, Ok(()))
    else Outcome(t.(transactions := t.transactions[paymentId := KeepRows(RowsOf(t, paymentId), txids)]), Ok(()))
  }

  function SetChainTip(t: Tables, height: int, hash: Option<string>, at: int): Outcome<()> {
    if height < 0 then Fails(t, ConstraintViolation)
    else Outcome(t.(tip := Some(ChainTip(height, hash, at))), Ok(()))
  }

  /** An output is recorded for a known payment exactly if it has an index, a positive value, and no other value on
      record; or else nothing is. */
  lemma UpsertRefuses(t: Tables, id: string, o: Observation, at: int)
    ensures var u, k := UpsertTransaction(t, id, o, at), Outpoint(o.txid, o.vout);
      && (u.result.Ok? <==>
            && id in t.payments && o.vout >= 0 && o.value > 0 && (k in RowsOf(t, id) ==> RowsOf(t, id)[k].value == o.value))
      && (u.result.Err? ==> u.tables == t)
      && (u.result == Err(NotFound) <==> id !in t.payments)
      && (u.result == Err(ValueConflict) <==> id in t.payments && k in RowsOf(t, id) && RowsOf(t, id)[k].value != o.value)
  {
  }

  /** Its row keeps the earlier time and takes the height reported, and no other row is touched. */
  lemma UpsertMeaning(t: Tables, id: string, o: Observation, at: int)
    requires UpsertTransaction(t, id, o, at).result.Ok?
    ensures var t', k := UpsertTransaction(t, id, o, at).tables, Outpoint(o.txid, o.vout);
      && t' == t.(transactions := t'.transactions) && (forall q :: q != id ==> RowsOf(t', q) == RowsOf(t, q))
      && RowRecorded(RowsOf(t, id), RowsOf(t', id), k, o, at)
  {
    var t' := UpsertTransaction(t, id, o, at).tables;
    assert RowsOf(t', id) == UpsertRow(RowsOf(t, id), o, at);
    UpsertedRow(RowsOf(t, id), o, at);
  }

  predicate RowRecorded(rows: Rows, rows': Rows, k: Outpoint, o: Observation, at: int) {
    && rows'.Keys == rows.Keys + {k} && (forall j :: j in rows && j != k ==> rows'[j] == rows[j])
    && var row := rows'[k];
       && row.value == o.value && row.height == o.height && row.updatedAt == at
       && row.firstSeen == EarlierSeen(if k in rows then rows[k].firstSeen else None, o.firstSeen)
  }

  lemma UpsertedRow(rows: Rows, o: Observation, at: int)
    ensures RowRecorded(rows, UpsertRow(rows, o, at), Outpoint(o.txid, o.vout), o, at)
  {
  }

  /** The one tip row is replaced, by nothing but a height that is not negative. */
  lemma TipMeaning(t: Tables, height: int, hash: Option<string>, at: int)
    ensures var o := SetChainTip(t, height, hash, at);
      if height < 0 then o.result.Err? && o.tables == t
      else
        && o.result.Ok? && o.tables == t.(tip := o.tables.tip) && o.tables.tip.Some?
        && var tip := o.tables.tip.value; tip.height == height && tip.hash == hash && tip.updatedAt == at
  {
  }

  // ---------- Refreshing a payment ----------

  /** The recorded outputs that belong to a payment. Rows are already unique by outpoint. */
  function Counted(rows: Rows, w: Window): map<Outpoint, Observation> {
    map k | k in rows && Belongs(rows[k].At(k), w) :: rows[k].At(k)
  }

  function TipFor(t: Tables, p: Payment): int {
    if t.tip.Some? then t.tip.value.height else p.createdHeight
  }

  ghost function EvaluatePayment(t: Tables, paymentId: string, now: int): Result<Evaluation, EvaluationError>
    requires paymentId in t.payments
  {
    var p := t.payments[paymentId];
    if p.amount <= 0 then Err(NonPositiveAmount)
    else if p.required < 0 then Err(NegativeConfirmations)
    else if TipFor(t, p) < 0 then Err(NegativeTip)
    else Ok(EvaluateMerged(Counted(RowsOf(t, paymentId), p.Window()), p.amount, p.required, TipFor(t, p),
                           Some(p.expiresAt), now))
  }

  /** The stored row already says what the evaluation says. */
  predicate Agrees(p: Payment, e: Evaluation) {
    p.status == e.status && p.received == e.received && p.confirmed == e.confirmed
    && p.policyConfirmed == e.policyConfirmed
  }

  function Updated(p: Payment, e: Evaluation, now: int): Payment {
    p.(status := e.status, received := e.received, confirmed := e.confirmed, policyConfirmed := e.policyConfirmed,
       version := p.version + 1, updatedAt := now)
  }

  function StoreEvaluation(t: Tables, paymentId: string, e: Evaluation, now: int): Tables
    requires paymentId in t.payments
  {
    var p := t.payments[paymentId];
    if Agrees(p, e) then
      t
    else
      var p' := Updated(p, e, now);
      InsertEvent(t.(payments := t.payments[paymentId := p']), paymentId, p', Became(e.status), now)
  }

  ghost function RefreshPayment(t: Tables, paymentId: string, now: int): Outcome<Payment> {
    if paymentId !in t.payments then
      Fails(t, NotFound)
    else
      match EvaluatePayment(t, paymentId, now)
      case Err(e) => Fails(t, EvaluationFailed(e))
      case Ok(e) =>
        var t' := StoreEvaluation(t, paymentId, e, now);
        Outcome(t', Ok(t'.payments[paymentId]))
  }

  // ---------- Delivery bookkeeping ----------

  function MarkSuccess(t: Tables, id: DeliveryId, httpStatus: int, at: int): Outcome<()> {
    if id !in t.deliveries then
      Fails(t, NotFound)
    else
      var d := t.deliveries[id];
      var d' := d.(status := Delivered, attempts := d.attempts + 1, lastAttemptAt := Some(at),
                   httpStatus := Some(httpStatus), errorCode := None, deliveredAt := Some(at), updatedAt := at);
      Outcome(t.(deliveries := t.deliveries[id := d']), Ok(()))
  }

  function MarkFailure(t: Tables, id: DeliveryId, httpStatus: Option<int>, errorCode: string, at: int, next: int,
                       dead: bool): Outcome<()> {
    if id !in t.deliveries then
      Fails(t, NotFound)
    else
      var d := t.deliveries[id];
      var d' := d.(status := if dead then Dead else Retry, attempts := d.attempts + 1, lastAttemptAt := Some(at),
                   httpStatus := httpStatus, errorCode := Some(errorCode), nextAttemptAt := next, updatedAt := at);
      Outcome(t.(deliveries := t.deliveries[id := d']), Ok(()))
  }

  // ---------- Runs ----------

  /** Every write any process can make, as one atomic step. */
  datatype Step =
    | NewMerchant(merchantId: string, displayName: string)
    | NewCredential(credentialId: string, merchantId: string, tag: Option<string>)
    | NewEndpoint(endpointId: string, merchantId: string, url: string, eventTypes: Option<set<EventType>>, at: int)
    | CloseEndpoint(endpointId: string, merchantId: string, at: int)
    | Create(req: CreateRequest)
    | Upsert(paymentId: string, o: Observation, at: int)
    | DeleteNotIn(paymentId: string, txids: set<string>)
    | SetTip(height: int, hash: Option<string>, at: int)
    | Refresh(paymentId: string, at: int)
    | Succeed(id: DeliveryId, http: int, at: int)
    | Fail(id: DeliveryId, httpStatus: Option<int>, errorCode: string, at: int, next: int, dead: bool)

  ghost function Apply(t: Tables, s: Step): Tables {
    match s
    case NewMerchant(m, name) => AddMerchant(t, m, name).tables
    case NewCredential(c, m, tag) => AddCredential(t, c, m, tag).tables
    case NewEndpoint(e, m, url, types, at) => AddEndpoint(t, e, m, url, types, at).tables
    case CloseEndpoint(e, m, at) => DisableEndpoint(t, e, m, at).tables
    case Create(req) => CreatePayment(t, req).tables
    case Upsert(id, o, at) => UpsertTransaction(t, id, o, at).tables
    case DeleteNotIn(id, txids) => DeleteTransactionsNotIn(t, id, txids).tables
    case SetTip(h, hash, at) => SetChainTip(t, h, hash, at).tables
    case Refresh(id, at) => RefreshPayment(t, id, at).tables
    case Succeed(id, http, at) => MarkSuccess(t, id, http, at).tables
    case Fail(id, http, code, at, next, dead) => MarkFailure(t, id, http, code, at, next, dead).tables
  }

  /** The steps of any interleaving of processes, in the order the database serialises them. */
  ghost function Run(t: Tables, steps: seq<Step>): Tables
    decreases |steps|
  {
    if steps == [] then t else Run(Apply(t, steps[0]), steps[1..])
  }

  lemma {:induction false} RunConcat(t: Tables, a: seq<Step>, b: seq<Step>)
    ensures Run(t, a + b) == Run(Run(t, a), b)
    decreases |a|
  {
    if a == [] {
      assert a + b == b;
    } else {
      assert (a + b)[0] == a[0] && (a + b)[1..] == a[1..] + b;
      RunConcat(Apply(t, a[0]), a[1..], b);
    }
  }

  /** What a step raises, if it raises. */
  ghost function StepError(t: Tables, s: Step): Option<StoreError> {
    match s
    case NewMerchant(m, name) => ErrorOf(AddMerchant(t, m, name).result)
    case NewCredential(c, m, tag) => ErrorOf(AddCredential(t, c, m, tag).result)
    case NewEndpoint(e, m, url, types, at) => ErrorOf(AddEndpoint(t, e, m, url, types, at).result)
    case CloseEndpoint(e, m, at) => ErrorOf(DisableEndpoint(t, e, m, at).result)
    case Create(req) => ErrorOf(CreatePayment(t, req).result)
    case Upsert(id, o, at) => ErrorOf(UpsertTransaction(t, id, o, at).result)
    case DeleteNotIn(id, txids) => None
    case SetTip(h, hash, at) => ErrorOf(SetChainTip(t, h, hash, at).result)
    case Refresh(id, at) => ErrorOf(RefreshPayment(t, id, at).result)
    case Succeed(id, http, at) => ErrorOf(MarkSuccess(t, id, http, at).result)
    case Fail(id, http, code, at, next, dead) => ErrorOf(MarkFailure(t, id, http, code, at, next, dead).result)
  }

  function ErrorOf<T>(r: Result<T, StoreError>): Option<StoreError> {
    if r.Err? then Some(r.error) else None
  }

  /** One process making its steps in order and stopping at the first one that raises. */
  ghost function Execute(t: Tables, steps: seq<Step>): Outcome<()>
    decreases |steps|
  {
    if steps == [] then Outcome(t, Ok(()))
    else if StepError(t, steps[0]).Some? then Outcome(t, Err(StepError(t, steps[0]).value))
    else Execute(Apply(t, steps[0]), steps[1..])
  }

  lemma {:induction false} ExecuteConcat(t: Tables, a: seq<Step>, b: seq<Step>)
    ensures Execute(t, a + b) ==
            if Execute(t, a).result.Err? then Execute(t, a) else Execute(Execute(t, a).tables, b)
    decreases |a|
  {
    if a == [] {
      assert a + b == b;
    } else {
      assert (a + b)[0] == a[0] && (a + b)[1..] == a[1..] + b;
      if StepError(t, a[0]).None? {
        ExecuteConcat(Apply(t, a[0]), a[1..], b);
      }
    }
  }

  lemma {:induction false} ExecuteIsRun(t: Tables, steps: seq<Step>)
    requires Execute(t, steps).result.Ok?
    ensures Execute(t, steps).tables == Run(t, steps)
    decreases |steps|
  {
    if steps != [] {
      ExecuteIsRun(Apply(t, steps[0]), steps[1..]);
    }
  }

  lemma ExecuteOne(t: Tables, s: Step)
    ensures Execute(t, [s]) ==
            if StepError(t, s).Some? then Outcome(t, Err(StepError(t, s).value)) else Outcome(Apply(t, s), Ok(()))
  {
    assert [s][1..] == [];
  }

  /** The last step of a run acts on the tables the steps before it left. */
  lemma RunThen(t: Tables, steps: seq<Step>, s: Step)
    ensures Run(t, steps + [s]) == Apply(Run(t, steps), s)
  {
    RunConcat(t, steps, [s]);
    assert [s][1..] == [];
  }
}
