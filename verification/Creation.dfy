/**
 Payment creation over whole runs (backend/app/services/payment_store.py, payment_gateway_service.py):
 nothing stored is ever taken back, an idempotency key names one payment for good, and receive
 windows on one address never meet.
 */
module Creation {
  import opened Wrappers
  import opened PaymentState
  import opened PaymentTables
  import opened StoreInvariants

  // ---------- What a run can only add to ----------

  /** Two rows of one payment: the terms agreed at creation are the same. */
  predicate SameTerms(p: Payment, p': Payment) {
    && p' == p.(status := p'.status, version := p'.version, received := p'.received, confirmed := p'.confirmed,
                policyConfirmed := p'.policyConfirmed, updatedAt := p'.updatedAt)
    && p.version <= p'.version
  }

  ghost predicate Keeps<K, V>(m: map<K, V>, m': map<K, V>) {
    forall k :: k in m ==> k in m' && m'[k] == m[k]
  }

  /** `t'` still holds everything `t` promised: payments on the same terms with versions never
      lower, the same keys and baselines, and every event unchanged in its place. */
  ghost predicate Persists(t: Tables, t': Tables) {
    && t.merchants <= t'.merchants
    && (forall id :: id in t.payments ==> id in t'.payments && SameTerms(t.payments[id], t'.payments[id]))
    && Keeps(t.idempotency, t'.idempotency)
    && (forall id :: id in t.payments ==> BaselineOf(t', id) == BaselineOf(t, id))
    && t.events <= t'.events
  }

  lemma StepPersists(t: Tables, s: Step)
    ensures Persists(t, Apply(t, s))
  {
    match s
    case Create(req) => CreatePersists(t, req);
    case Refresh(id, at) => RefreshPersists(t, id, at);
    case _ => OtherStepsFrame(t, s);
  }

  lemma CreatePersists(t: Tables, req: CreateRequest)
    ensures Persists(t, CreatePayment(t, req).tables)
  {
    CreateAnatomy(t, req);
    var t' := CreatePayment(t, req).tables;
    assert t'.merchants == t.merchants && t.events <= t'.events;
    assert t' != t ==> t'.payments == t.payments[req.paymentId := NewPayment(req)];
    assert Keeps(t.idempotency, t'.idempotency);
  }

  lemma RefreshPersists(t: Tables, id: string, at: int)
    ensures Persists(t, RefreshPayment(t, id, at).tables)
  {
    RefreshAnatomy(t, id, at);
    var t' := RefreshPayment(t, id, at).tables;
    assert t'.merchants == t.merchants && t'.idempotency == t.idempotency && t'.baselines == t.baselines;
    assert t.events <= t'.events;
  }

  lemma {:induction false} RunPersists(t: Tables, steps: seq<Step>)
    ensures Persists(t, Run(t, steps))
    decreases |steps|
  {
    if steps != [] {
      StepPersists(t, steps[0]);
      RunPersists(Apply(t, steps[0]), steps[1..]);
    }
  }

  // ---------- Keys and references ----------

  ghost predicate KeysSound(t: Tables) {
    && (forall k :: k in t.idempotency ==>
          t.idempotency[k].paymentId in t.payments && t.payments[t.idempotency[k].paymentId].merchantId == k.0)
    && (forall k, k' | k in t.idempotency && k' in t.idempotency
                       && t.idempotency[k].paymentId == t.idempotency[k'].paymentId :: k == k')
  }

  ghost predicate ReferencesUnique(payments: map<string, Payment>) {
    forall a, b | a in payments && b in payments && payments[a].merchantId == payments[b].merchantId
                  && payments[a].reference.Some? && payments[a].reference == payments[b].reference :: a == b
  }

  // ---------- Receive windows ----------

  predicate Apart(p: Payment, q: Payment) {
    p.expiresAt < q.createdAt || q.expiresAt < p.createdAt
  }

  ghost predicate Exclusive(payments: map<string, Payment>) {
    forall a, b | a in payments && b in payments && a != b && payments[a].address == payments[b].address ::
      Apart(payments[a], payments[b])
  }

  ghost predicate CreationSound(t: Tables) {
    KeysSound(t) && ReferencesUnique(t.payments) && Exclusive(t.payments)
  }

  lemma CreateKeepsCreation(t: Tables, req: CreateRequest)
    requires CreationSound(t)
    ensures CreationSound(CreatePayment(t, req).tables)
  {
    CreateAnatomy(t, req);
    var t', p := CreatePayment(t, req).tables, NewPayment(req);
    if t' != t {
      assert t'.payments == t.payments[req.paymentId := p];
      forall a | a in t.payments && t.payments[a].address == p.address
        ensures Apart(t.payments[a], p)
      {
      }
    }
  }

  lemma RefreshKeepsCreation(t: Tables, id: string, at: int)
    requires CreationSound(t)
    ensures CreationSound(RefreshPayment(t, id, at).tables)
  {
    var t' := RefreshPayment(t, id, at).tables;
    RefreshAnatomy(t, id, at);
    if t' != t {
      var p' := t'.payments[id];
      assert t'.payments == t.payments[id := p'] && SameTerms(t.payments[id], p');
      SameTermsStayExclusive(t.payments, id, p');
    }
  }

  lemma SameTermsStayExclusive(payments: map<string, Payment>, id: string, p': Payment)
    requires id in payments && SameTerms(payments[id], p') && Exclusive(payments)
    ensures Exclusive(payments[id := p'])
  {
  }

  lemma StepKeepsCreation(t: Tables, s: Step)
    requires CreationSound(t)
    ensures CreationSound(Apply(t, s))
  {
    match s
    case Create(req) => CreateKeepsCreation(t, req);
    case Refresh(id, at) => RefreshKeepsCreation(t, id, at);
    case _ => OtherStepsFrame(t, s);
  }

  /** Everything the store maintains, in every state any interleaving can reach. */
  ghost predicate Sound(t: Tables) {
    RowsSound(t) && LogsSound(t) && CreationSound(t)
  }

  lemma {:induction false} RunSound(t: Tables, steps: seq<Step>)
    requires Sound(t)
    ensures Sound(Run(t, steps))
    decreases |steps|
  {
    if steps != [] {
      StepKeepsRows(t, steps[0]);
      StepKeepsLogs(t, steps[0]);
      StepKeepsCreation(t, steps[0]);
      RunSound(Apply(t, steps[0]), steps[1..]);
    }
  }

  lemma EmptySound()
    ensures Sound(EMPTY_TABLES)
  {
  }

  /** In every run from an empty database, a payment at version n has exactly n events, one per
      version, the first its creation, each later one a change of status or totals, the last saying what
      its row says; and the log a run starts from is a prefix of the log it ends with, so each version's event
      goes on saying what the row said at that version. */
  lemma EventLogEqualsState(steps: seq<Step>, more: seq<Step>)
    ensures var t, t' := Run(EMPTY_TABLES, steps), Run(EMPTY_TABLES, steps + more);
      && (forall id :: id in t.payments ==> History(LogOf(t.events, id), id, t.payments[id]))
      && (forall id :: id in t.payments ==> LogTells(LogOf(t'.events, id), t.payments[id]))
      && t.events <= t'.events
      && (forall id :: id in t.payments ==> id in t'.payments && LogOf(t.events, id) <= LogOf(t'.events, id))
  {
    EmptySound();
    RunSound(EMPTY_TABLES, steps);
    RunConcat(EMPTY_TABLES, steps, more);
    RunPersists(Run(EMPTY_TABLES, steps), more);
    var t, t' := Run(EMPTY_TABLES, steps), Run(EMPTY_TABLES, steps + more);
    forall id
      ensures LogOf(t.events, id) <= LogOf(t'.events, id)
      ensures id in t.payments ==> LogTells(LogOf(t'.events, id), t.payments[id])
    {
      LogPrefix(t.events, t'.events, id);
      assert id in t.payments ==> History(LogOf(t.events, id), id, t.payments[id]);
    }
  }

  /** The log's event of the row's version says what the row says. */
  predicate LogTells(log: seq<Event>, p: Payment) {
    && 0 < p.version <= |log|
    && var e := log[p.version - 1];
       && e.id.version == p.version && e.merchantId == p.merchantId && e.createdAt == p.updatedAt
       && Tells(e.payload, p)
  }

  lemma {:induction false} LogPrefix(events: seq<Event>, events': seq<Event>, id: string)
    requires events <= events'
    ensures LogOf(events, id) <= LogOf(events', id)
    decreases |events'|
  {
    if |events| < |events'| {
      LogPrefix(events, events'[..|events'| - 1], id);
    } else {
      assert events == events';
    }
  }

  /** Windows on one address are disjoint across all merchants, so an observation with its first-seen
      time belongs to at most one payment of that address. No hypothesis on the requested windows is
      needed: a later window always opens after every earlier one has closed. */
  lemma WindowExclusivity(steps: seq<Step>, a: string, b: string, o: Observation)
    requires var t := Run(EMPTY_TABLES, steps);
      a in t.payments && b in t.payments && t.payments[a].address == t.payments[b].address
    requires var t := Run(EMPTY_TABLES, steps);
      Belongs(o, t.payments[a].Window()) && Belongs(o, t.payments[b].Window())
    ensures a == b
  {
    EmptySound();
    RunSound(EMPTY_TABLES, steps);
  }

  // ---------- What creation stores ----------

  /** A known merchant asks for a new payment: under a new id and key, on proper terms, with a reference it has not
      used, at an address all of whose payments have closed. */
  ghost predicate Grantable(t: Tables, req: CreateRequest) {
    && req.merchantId in t.merchants && req.amount > 0 && req.required >= 0 && req.createdHeight >= 0
    && (req.key.Some? <==> req.requestHash.Some?)
    && (req.key.Some? ==> (req.merchantId, req.key.value) !in t.idempotency)
    && (forall id :: id in t.payments ==>
          && id != req.paymentId
          && (req.reference.Some? && t.payments[id].merchantId == req.merchantId ==> t.payments[id].reference != req.reference)
          && (t.payments[id].address == req.address ==> t.payments[id].expiresAt < req.createdAt))
  }

  /** The row of a payment just created, on the terms requested. */
  predicate AsRequested(p: Payment, req: CreateRequest) {
    && p.merchantId == req.merchantId && p.reference == req.reference
    && p.address == req.address && p.scripthash == req.scripthash
    && p.amount == req.amount && p.required == req.required
    && p.createdAt == req.createdAt && p.createdHeight == req.createdHeight && p.expiresAt == req.expiresAt
    && p.status == Waiting && p.version == 1 && p.received == 0 && p.confirmed == 0 && p.policyConfirmed == 0
    && p.updatedAt == req.createdAt
  }

  /** The key's row names the payment, the request's hash and its time. */
  predicate KeyNames(t: Tables, req: CreateRequest) {
    && req.key.Some? && (req.merchantId, req.key.value) in t.idempotency
    && var row := t.idempotency[(req.merchantId, req.key.value)];
       row.paymentId == req.paymentId && Some(row.requestHash) == req.requestHash && row.createdAt == req.createdAt
  }

  /** A create stores a payment exactly when the request is grantable: one payment as requested, its baseline,
      its creation event and its key, and nothing else but that event's deliveries. */
  lemma CreateStores(t: Tables, req: CreateRequest)
    requires Sound(t)
    ensures var o := CreatePayment(t, req);
      && (o.tables.payments != t.payments <==> Grantable(t, req))
      && (o.tables.payments == t.payments ==> o.tables == t)
      && (Grantable(t, req) ==>
            && req.paymentId in o.tables.payments && o.result == Ok(o.tables.payments[req.paymentId])
            && AsRequested(o.tables.payments[req.paymentId], req)
            && (forall txid :: txid in BaselineOf(o.tables, req.paymentId) <==> txid in req.baseline)
            && |o.tables.events| == |t.events| + 1 && t.events <= o.tables.events
            && TellsBeginning(o.tables.events[|t.events|].payload, o.tables.payments[req.paymentId])
            && (req.key.Some? ==> KeyNames(o.tables, req))
            && OnlyAdds(t, o.tables, req.paymentId))
  {
    var t' := CreatePayment(t, req).tables;
    CreateAnatomy(t, req);
    if Grantable(t, req) {
      GrantedIsStored(t, req);
    } else if t'.payments != t.payments {
      StoredIsGranted(t, req);
    }
  }

  /** Why a create that neither stores nor replays a payment is refused: the first of these that applies. */
  lemma CreateRefuses(t: Tables, req: CreateRequest)
    requires Sound(t) && !Grantable(t, req)
    ensures var o := CreatePayment(t, req);
      && o.tables == t
      && if req.merchantId !in t.merchants then o.result == Err(MerchantMissing)
         else if req.key.Some? != req.requestHash.Some? then o.result == Err(KeyWithoutHash)
         else if req.key.Some? && (req.merchantId, req.key.value) in t.idempotency then
           var row := t.idempotency[(req.merchantId, req.key.value)];
           o.result == if row.requestHash == req.requestHash.value then Ok(t.payments[row.paymentId]) else Err(IdempotencyConflict)
         else if exists id :: id in t.payments && t.payments[id].merchantId == req.merchantId && req.reference.Some?
                              && t.payments[id].reference == req.reference then o.result == Err(ReferenceConflict)
         else if exists id :: id in t.payments && t.payments[id].address == req.address
                              && req.createdAt <= t.payments[id].expiresAt then o.result == Err(AddressInUse)
         else o.result == Err(ConstraintViolation)
  {
    CreateStores(t, req);
    if req.merchantId in t.merchants && (req.key.Some? <==> req.requestHash.Some?)
       && (req.key.Some? ==> (req.merchantId, req.key.value) !in t.idempotency) {
      CreateErrors(t, req);
    }
  }

  lemma CreateErrors(t: Tables, req: CreateRequest)
    requires KeysSound(t) && CreatePayment(t, req).tables == t
    requires req.merchantId in t.merchants && (req.key.Some? <==> req.requestHash.Some?)
    requires req.key.Some? ==> (req.merchantId, req.key.value) !in t.idempotency
    ensures var o := CreatePayment(t, req);
      if exists id :: id in t.payments && t.payments[id].merchantId == req.merchantId && req.reference.Some?
                      && t.payments[id].reference == req.reference then o.result == Err(ReferenceConflict)
      else if exists id :: id in t.payments && t.payments[id].address == req.address
                           && req.createdAt <= t.payments[id].expiresAt then o.result == Err(AddressInUse)
      else o.result == Err(ConstraintViolation)
  {
  }

  ghost predicate OnlyAdds(t: Tables, t': Tables, id: string) {
    && t'.payments.Keys == t.payments.Keys + {id} && (forall q :: q in t.payments ==> t'.payments[q] == t.payments[q])
    && Keeps(t.idempotency, t'.idempotency) && Keeps(t.deliveries, t'.deliveries)
    && t' == t.(payments := t'.payments, baselines := t'.baselines, events := t'.events, idempotency := t'.idempotency,
                deliveries := t'.deliveries)
  }

  lemma StoredIsGranted(t: Tables, req: CreateRequest)
    requires CreatePayment(t, req).tables.payments != t.payments
    ensures Grantable(t, req)
  {
  }

  lemma GrantedIsInserted(t: Tables, req: CreateRequest)
    requires Sound(t) && Grantable(t, req)
    ensures CreatePayment(t, req) == Outcome(InsertPayment(t, req), Ok(NewPayment(req)))
  {
  }

  lemma GrantedIsStored(t: Tables, req: CreateRequest)
    requires Sound(t) && Grantable(t, req)
    ensures var o := CreatePayment(t, req);
      && req.paymentId in o.tables.payments && o.result == Ok(o.tables.payments[req.paymentId])
      && AsRequested(o.tables.payments[req.paymentId], req)
      && (forall txid :: txid in BaselineOf(o.tables, req.paymentId) <==> txid in req.baseline)
      && |o.tables.events| == |t.events| + 1 && t.events <= o.tables.events
      && TellsBeginning(o.tables.events[|t.events|].payload, o.tables.payments[req.paymentId])
      && (req.key.Some? ==> KeyNames(o.tables, req))
      && OnlyAdds(t, o.tables, req.paymentId)
  {
    GrantedIsInserted(t, req);
    FreshVersion(t, req.paymentId, 1, Created);
    InsertedRow(t, req);
    InsertedLog(t, req);
  }

  function Unlogged(t: Tables, req: CreateRequest): Tables {
    t.(payments := t.payments[req.paymentId := NewPayment(req)], baselines := t.baselines[req.paymentId := TxidSet(req.baseline)])
  }

  lemma InsertedRow(t: Tables, req: CreateRequest)
    ensures var t' := InsertPayment(t, req);
      && t'.payments == t.payments[req.paymentId := NewPayment(req)] && AsRequested(NewPayment(req), req)
      && t'.baselines == t.baselines[req.paymentId := TxidSet(req.baseline)]
      && (forall txid :: txid in BaselineOf(t', req.paymentId) <==> txid in req.baseline)
  {
    BaselineMembers(req.baseline);
  }

  lemma BaselineMembers(txids: seq<string>)
    ensures forall txid :: txid in TxidSet(txids) <==> txid in txids
  {
  }

  lemma InsertedLog(t: Tables, req: CreateRequest)
    requires req.paymentId !in t.payments && !EventStored(t.events, EventId(req.paymentId, 1, Created))
    requires req.key.Some? && req.requestHash.Some? ==> (req.merchantId, req.key.value) !in t.idempotency
    ensures var t' := InsertPayment(t, req);
      && |t'.events| == |t.events| + 1 && t.events <= t'.events
      && TellsBeginning(t'.events[|t.events|].payload, NewPayment(req))
      && (req.key.Some? && req.requestHash.Some? ==> KeyNames(t', req))
      && OnlyAdds(t, t', req.paymentId)
  {
    var t', logged := InsertPayment(t, req), InsertEvent(Unlogged(t, req), req.paymentId, NewPayment(req), Created, req.createdAt);
    FreshEventIsAdded(Unlogged(t, req), req.paymentId, NewPayment(req), Created, req.createdAt);
    assert t' == logged.(idempotency := t'.idempotency);
  }

  lemma FreshEventIsAdded(t: Tables, id: string, p: Payment, eventType: EventType, at: int)
    requires !EventStored(t.events, EventId(id, p.version, eventType))
    ensures var t' := InsertEvent(t, id, p, eventType, at);
      && |t'.events| == |t.events| + 1 && t.events <= t'.events && Tells(t'.events[|t.events|].payload, p)
      && Keeps(t.deliveries, t'.deliveries) && t' == t.(events := t'.events, deliveries := t'.deliveries)
  {
  }

  // ---------- Idempotent creation ----------

  /** Once a key has created or replayed a payment, every later create with that key and hash returns
      the payment as it then stands and writes nothing, whatever its reference, address or other terms;
      any other hash is refused and writes nothing. Other processes may have run any steps between. */
  lemma ReplayForever(t: Tables, req: CreateRequest, between: seq<Step>, again: CreateRequest)
    requires Sound(t) && req.key.Some? && CreatePayment(t, req).result.Ok?
    requires again.merchantId == req.merchantId && again.key == req.key && again.requestHash.Some?
    ensures var t1 := CreatePayment(t, req).tables;
      var t2 := Run(t1, between);
      var k := (req.merchantId, req.key.value);
      && k in t1.idempotency && t1.idempotency[k].requestHash == req.requestHash.value
      && var id := t1.idempotency[k].paymentId;
         && id in t1.payments && CreatePayment(t, req).result == Ok(t1.payments[id])
         && (k !in t.idempotency ==> id == req.paymentId && id !in t.payments)
         && id in t2.payments && SameTerms(t1.payments[id], t2.payments[id])
         && CreatePayment(t2, again) ==
            if again.requestHash == req.requestHash then Outcome(t2, Ok(t2.payments[id]))
            else Outcome(t2, Err(IdempotencyConflict))
  {
    KeyIsMapped(t, req);
    var t1 := CreatePayment(t, req).tables;
    RunPersists(t1, between);
    ReplayAnswer(Run(t1, between), again);
  }

  lemma KeyIsMapped(t: Tables, req: CreateRequest)
    requires KeysSound(t) && req.key.Some? && CreatePayment(t, req).result.Ok?
    ensures var t1 := CreatePayment(t, req).tables;
      var k := (req.merchantId, req.key.value);
      && req.merchantId in t1.merchants && req.requestHash.Some?
      && k in t1.idempotency && t1.idempotency[k].requestHash == req.requestHash.value
      && var id := t1.idempotency[k].paymentId;
         && id in t1.payments && CreatePayment(t, req).result == Ok(t1.payments[id])
         && (k !in t.idempotency ==> id == req.paymentId && id !in t.payments)
  {
    CreateAnatomy(t, req);
  }

  lemma ReplayAnswer(t: Tables, again: CreateRequest)
    requires again.merchantId in t.merchants && again.key.Some? && again.requestHash.Some?
    requires (again.merchantId, again.key.value) in t.idempotency
    requires t.idempotency[(again.merchantId, again.key.value)].paymentId in t.payments
    ensures var row := t.idempotency[(again.merchantId, again.key.value)];
      CreatePayment(t, again) == if row.requestHash == again.requestHash.value then Outcome(t, Ok(t.payments[row.paymentId]))
                                 else Outcome(t, Err(IdempotencyConflict))
  {
  }

  /** Step `i` of a run inserts a payment for this merchant and key. */
  ghost predicate Inserts(steps: seq<Step>, i: nat, merchantId: string, key: string) {
    && i < |steps| && steps[i].Create?
    && steps[i].req.merchantId == merchantId && steps[i].req.key == Some(key)
    && var before := Run(EMPTY_TABLES, steps[..i]);
       Apply(before, steps[i]).payments != before.payments
  }

  /** Any number of creates with one merchant and key, interleaved with anything, insert one payment. */
  lemma OneInsertPerKey(steps: seq<Step>, i: nat, j: nat, merchantId: string, key: string)
    requires Inserts(steps, i, merchantId, key) && Inserts(steps, j, merchantId, key)
    ensures i == j
  {
    if i < j {
      LaterCreateReplays(steps, i, j, merchantId, key);
    } else if j < i {
      LaterCreateReplays(steps, j, i, merchantId, key);
    }
  }

  lemma LaterCreateReplays(steps: seq<Step>, i: nat, j: nat, merchantId: string, key: string)
    requires i < j < |steps| && Inserts(steps, i, merchantId, key)
    requires steps[j].Create? && steps[j].req.merchantId == merchantId && steps[j].req.key == Some(key)
    ensures !Inserts(steps, j, merchantId, key)
  {
    EmptySound();
    RunSound(EMPTY_TABLES, steps[..i]);
    var before := Run(EMPTY_TABLES, steps[..i]);
    var after := Apply(before, steps[i]);
    CreateAnatomy(before, steps[i].req);
    var middle := steps[i + 1..j];
    assert steps[..j] == steps[..i] + ([steps[i]] + middle);
    RunConcat(EMPTY_TABLES, steps[..i], [steps[i]] + middle);
    assert ([steps[i]] + middle)[1..] == middle;
    assert Run(EMPTY_TABLES, steps[..j]) == Run(after, middle);
    if steps[j].req.requestHash.Some? {
      ReplayForever(before, steps[i].req, middle, steps[j].req);
    }
  }

  /** A second payment for a merchant's reference is refused with nothing written, unless the request
      is a replay of its own key. */
  lemma ReferenceRefused(t: Tables, id: string, req: CreateRequest)
    requires Sound(t) && id in t.payments
    requires req.merchantId == t.payments[id].merchantId && req.reference.Some? && req.reference == t.payments[id].reference
    requires req.key.Some? ==> (req.merchantId, req.key.value) !in t.idempotency
    ensures CreatePayment(t, req).tables == t && CreatePayment(t, req).result.Err?
    ensures req.merchantId in t.merchants && (req.key.None? <==> req.requestHash.None?) ==>
              CreatePayment(t, req).result == Err(ReferenceConflict)
  {
  }
}
