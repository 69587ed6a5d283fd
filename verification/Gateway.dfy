/**
 The gateway's create call (backend/app/services/payment_gateway_service.py) as a program of separate
 store calls with other processes running between them, compared with one atomic store create.
 */
module Gateway {
  import opened Wrappers
  import opened PaymentState
  import opened PaymentTables
  import opened StoreInvariants
  import opened Creation

  /** What other processes write between the gateway's store calls. */
  datatype Interference = Interference(
    beforeReference: seq<Step>,
    beforeAddress: seq<Step>,
    beforeTip: seq<Step>,
    beforeCreate: seq<Step>)

  const ALONE := Interference([], [], [], [])

  predicate KeyMapped(t: Tables, req: CreateRequest) {
    req.key.Some? && (req.merchantId, req.key.value) in t.idempotency
  }

  predicate ReferenceHeld(t: Tables, req: CreateRequest) {
    req.reference.Some? && ReferenceTaken(t.payments, req.merchantId, req.reference.value)
  }

  /** The replay lookup by key. */
  function Replay(t: Tables, req: CreateRequest): Outcome<Payment>
    requires KeyMapped(t, req) && req.requestHash.Some?
  {
    var row := t.idempotency[(req.merchantId, req.key.value)];
    if row.requestHash != req.requestHash.value then Fails(t, IdempotencyConflict)
    else if row.paymentId !in t.payments then Fails(t, MappingWithoutPayment)
    else Outcome(t, Ok(t.payments[row.paymentId]))
  }

  ghost function AtReference(t: Tables, other: Interference): Tables {
    Run(t, other.beforeReference)
  }

  ghost function AtAddress(t: Tables, other: Interference): Tables {
    Run(AtReference(t, other), other.beforeAddress)
  }

  ghost function AtSnapshot(t: Tables, other: Interference): Tables {
    Run(AtAddress(t, other), other.beforeTip)
  }

  ghost function AtCreate(t: Tables, req: CreateRequest, tipHash: Option<string>, other: Interference): Tables {
    var written := SetChainTip(AtSnapshot(t, other), req.createdHeight, tipHash, req.createdAt).tables;
    Run(written, other.beforeCreate)
  }

  /** The call from its key lookup on. The snapshot gives `createdHeight`, which is also the new tip, and
      refuses a negative one before anything is written. */
  ghost function GatewayCreate(t: Tables, req: CreateRequest, tipHash: Option<string>, other: Interference): Outcome<Payment>
    requires req.key.None? <==> req.requestHash.None?
  {
    if KeyMapped(t, req) then Replay(t, req)
    else if ReferenceHeld(AtReference(t, other), req) then Fails(AtReference(t, other), ReferenceConflict)
    else if AddressReserved(AtAddress(t, other).payments, req.address, req.createdAt) then
      Fails(AtAddress(t, other), AddressInUse)
    else if req.createdHeight < 0 then Fails(AtSnapshot(t, other), TipUnavailable)
    else CreatePayment(AtCreate(t, req, tipHash, other), req)
  }

  /** The tables the call last read before it answered. */
  ghost function LastRead(t: Tables, req: CreateRequest, tipHash: Option<string>, other: Interference): Tables {
    if KeyMapped(t, req) then t
    else if ReferenceHeld(AtReference(t, other), req) then AtReference(t, other)
    else if AddressReserved(AtAddress(t, other).payments, req.address, req.createdAt) then AtAddress(t, other)
    else AtCreate(t, req, tipHash, other)
  }

  /** A conflict check answered although another process had, since the checks before it, stored this
      very key or taken the reference. */
  ghost predicate Overtaken(t: Tables, req: CreateRequest, other: Interference) {
    && !KeyMapped(t, req)
    && if ReferenceHeld(AtReference(t, other), req) then
         KeyMapped(AtReference(t, other), req)
       else
         && AddressReserved(AtAddress(t, other).payments, req.address, req.createdAt)
         && (KeyMapped(AtAddress(t, other), req) || ReferenceHeld(AtAddress(t, other), req))
  }

  /** Past every conflict check, the snapshot shows no usable tip. */
  ghost predicate NoTip(t: Tables, req: CreateRequest, other: Interference) {
    && !KeyMapped(t, req) && !ReferenceHeld(AtReference(t, other), req)
    && !AddressReserved(AtAddress(t, other).payments, req.address, req.createdAt)
    && req.createdHeight < 0
  }

  /** The gateway answers as one atomic create on the tables it last read, exactly unless it found no tip or
      was overtaken; only when overtaken does a conflict hide the replay (or reference conflict) owed. */
  lemma GatewayMatchesAtomicCreate(t: Tables, req: CreateRequest, tipHash: Option<string>, other: Interference)
    requires Sound(t) && req.merchantId in t.merchants && (req.key.None? <==> req.requestHash.None?)
    ensures GatewayCreate(t, req, tipHash, other) == CreatePayment(LastRead(t, req, tipHash, other), req)
            <==> !Overtaken(t, req, other) && !NoTip(t, req, other)
    ensures NoTip(t, req, other) ==> GatewayCreate(t, req, tipHash, other) == Fails(AtSnapshot(t, other), TipUnavailable)
  {
    var t2, t3 := AtReference(t, other), AtAddress(t, other);
    assert t.merchants <= t2.merchants <= t3.merchants by {
      RunPersists(t, other.beforeReference);
      RunPersists(t2, other.beforeAddress);
    }
    if !KeyMapped(t, req) {
      if ReferenceHeld(t2, req) {
        ReferenceAnswer(t2, req);
      } else if AddressReserved(t3.payments, req.address, req.createdAt) {
        AddressAnswer(t3, req);
      } else {
        NeverTipUnavailable(AtCreate(t, req, tipHash, other), req);
      }
    }
  }

  lemma NeverTipUnavailable(t: Tables, req: CreateRequest)
    ensures CreatePayment(t, req).result != Err(TipUnavailable)
  {
  }

  lemma ReferenceAnswer(t: Tables, req: CreateRequest)
    requires req.merchantId in t.merchants && (req.key.None? <==> req.requestHash.None?) && ReferenceHeld(t, req)
    ensures CreatePayment(t, req) == Fails(t, ReferenceConflict) <==> !KeyMapped(t, req)
  {
  }

  lemma AddressAnswer(t: Tables, req: CreateRequest)
    requires req.merchantId in t.merchants && (req.key.None? <==> req.requestHash.None?)
    requires AddressReserved(t.payments, req.address, req.createdAt)
    ensures CreatePayment(t, req) == Fails(t, AddressInUse) <==> !KeyMapped(t, req) && !ReferenceHeld(t, req)
  {
  }

  lemma AloneMatchesAtomicCreate(t: Tables, req: CreateRequest, tipHash: Option<string>)
    requires Sound(t) && req.merchantId in t.merchants && (req.key.None? <==> req.requestHash.None?)
    ensures if NoTip(t, req, ALONE) then
              GatewayCreate(t, req, tipHash, ALONE) == Fails(t, TipUnavailable)
            else
              && GatewayCreate(t, req, tipHash, ALONE) == CreatePayment(LastRead(t, req, tipHash, ALONE), req)
              && GatewayCreate(t, req, tipHash, ALONE).result == CreatePayment(t, req).result
  {
    GatewayMatchesAtomicCreate(t, req, tipHash, ALONE);
  }

  /** Being overtaken really happens: of two identical concurrent requests that carry a key and a
      reference, the slower one is refused with a reference conflict, where the store would replay. */
  lemma ConcurrentTwinIsRefused()
    ensures exists req: CreateRequest, twin: CreateRequest, other ::
      && twin == req.(paymentId := twin.paymentId)
      && req.key.Some? && req.requestHash.Some? && req.reference.Some?
      && other == ALONE.(beforeReference := [Create(twin)])
      && GatewayCreate(EMPTY_TABLES, req, None, other).result == Err(ReferenceConflict)
      && CreatePayment(LastRead(EMPTY_TABLES, req, None, other), req).result == Ok(NewPayment(twin))
  {
    var req := CreateRequest("pay_a", LEGACY_MERCHANT_ID, "P1", "s1", 100, 1, 1000, 50, 1060, Some("order-1"), [],
                             Some("key-1"), Some("hash-1"));
    var twin := req.(paymentId := "pay_b");
    var other := ALONE.(beforeReference := [Create(twin)]);
    var t := CreatePayment(EMPTY_TABLES, twin).tables;
    assert t == InsertPayment(EMPTY_TABLES, twin);
    assert Run(EMPTY_TABLES, [Create(twin)]) == t by {
      assert [Create(twin)][1..] == [];
    }
    assert AtReference(EMPTY_TABLES, other) == t;
    assert "pay_b" in t.payments && t.payments["pay_b"].reference == Some("order-1");
    assert ReferenceHeld(t, req);
    assert GatewayCreate(EMPTY_TABLES, req, None, other).result == Err(ReferenceConflict);
    assert KeyMapped(t, req);
  }
}
