/**
 The merchant over whole runs (backend/examples/reference_merchant.py): whatever the order, repetition
 or loss of a payment's events, its order ends at the highest version it heard of.
 */
module MerchantRuns {
  import opened Text
  import opened Wrappers
  import opened PaymentState
  import opened PaymentTables
  import opened ReferenceMerchant

  datatype Act =
    | Reserving(orderId: string, key: string, at: int)
    | Binding(orderId: string, view: PaymentView, base: Url, at: int)
    | Receiving(n: Notice, at: int)

  ghost function Perform(b: Books, a: Act): Books {
    match a
    case Reserving(o, key, at) => Reserve(b, o, key, at).books
    case Binding(o, view, base, at) => Bind(b, o, view, base, at).books
    case Receiving(n, at) => Receive(b, n, at).books
  }

  ghost function Play(b: Books, acts: seq<Act>): Books
    decreases |acts|
  {
    if acts == [] then b else Play(Perform(b, acts[0]), acts[1..])
  }

  // ---------- What the platform sends ----------

  /** Order `o` was paid by payment `p` alone, whose version v had status `says(v)`. */
  datatype Story = Story(orderId: string, paymentId: string, says: int -> Status)
  {
    predicate WellFormed() {
      ValidReference(orderId) && ValidPaymentId(paymentId)
    }

    /** The reference names this order exactly when the payment is this payment, and its versions
        carry the statuses they had. */
    predicate Genuine(a: Act) {
      match a
      case Reserving(_, _, _) => true
      case Binding(_, v, _, _) =>
        (v.paymentId == paymentId <==> v.reference == Some(orderId)) && (v.paymentId == paymentId ==> v.status == says(v.version))
      case Receiving(n, _) =>
        && (n.paymentId == paymentId <==> n.reference == Some(orderId))
        && n.eventId.paymentId == n.paymentId && n.eventId.version == n.version
        && (n.paymentId == paymentId ==> n.status == says(n.version))
    }

    /** The version of the payment an act brings to the order. */
    function Brings(a: Act): Option<int> {
      match a
      case Reserving(_, _, _) => None
      case Binding(o, v, base, _) =>
        if o == orderId && v.paymentId == paymentId && ValidOrigin(base) then Some(v.version) else None
      case Receiving(n, _) => if n.paymentId == paymentId then Some(n.version) else None
    }

    /** A bind that would put an older version over a newer one. */
    predicate Regresses(b: Books, a: Act)
      requires orderId in b.orders
    {
      a.Binding? && Brings(a).Some? && b.orders[orderId].version.Some? && Brings(a).value < b.orders[orderId].version.value
    }

    /** No act of the run regresses the order. */
    ghost predicate Steady(b: Books, acts: seq<Act>)
      decreases |acts|
    {
      acts == [] || (orderId in b.orders && !Regresses(b, acts[0]) && Steady(Perform(b, acts[0]), acts[1..]))
    }

    /** Nothing in the books concerns this payment yet. */
    ghost predicate Unheard(b: Books) {
      && Unique(b.orders) && orderId !in b.orders && !Bound(b.orders, paymentId)
      && forall e :: e in b.seen ==> e.paymentId != paymentId
    }

    /** The order is reserved, holds this payment or none, and no recorded event is newer than it. */
    ghost predicate Tracks(b: Books) {
      && Unique(b.orders) && orderId in b.orders
      && (forall k :: k in b.orders && b.orders[k].paymentId == Some(paymentId) ==> k == orderId)
      && var order := b.orders[orderId];
         && order.paymentId == (if order.version.Some? then Some(paymentId) else None)
         && (order.version.Some? ==> order.status == Some(says(order.version.value)))
         && forall e :: e in b.seen && e.paymentId == paymentId ==>
              order.version.Some? && e.version <= order.version.value
    }
  }

  function Raise(v: Option<int>, w: Option<int>): Option<int> {
    if w.None? || (v.Some? && w.value <= v.value) then v else w
  }

  /** The highest version among `v` and those a run brings. */
  function Highest(s: Story, v: Option<int>, acts: seq<Act>): Option<int>
    decreases |acts|
  {
    if acts == [] then v else Highest(s, Raise(v, s.Brings(acts[0])), acts[1..])
  }

  ghost predicate AllGenuine(s: Story, acts: seq<Act>) {
    forall i :: 0 <= i < |acts| ==> s.Genuine(acts[i])
  }

  // ---------- Before the order is reserved ----------

  /** Events and binds that come before the order is reserved are refused and leave no record, so the
      same events can still be applied when they are delivered again. */
  lemma EarlyActLeavesNoTrace(s: Story, b: Books, a: Act)
    requires s.WellFormed() && s.Unheard(b) && s.Genuine(a)
    ensures s.orderId !in Perform(b, a).orders ==> s.Unheard(Perform(b, a))
    ensures s.orderId in Perform(b, a).orders ==>
              s.Tracks(Perform(b, a)) && Perform(b, a).orders[s.orderId].version == None
    ensures s.Brings(a).Some? ==> Perform(b, a) == b
  {
    match a
    case Reserving(o, key, at) => EarlyReserve(s, b, o, key, at);
    case Binding(o, v, base, at) => EarlyBind(s, b, o, v, base, at);
    case Receiving(n, at) => EarlyReceive(s, b, n, at);
  }

  lemma EarlyReserve(s: Story, b: Books, o: string, key: string, at: int)
    requires s.WellFormed() && s.Unheard(b)
    ensures var b' := Reserve(b, o, key, at).books;
      if s.orderId in b'.orders then s.Tracks(b') && b'.orders[s.orderId].version == None else s.Unheard(b')
  {
    var b' := Reserve(b, o, key, at).books;
    assert b'.seen == b.seen;
    if b' != b {
      assert b'.orders == b.orders[o := Order(key, None, None, None, None, at)] && o !in b.orders;
      assert Unique(b'.orders);
      assert !Bound(b'.orders, s.paymentId);
    }
  }

  lemma EarlyBind(s: Story, b: Books, o: string, v: PaymentView, base: Url, at: int)
    requires s.WellFormed() && s.Unheard(b) && s.Genuine(Binding(o, v, base, at))
    ensures var b' := Bind(b, o, v, base, at).books;
      s.Unheard(b') && (v.paymentId == s.paymentId ==> b' == b)
  {
    var b' := Bind(b, o, v, base, at).books;
    if b' != b {
      assert b'.orders == b.orders[o := b'.orders[o]] && b'.orders[o].paymentId == Some(v.paymentId);
      assert b'.orders[o].idempotencyKey == b.orders[o].idempotencyKey && b'.seen == b.seen;
    }
  }

  lemma EarlyReceive(s: Story, b: Books, n: Notice, at: int)
    requires s.WellFormed() && s.Unheard(b) && s.Genuine(Receiving(n, at))
    ensures var b' := Receive(b, n, at).books;
      s.Unheard(b') && (n.paymentId == s.paymentId ==> b' == b)
  {
    var b' := Receive(b, n, at).books;
    ReceiveAnatomy(b, n, at);
    if b' != b {
      assert n.paymentId != s.paymentId;
    }
  }

  /** What receiving an event can change: the addressee's row, and one record. */
  lemma ReceiveAnatomy(b: Books, n: Notice, at: int)
    ensures var b' := Receive(b, n, at).books;
      || b' == b
      || (&& n.eventId !in b.seen && b'.seen == b.seen[n.eventId := Receipt(n.paymentId, n.version, n.eventType, at)]
          && var found := Addressee(b, n);
             && found.Some? && b.orders[found.value].paymentId in {None, Some(n.paymentId)}
             && (n.reference.Some? ==> n.reference == found)
             && b'.orders == if Newer(b.orders[found.value], n)
                             then b.orders[found.value := Advanced(b.orders[found.value], n, at)] else b.orders)
  {
  }

  lemma {:induction false} EarlyRunLeavesNoTrace(s: Story, b: Books, acts: seq<Act>)
    requires s.WellFormed() && s.Unheard(b) && AllGenuine(s, acts)
    requires s.orderId !in Play(b, acts).orders
    ensures s.Unheard(Play(b, acts))
    decreases |acts|
  {
    if acts != [] {
      var b' := Perform(b, acts[0]);
      EarlyActLeavesNoTrace(s, b, acts[0]);
      if s.orderId in b'.orders {
        OrdersStay(b', acts[1..], s.orderId);
        assert false;
      } else {
        EarlyRunLeavesNoTrace(s, b', acts[1..]);
      }
    }
  }

  lemma {:induction false} OrdersStay(b: Books, acts: seq<Act>, id: string)
    requires id in b.orders
    ensures id in Play(b, acts).orders
    decreases |acts|
  {
    if acts != [] {
      OrdersStay(Perform(b, acts[0]), acts[1..], id);
    }
  }

  // ---------- One act on a reserved order ----------

  lemma ReceiveRaises(s: Story, b: Books, n: Notice, at: int)
    requires s.WellFormed() && s.Tracks(b) && s.Genuine(Receiving(n, at)) && n.paymentId == s.paymentId
    ensures var b' := Receive(b, n, at).books;
      s.Tracks(b') && b'.orders[s.orderId].version == Raise(b.orders[s.orderId].version, Some(n.version))
  {
    var found := Addressee(b, n);
    assert found == Some(s.orderId);
  }

  lemma OthersReceived(s: Story, b: Books, n: Notice, at: int)
    requires s.WellFormed() && s.Tracks(b) && s.Genuine(Receiving(n, at)) && n.paymentId != s.paymentId
    ensures var b' := Receive(b, n, at).books;
      s.Tracks(b') && b'.orders[s.orderId] == b.orders[s.orderId]
  {
    var found := Addressee(b, n);
    assert found != Some(s.orderId) || Receive(b, n, at).books == b;
  }

  lemma ReserveKeepsTrack(s: Story, b: Books, o: string, key: string, at: int)
    requires s.Tracks(b)
    ensures var b' := Reserve(b, o, key, at).books;
      s.Tracks(b') && b'.orders[s.orderId] == b.orders[s.orderId]
  {
    var b' := Reserve(b, o, key, at).books;
    if b' != b {
      assert o !in b.orders && b'.orders == b.orders[o := Order(key, None, None, None, None, at)] && b'.seen == b.seen;
    }
  }

  /** What binding can change: the named order's row. */
  lemma BindAnatomy(b: Books, o: string, v: PaymentView, base: Url, at: int)
    ensures var b' := Bind(b, o, v, base, at).books;
      || b' == b
      || (&& o in b.orders && v.reference == Some(o)
          && (b.orders[o].paymentId == Some(v.paymentId) || (b.orders[o].paymentId == None && !Bound(b.orders, v.paymentId)))
          && b' == Books(b.orders[o := b'.orders[o]], b.seen)
          && b'.orders[o] == b.orders[o].(paymentId := Some(v.paymentId), status := Some(v.status),
                                          version := Some(v.version), checkoutUrl := b'.orders[o].checkoutUrl,
                                          updatedAt := at))
  {
  }

  lemma BindRaises(s: Story, b: Books, o: string, v: PaymentView, base: Url, at: int)
    requires s.WellFormed() && s.Tracks(b) && s.Genuine(Binding(o, v, base, at))
    requires !s.Regresses(b, Binding(o, v, base, at))
    ensures var b' := Bind(b, o, v, base, at).books;
      s.Tracks(b')
      && b'.orders[s.orderId].version == Raise(b.orders[s.orderId].version, s.Brings(Binding(o, v, base, at)))
  {
    BindAnatomy(b, o, v, base, at);
    if o == s.orderId && v.paymentId == s.paymentId && ValidOrigin(base) {
      assert Bind(b, o, v, base, at).result.Ok?;
    }
  }

  lemma ActRaises(s: Story, b: Books, a: Act)
    requires s.WellFormed() && s.Tracks(b) && s.Genuine(a) && !s.Regresses(b, a)
    ensures var b' := Perform(b, a);
      s.Tracks(b') && b'.orders[s.orderId].version == Raise(b.orders[s.orderId].version, s.Brings(a))
  {
    match a
    case Reserving(o, key, at) => ReserveKeepsTrack(s, b, o, key, at);
    case Binding(o, v, base, at) => BindRaises(s, b, o, v, base, at);
    case Receiving(n, at) =>
      if n.paymentId == s.paymentId {
        ReceiveRaises(s, b, n, at);
      } else {
        OthersReceived(s, b, n, at);
      }
  }

  // ---------- Convergence ----------

  /** However events are ordered, repeated or lost, a reserved order whose binds never regress ends at the
      highest version brought to it, with the status that version had. */
  lemma {:induction false} MerchantConverges(s: Story, b: Books, acts: seq<Act>)
    requires s.WellFormed() && s.Tracks(b) && AllGenuine(s, acts) && s.Steady(b, acts)
    ensures var b' := Play(b, acts);
      && s.Tracks(b')
      && b'.orders[s.orderId].version == Highest(s, b.orders[s.orderId].version, acts)
    decreases |acts|
  {
    if acts != [] {
      ActRaises(s, b, acts[0]);
      MerchantConverges(s, Perform(b, acts[0]), acts[1..]);
    }
  }

  /** `Highest` is what its name says. */
  lemma {:induction false} HighestMeaning(s: Story, v: Option<int>, acts: seq<Act>)
    ensures var h := Highest(s, v, acts);
      && (h.None? <==> v.None? && forall i :: 0 <= i < |acts| ==> s.Brings(acts[i]).None?)
      && (h.Some? ==> h == v || exists i :: 0 <= i < |acts| && s.Brings(acts[i]) == h)
      && (v.Some? ==> h.Some? && v.value <= h.value)
      && (forall i :: 0 <= i < |acts| && s.Brings(acts[i]).Some? ==> h.Some? && s.Brings(acts[i]).value <= h.value)
    decreases |acts|
  {
    if acts != [] {
      var rest := acts[1..];
      HighestMeaning(s, Raise(v, s.Brings(acts[0])), rest);
      assert forall i :: 0 < i < |acts| ==> acts[i] == rest[i - 1];
      assert forall i :: 0 <= i < |rest| ==> rest[i] == acts[i + 1];
    }
  }

  function Versions(s: Story, acts: seq<Act>): set<int> {
    set i | 0 <= i < |acts| && s.Brings(acts[i]).Some? :: s.Brings(acts[i]).value
  }

  /** Two runs that bring the same versions, in any order and with any repetition, leave the order with
      the same payment, version and status. */
  lemma OrderIrrelevant(s: Story, b: Books, acts: seq<Act>, acts': seq<Act>)
    requires s.WellFormed() && s.Tracks(b)
    requires AllGenuine(s, acts) && s.Steady(b, acts) && AllGenuine(s, acts') && s.Steady(b, acts')
    requires Versions(s, acts) == Versions(s, acts')
    ensures s.Tracks(Play(b, acts)) && s.Tracks(Play(b, acts'))
    ensures var order, order' := Play(b, acts).orders[s.orderId], Play(b, acts').orders[s.orderId];
      order.version == order'.version && order.paymentId == order'.paymentId
      && (order.version.Some? ==> order.status == order'.status)
  {
    MerchantConverges(s, b, acts);
    MerchantConverges(s, b, acts');
    var v := b.orders[s.orderId].version;
    HighestIsMax(s, v, acts);
    HighestIsMax(s, v, acts');
  }

  lemma HighestIsMax(s: Story, v: Option<int>, acts: seq<Act>)
    ensures var h, vs := Highest(s, v, acts), Versions(s, acts);
      && (h.None? <==> v.None? && vs == {})
      && (h.Some? ==> (h == v || h.value in vs) && (v.Some? ==> v.value <= h.value) && forall w :: w in vs ==> w <= h.value)
  {
    HighestMeaning(s, v, acts);
    if exists i :: 0 <= i < |acts| && s.Brings(acts[i]).Some? {
      var i :| 0 <= i < |acts| && s.Brings(acts[i]).Some?;
      assert s.Brings(acts[i]).value in Versions(s, acts);
    }
  }

  // ---------- Binds that regress ----------

  /** One genuine act leaves the order at the higher of its version and the one brought exactly when it
      is not a bind that regresses. */
  lemma RaisesUnlessRegressing(s: Story, b: Books, a: Act)
    requires s.WellFormed() && s.Tracks(b) && s.Genuine(a)
    ensures Perform(b, a).orders[s.orderId].version == Raise(b.orders[s.orderId].version, s.Brings(a))
            <==> !s.Regresses(b, a)
  {
    if !s.Regresses(b, a) {
      ActRaises(s, b, a);
    } else {
      assert Perform(b, a).orders[s.orderId].version == s.Brings(a);
    }
  }

  /** After a regression, delivering recorded events again repairs nothing: they are all duplicates. */
  lemma {:induction false} RedeliveryRepairsNothing(b: Books, acts: seq<Act>)
    requires forall i :: 0 <= i < |acts| ==> acts[i].Receiving? && acts[i].n.eventId in b.seen
    ensures Play(b, acts) == b
    decreases |acts|
  {
    if acts != [] {
      RedeliveryRepairsNothing(b, acts[1..]);
    }
  }

  const ORDER := "order-1"
  const PAYMENT := "pay_00000001"
  const PAID_NOTICE := Notice(EventId(PAYMENT, 2, Became(PaidConfirmed)), Became(PaidConfirmed), PAYMENT, 2, PaidConfirmed,
                              Some(ORDER))
  const LATE_ANSWER := PaymentView(PAYMENT, Some(ORDER), Waiting, 1)

  /** The creation answer bound after the paid event: the order goes back to waiting and stays there
      however often the paid event is delivered again. */
  lemma LateBindLosesPaidStatus()
    ensures var acts := [Reserving(ORDER, "key-1", 0), Receiving(PAID_NOTICE, 1),
                         Binding(ORDER, LATE_ANSWER, DEFAULT_CHECKOUT_BASE, 2), Receiving(PAID_NOTICE, 3)];
      var b := Play(Books(map[], map[]), acts);
      ORDER in b.orders && b.orders[ORDER].status == Some(Waiting) && b.orders[ORDER].version == Some(1)
  {
    var b0 := Books(map[], map[]);
    var a1, a2 := Reserving(ORDER, "key-1", 0), Receiving(PAID_NOTICE, 1);
    var a3, a4 := Binding(ORDER, LATE_ANSWER, DEFAULT_CHECKOUT_BASE, 2), Receiving(PAID_NOTICE, 3);
    var b1 := Perform(b0, a1);
    assert b1.orders == map[ORDER := Order("key-1", None, None, None, None, 0)];
    assert !Bound(b1.orders, PAYMENT) && Addressee(b1, PAID_NOTICE) == Some(ORDER);
    var b2 := Perform(b1, a2);
    assert b2.orders[ORDER].paymentId == Some(PAYMENT) && PAID_NOTICE.eventId in b2.seen;
    var b3 := Perform(b2, a3);
    assert b3.orders[ORDER].paymentId == Some(PAYMENT) && b3.seen == b2.seen;
    assert Bound(b3.orders, PAYMENT) && b3.orders.Keys == {ORDER};
    assert Addressee(b3, PAID_NOTICE) == Some(ORDER);
    assert Perform(b3, a4) == b3;
    PlayFour(b0, a1, a2, a3, a4);
  }

  lemma PlayFour(b: Books, a1: Act, a2: Act, a3: Act, a4: Act)
    ensures Play(b, [a1, a2, a3, a4]) == Perform(Perform(Perform(Perform(b, a1), a2), a3), a4)
  {
    assert [a1, a2, a3, a4][1..] == [a2, a3, a4] && [a2, a3, a4][1..] == [a3, a4];
    assert [a3, a4][1..] == [a4] && [a4][1..] == [];
    var b2 := Perform(Perform(b, a1), a2);
    assert Play(Perform(b2, a3), [a4]) == Perform(Perform(b2, a3), a4);
    assert Play(b2, [a3, a4]) == Perform(Perform(b2, a3), a4);
  }
}
