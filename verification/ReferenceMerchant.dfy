/**
 The merchant's side (backend/examples/reference_merchant.py): orders reserved before payment, bound to
 a payment by the API's answer or by a verified webhook event, and moved forward by payment version.
 */
module ReferenceMerchant {
  import opened Text
  import opened Wrappers
  import opened PaymentState
  import opened PaymentTables

  /** A URL as text and as `urlparse` takes it apart. */
  datatype Url = Url(text: string, scheme: string, hostname: Option<string>, username: Option<string>,
                     password: Option<string>, query: string, fragment: string)

  const DEFAULT_CHECKOUT_BASE :=
    Url("https://pay.pepepow.net/", "https", Some("pay.pepepow.net"), None, None, "", "")

  datatype Order = Order(idempotencyKey: string, paymentId: Option<string>, status: Option<Status>,
                         version: Option<int>, checkoutUrl: Option<string>, updatedAt: int)

  datatype Receipt = Receipt(paymentId: string, version: int, eventType: EventType, receivedAt: int)

  /** The two tables of the merchant's database. */
  datatype Books = Books(orders: map<string, Order>, seen: map<EventId, Receipt>)

  /** A webhook event whose signature has been verified. */
  datatype Notice = Notice(eventId: EventId, eventType: EventType, paymentId: string, version: int, status: Status,
                           reference: Option<string>)

  /** What the API answers about a payment. */
  datatype PaymentView = PaymentView(paymentId: string, reference: Option<string>, status: Status, version: int)

  datatype Verdict = Applied | Duplicate | Stale

  datatype MerchantError =
    | InvalidReference
    | InvalidKey
    | InvalidPaymentId
    | InvalidCheckoutBase
    | KeyConflict
    | UnknownOrder
    | ReferenceMismatch
    | PaymentConflict
    | UniqueViolation

  datatype Reply<+T> = Reply(books: Books, result: Result<T, MerchantError>)

  // ---------- Formats ----------

  predicate ValidKey(s: string) {
    ValidToken(s, "._:-")
  }

  predicate ValidPaymentId(s: string) {
    "pay_" <= s && 12 <= |s| <= 96 && forall i :: 4 <= i < |s| ==> Alphanumeric(s[i]) || s[i] in "_-"
  }

  /** An HTTPS URL with a host and without credentials, query or fragment. */
  predicate ValidOrigin(base: Url) {
    && base.scheme == "https" && base.hostname.Some? && base.hostname.value != ""
    && base.username.None? && base.password.None? && base.query == "" && base.fragment == ""
  }

  function WithoutSlashes(s: string): (r: string)
    ensures r <= s && (r == "" || r[|r| - 1] != '/')
  {
    if s != "" && s[|s| - 1] == '/' then WithoutSlashes(s[..|s| - 1]) else s
  }

  function CheckoutUrl(base: Url, paymentId: string): string {
    WithoutSlashes(base.text) + "/?payment_id=" + paymentId
  }

  // ---------- Specification ----------

  /** The UNIQUE constraints on orders. */
  ghost predicate Unique(orders: map<string, Order>) {
    && (forall a, b | a in orders && b in orders && orders[a].idempotencyKey == orders[b].idempotencyKey :: a == b)
    && (forall a, b | a in orders && b in orders && orders[a].paymentId == orders[b].paymentId
                      && orders[a].paymentId.Some? :: a == b)
  }

  predicate KeyUsed(orders: map<string, Order>, key: string) {
    exists id :: id in orders && orders[id].idempotencyKey == key
  }

  predicate Bound(orders: map<string, Order>, paymentId: string) {
    exists id :: id in orders && orders[id].paymentId == Some(paymentId)
  }

  function Reserve(b: Books, orderId: string, key: string, at: int): Reply<Order> {
    if !ValidReference(orderId) then Reply(b, Err(InvalidReference))
    else if !ValidKey(key) then Reply(b, Err(InvalidKey))
    else if orderId in b.orders then
      if b.orders[orderId].idempotencyKey != key then Reply(b, Err(KeyConflict))
      else Reply(b, Ok(b.orders[orderId]))
    else if KeyUsed(b.orders, key) then Reply(b, Err(UniqueViolation))
    else
      var order := Order(key, None, None, None, None, at);
      Reply(b.(orders := b.orders[orderId := order]), Ok(order))
  }

  /** Binding writes the answer's status and version whatever the order holds. */
  function Bind(b: Books, orderId: string, p: PaymentView, base: Url, at: int): Reply<Order> {
    if !ValidReference(orderId) then Reply(b, Err(InvalidReference))
    else if p.reference != Some(orderId) then Reply(b, Err(ReferenceMismatch))
    else if !ValidPaymentId(p.paymentId) then Reply(b, Err(InvalidPaymentId))
    else if !ValidOrigin(base) then Reply(b, Err(InvalidCheckoutBase))
    else if orderId !in b.orders then Reply(b, Err(UnknownOrder))
    else if b.orders[orderId].paymentId !in {None, Some(p.paymentId)} then Reply(b, Err(PaymentConflict))
    else if b.orders[orderId].paymentId == None && Bound(b.orders, p.paymentId) then Reply(b, Err(UniqueViolation))
    else
      var order := b.orders[orderId].(paymentId := Some(p.paymentId), status := Some(p.status),
                                      version := Some(p.version),
                                      checkoutUrl := Some(CheckoutUrl(base, p.paymentId)), updatedAt := at);
      Reply(b.(orders := b.orders[orderId := order]), Ok(order))
  }

  /** The order an event is about: the one holding its payment, or else the one its reference names. */
  ghost function Addressee(b: Books, n: Notice): (r: Option<string>)
    ensures r.Some? ==> r.value in b.orders
  {
    if Bound(b.orders, n.paymentId) then
      var id :| id in b.orders && b.orders[id].paymentId == Some(n.paymentId);
      Some(id)
    else if n.reference.Some? && n.reference.value in b.orders then
      n.reference
    else
      None
  }

  predicate Newer(order: Order, n: Notice) {
    order.version.None? || n.version > order.version.value
  }

  function Advanced(order: Order, n: Notice, at: int): Order {
    var url := if order.checkoutUrl.Some? then order.checkoutUrl
               else Some(CheckoutUrl(DEFAULT_CHECKOUT_BASE, n.paymentId));
    order.(paymentId := Some(n.paymentId), status := Some(n.status), version := Some(n.version),
           checkoutUrl := url, updatedAt := at)
  }

  ghost function Receive(b: Books, n: Notice, at: int): Reply<Verdict> {
    var addressee := Addressee(b, n);
    if addressee.None? then Reply(b, Err(UnknownOrder))
    else if n.reference.Some? && n.reference != addressee then Reply(b, Err(ReferenceMismatch))
    else if b.orders[addressee.value].paymentId !in {None, Some(n.paymentId)} then Reply(b, Err(PaymentConflict))
    else if n.eventId in b.seen then Reply(b, Ok(Duplicate))
    else
      var order := b.orders[addressee.value];
      var seen := b.seen[n.eventId := Receipt(n.paymentId, n.version, n.eventType, at)];
      if !Newer(order, n) then Reply(Books(b.orders, seen), Ok(Stale))
      else if !ValidPaymentId(n.paymentId) then Reply(b, Err(InvalidPaymentId))
      else Reply(Books(b.orders[addressee.value := Advanced(order, n, at)], seen), Ok(Applied))
  }

  // ---------- The store ----------

  class ReferenceMerchantStore {
    var orders: map<string, Order>
    var seen: map<EventId, Receipt>

    ghost function View(): Books
      reads this
    {
      Books(orders, seen)
    }

    ghost predicate Valid()
      reads this
    {
      Unique(orders)
    }

    constructor ()
      ensures Valid() && View() == Books(map[], map[])
    {
      orders, seen := map[], map[];
    }

    method ReserveOrder(orderId: string, key: string, now: int) returns (r: Result<Order, MerchantError>)
      requires Valid()
      modifies this
      ensures Valid() && Reply(View(), r) == Reserve(old(View()), orderId, key, now)
    {
      if !ValidReference(orderId) {
        return Err(InvalidReference);
      }
      if !ValidKey(key) {
        return Err(InvalidKey);
      }
      if orderId !in orders {
        if KeyUsed(orders, key) {
          return Err(UniqueViolation);
        }
        orders := orders[orderId := Order(key, None, None, None, None, now)];
      } else if orders[orderId].idempotencyKey != key {
        return Err(KeyConflict);
      }
      return Ok(orders[orderId]);
    }

    method BindPayment(orderId: string, p: PaymentView, base: Url, now: int)
      returns (r: Result<Order, MerchantError>)
      requires Valid()
      modifies this
      ensures Valid() && Reply(View(), r) == Bind(old(View()), orderId, p, base, now)
    {
      if !ValidReference(orderId) {
        return Err(InvalidReference);
      }
      if p.reference != Some(orderId) {
        return Err(ReferenceMismatch);
      }
      if !ValidPaymentId(p.paymentId) {
        return Err(InvalidPaymentId);
      }
      if !ValidOrigin(base) {
        return Err(InvalidCheckoutBase);
      }
      var url := CheckoutUrl(base, p.paymentId);
      if orderId !in orders {
        return Err(UnknownOrder);
      }
      var order := orders[orderId];
      if order.paymentId != None && order.paymentId != Some(p.paymentId) {
        return Err(PaymentConflict);
      }
      if order.paymentId == None && Bound(orders, p.paymentId) {
        return Err(UniqueViolation);
      }
      orders := orders[orderId := order.(paymentId := Some(p.paymentId), status := Some(p.status),
                                         version := Some(p.version), checkoutUrl := Some(url), updatedAt := now)];
      return Ok(orders[orderId]);
    }

    /** The order an event is about, looked up by payment and then by reference. */
    method FindOrder(n: Notice) returns (found: Option<string>)
      requires Valid()
      ensures found == Addressee(View(), n)
    {
      if Bound(orders, n.paymentId) {
        var id :| id in orders && orders[id].paymentId == Some(n.paymentId);
        return Some(id);
      }
      if n.reference.Some? && n.reference.value in orders {
        return n.reference;
      }
      return None;
    }

    /** One transaction: the event is recorded first and the record is rolled back with everything else
        if the update raises. */
    method ApplyVerifiedEvent(n: Notice, receivedAt: int) returns (r: Result<Verdict, MerchantError>)
      requires Valid()
      modifies this
      ensures Valid() && Reply(View(), r) == Receive(old(View()), n, receivedAt)
    {
      var found := FindOrder(n);
      if found.None? {
        return Err(UnknownOrder);
      }
      var order := orders[found.value];
      if n.reference.Some? && n.reference != found {
        return Err(ReferenceMismatch);
      }
      if order.paymentId != None && order.paymentId != Some(n.paymentId) {
        return Err(PaymentConflict);
      }
      if n.eventId in seen {
        return Ok(Duplicate);
      }
      var before := seen;
      seen := seen[n.eventId := Receipt(n.paymentId, n.version, n.eventType, receivedAt)];
      if order.version.Some? && n.version <= order.version.value {
        return Ok(Stale);
      }
      if !ValidPaymentId(n.paymentId) {
        seen := before;
        return Err(InvalidPaymentId);
      }
      orders := orders[found.value := Advanced(order, n, receivedAt)];
      return Ok(Applied);
    }
  }

  // ---------- What each call does ----------

  /** An order is reserved under a key no other order has, or again under its own key, which changes nothing; what
      is refused changes nothing either. */
  lemma ReserveMeaning(b: Books, orderId: string, key: string, at: int)
    ensures var r := Reserve(b, orderId, key, at);
      if !ValidReference(orderId) then r == Reply(b, Err(InvalidReference))
      else if !ValidKey(key) then r == Reply(b, Err(InvalidKey))
      else if orderId in b.orders then
        r == Reply(b, if b.orders[orderId].idempotencyKey == key then Ok(b.orders[orderId]) else Err(KeyConflict))
      else if exists o :: o in b.orders && b.orders[o].idempotencyKey == key then r == Reply(b, Err(UniqueViolation))
      else
        && r.books.orders.Keys == b.orders.Keys + {orderId} && SameBut(b, r.books, orderId)
        && var order := r.books.orders[orderId];
           && r.result == Ok(order) && order.idempotencyKey == key && order.paymentId == None && order.status == None
           && order.version == None && order.checkoutUrl == None && order.updatedAt == at
  {
  }

  ghost predicate SameBut(b: Books, b': Books, orderId: string) {
    b'.seen == b.seen && forall o :: o in b.orders && o != orderId ==> o in b'.orders && b'.orders[o] == b.orders[o]
  }

  predicate HttpsOrigin(base: Url) {
    && base.scheme == "https" && base.hostname != None && base.hostname.value != ""
    && base.username == None && base.password == None && base.query == "" && base.fragment == ""
  }

  /** An answer about a payment is bound to the order its reference names, whatever version the order already has,
      unless that order holds another payment or another order holds this one; what is refused changes nothing. */
  lemma BindMeaning(b: Books, orderId: string, p: PaymentView, base: Url, at: int)
    ensures var r := Bind(b, orderId, p, base, at);
      if !ValidReference(orderId) then r == Reply(b, Err(InvalidReference))
      else if p.reference == None || p.reference.value != orderId then r == Reply(b, Err(ReferenceMismatch))
      else if !ValidPaymentId(p.paymentId) then r == Reply(b, Err(InvalidPaymentId))
      else if !HttpsOrigin(base) then r == Reply(b, Err(InvalidCheckoutBase))
      else if orderId !in b.orders then r == Reply(b, Err(UnknownOrder))
      else if b.orders[orderId].paymentId != None && b.orders[orderId].paymentId != Some(p.paymentId) then
        r == Reply(b, Err(PaymentConflict))
      else if exists o :: o in b.orders && o != orderId && b.orders[orderId].paymentId == None
                          && b.orders[o].paymentId == Some(p.paymentId) then r == Reply(b, Err(UniqueViolation))
      else
        && r.books.orders.Keys == b.orders.Keys && SameBut(b, r.books, orderId)
        && var order := r.books.orders[orderId];
           && r.result == Ok(order) && order.idempotencyKey == b.orders[orderId].idempotencyKey
           && order.paymentId == Some(p.paymentId) && order.status == Some(p.status) && order.version == Some(p.version)
           && order.updatedAt == at && order.checkoutUrl == Some(CheckoutUrl(base, p.paymentId))
  {
  }

  /** The order an event is about: it holds the event's payment, or no order does and it is the one named. */
  ghost predicate About(b: Books, n: Notice, orderId: string) {
    && orderId in b.orders
    && (|| b.orders[orderId].paymentId == Some(n.paymentId)
        || ((forall o :: o in b.orders ==> b.orders[o].paymentId != Some(n.paymentId)) && n.reference == Some(orderId)))
  }

  lemma AboutAddressee(b: Books, n: Notice, orderId: string)
    requires Unique(b.orders) && About(b, n, orderId)
    ensures Addressee(b, n) == Some(orderId)
  {
  }

  /** Unless its reference names another order or the order holds another payment, an event about an order is a
      duplicate if it was recorded before; otherwise it is recorded, and if it is newer than the order's version it
      replaces payment, status and version, keeping a checkout URL the order has. An event that is refused leaves
      no record. */
  lemma ReceiveMeaning(b: Books, n: Notice, at: int, orderId: string)
    requires Unique(b.orders) && About(b, n, orderId)
    ensures var r, order := Receive(b, n, at), b.orders[orderId];
      if n.reference != None && n.reference != Some(orderId) then r == Reply(b, Err(ReferenceMismatch))
      else if order.paymentId != None && order.paymentId != Some(n.paymentId) then r == Reply(b, Err(PaymentConflict))
      else if n.eventId in b.seen then r == Reply(b, Ok(Duplicate))
      else if order.version.Some? && n.version <= order.version.value then
        r.result == Ok(Stale) && r.books.orders == b.orders && Recorded(b, r.books, n, at)
      else if !ValidPaymentId(n.paymentId) then r == Reply(b, Err(InvalidPaymentId))
      else
        && r.result == Ok(Applied) && Recorded(b, r.books, n, at) && r.books.orders.Keys == b.orders.Keys
        && (forall o :: o in b.orders && o != orderId ==> r.books.orders[o] == b.orders[o])
        && var order' := r.books.orders[orderId];
           && order'.idempotencyKey == order.idempotencyKey && order'.paymentId == Some(n.paymentId)
           && order'.status == Some(n.status) && order'.version == Some(n.version) && order'.updatedAt == at
           && (order.checkoutUrl.Some? ==> order'.checkoutUrl == order.checkoutUrl)
           && (order.checkoutUrl == None ==> order'.checkoutUrl == Some("https://pay.pepepow.net/?payment_id=" + n.paymentId))
  {
    AboutAddressee(b, n, orderId);
    DefaultCheckout(n.paymentId);
  }

  lemma UnknownIsRefused(b: Books, n: Notice, at: int)
    requires forall o :: !About(b, n, o)
    ensures Receive(b, n, at) == Reply(b, Err(UnknownOrder))
  {
    if n.reference.Some? {
      assert !About(b, n, n.reference.value);
    }
    if Bound(b.orders, n.paymentId) {
      var o :| o in b.orders && b.orders[o].paymentId == Some(n.paymentId);
      assert About(b, n, o);
    }
  }

  /** The event is on record with what it said, and the other records are as they were. */
  ghost predicate Recorded(b: Books, b': Books, n: Notice, at: int) {
    && b'.seen.Keys == b.seen.Keys + {n.eventId}
    && (forall e :: e in b.seen && e != n.eventId ==> b'.seen[e] == b.seen[e])
    && var receipt := b'.seen[n.eventId];
       && receipt.paymentId == n.paymentId && receipt.version == n.version && receipt.eventType == n.eventType
       && receipt.receivedAt == at
  }

  /** A checkout URL is the base without the slashes at its end, and the payment id as the only parameter. */
  lemma {:induction false} CheckoutMeaning(base: Url, stem: string, slashes: nat, paymentId: string)
    requires base.text == stem + seq(slashes, _ => '/') && (stem == "" || stem[|stem| - 1] != '/')
    ensures CheckoutUrl(base, paymentId) == stem + "/?payment_id=" + paymentId
    decreases slashes
  {
    if slashes == 0 {
      assert base.text == stem;
    } else {
      var shorter := base.(text := stem + seq(slashes - 1, _ => '/'));
      assert base.text[..|base.text| - 1] == shorter.text && base.text[|base.text| - 1] == '/';
      CheckoutMeaning(shorter, stem, slashes - 1, paymentId);
    }
  }

  lemma DefaultCheckout(paymentId: string)
    ensures CheckoutUrl(DEFAULT_CHECKOUT_BASE, paymentId) == "https://pay.pepepow.net/?payment_id=" + paymentId
  {
    var stem := "https://pay.pepepow.net";
    assert DEFAULT_CHECKOUT_BASE.text == stem + seq(1, _ => '/');
    CheckoutMeaning(DEFAULT_CHECKOUT_BASE, stem, 1, paymentId);
    assert stem + "/?payment_id=" == "https://pay.pepepow.net/?payment_id=";
  }

  /** A payment id is pay_ and 8 to 92 letters, digits, underscores and hyphens. */
  lemma PaymentIdMeaning(s: string)
    ensures ValidPaymentId(s) <==>
              && 12 <= |s| <= 96 && s[..4] == "pay_"
              && forall i :: 4 <= i < |s| ==> s[i] in LETTERS_AND_DIGITS || s[i] in {'_', '-'}
  {
    assert forall c: char :: c in "_-" <==> c in {'_', '-'};
    forall c: char
      ensures Alphanumeric(c) <==> c in LETTERS_AND_DIGITS
    {
      LettersAndDigits(c);
    }
  }

  /** A key is 1 to 128 letters, digits and other characters of `._:-`, the first a letter or a digit. */
  lemma KeyMeaning(s: string)
    ensures ValidKey(s) <==>
              && 1 <= |s| <= 128 && s[0] in LETTERS_AND_DIGITS
              && forall i :: 0 <= i < |s| ==> s[i] in LETTERS_AND_DIGITS || s[i] in "._:-"
  {
    TokenMeaning(s, "._:-");
  }
}
