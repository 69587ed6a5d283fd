/**
 From the store to the merchant (backend/app/services/payment_store.py to
 backend/examples/reference_merchant.py): what the platform sends about a payment tells one story, and a
 merchant who hears the last event of it, at least once and in any order, agrees with the store.
 */
module EndToEnd {
  import opened Text
  import opened Wrappers
  import opened PaymentState
  import opened PaymentTables
  import opened StoreInvariants
  import opened Creation
  import opened ReferenceMerchant
  import opened MerchantRuns

  function NoticeOf(e: Event): Notice {
    Notice(e.id, e.id.eventType, e.id.paymentId, e.id.version, e.payload.status, e.payload.reference)
  }

  function ViewOf(id: string, p: Payment): PaymentView {
    PaymentView(id, p.reference, p.status, p.version)
  }

  /** The platform's answer about a payment at the moment it had made the first `k` of its steps. */
  ghost predicate Answered(steps: seq<Step>, k: nat, merchantId: string, v: PaymentView) {
    && k <= |steps|
    && var t := Run(EMPTY_TABLES, steps[..k]);
       v.paymentId in t.payments && t.payments[v.paymentId].merchantId == merchantId
       && v == ViewOf(v.paymentId, t.payments[v.paymentId])
  }

  /** The platform stored this notice as one of the merchant's events. */
  ghost predicate Logged(events: seq<Event>, merchantId: string, n: Notice) {
    exists i :: 0 <= i < |events| && events[i].merchantId == merchantId && n == NoticeOf(events[i])
  }

  /** Everything the merchant hears comes from the platform: a stored event of its own, however late or
      often, or the answer about one of its payments at any moment of the platform's run. */
  ghost predicate Sent(steps: seq<Step>, merchantId: string, a: Act) {
    match a
    case Reserving(_, _, _) => true
    case Binding(_, v, _, _) => exists k :: Answered(steps, k, merchantId, v)
    case Receiving(n, _) => Logged(Run(EMPTY_TABLES, steps).events, merchantId, n)
  }

  // ---------- The log tells one story ----------

  lemma {:induction false} InLog(events: seq<Event>, i: nat) returns (j: nat)
    requires i < |events|
    ensures j < |LogOf(events, events[i].id.paymentId)| && LogOf(events, events[i].id.paymentId)[j] == events[i]
    decreases |events|
  {
    var n := |events| - 1;
    var front := events[..n];
    if i == n {
      j := |LogOf(front, events[i].id.paymentId)|;
    } else {
      assert front[i] == events[i];
      j := InLog(front, i);
    }
  }

  lemma {:induction false} SameReference(log: seq<Event>, id: string, p: Payment, i: nat)
    requires History(log, id, p) && i < |log|
    ensures log[i].payload.reference == p.reference
    decreases i
  {
    if i > 0 {
      SameReference(log, id, p, i - 1);
      assert Moved(log[i - 1].payload, log[i].payload);
    }
  }

  ghost function StoryOf(t: Tables, id: string): Story
    requires id in t.payments && t.payments[id].reference.Some?
  {
    var log := LogOf(t.events, id);
    Story(t.payments[id].reference.value, id, v => if 1 <= v <= |log| then log[v - 1].payload.status else Waiting)
  }

  /** A stored event names a stored payment of its merchant, carries its reference, and gives the status
      of one of its versions. */
  lemma EventFacts(t: Tables, i: nat) returns (j: nat)
    requires Sound(t) && i < |t.events|
    ensures var e := t.events[i];
      && e.id.paymentId in t.payments && e.merchantId == t.payments[e.id.paymentId].merchantId
      && e.payload.reference == t.payments[e.id.paymentId].reference
      && 1 <= e.id.version <= t.payments[e.id.paymentId].version
      && j < |LogOf(t.events, e.id.paymentId)| && j == e.id.version - 1
      && LogOf(t.events, e.id.paymentId)[j] == e
  {
    var id := t.events[i].id.paymentId;
    j := InLog(t.events, i);
    assert if id in t.payments then History(LogOf(t.events, id), id, t.payments[id]) else LogOf(t.events, id) == [];
    SameReference(LogOf(t.events, id), id, t.payments[id], j);
  }

  lemma LoggedIsGenuine(t: Tables, id: string, n: Notice, at: int)
    requires Sound(t) && id in t.payments && t.payments[id].reference.Some?
    requires Logged(t.events, t.payments[id].merchantId, n)
    ensures StoryOf(t, id).Genuine(Receiving(n, at))
    ensures n.paymentId == id ==> 1 <= n.version <= t.payments[id].version
  {
    var i :| 0 <= i < |t.events| && t.events[i].merchantId == t.payments[id].merchantId && n == NoticeOf(t.events[i]);
    var j := EventFacts(t, i);
    assert ReferencesUnique(t.payments);
  }

  lemma AnsweredIsGenuine(steps: seq<Step>, k: nat, id: string, o: string, v: PaymentView, base: Url, at: int)
    requires var t := Run(EMPTY_TABLES, steps);
      && id in t.payments && t.payments[id].reference.Some?
      && Answered(steps, k, t.payments[id].merchantId, v)
    ensures StoryOf(Run(EMPTY_TABLES, steps), id).Genuine(Binding(o, v, base, at))
    ensures v.paymentId == id ==> 1 <= v.version <= Run(EMPTY_TABLES, steps).payments[id].version
  {
    var q := v.paymentId;
    var t1, t := Run(EMPTY_TABLES, steps[..k]), Run(EMPTY_TABLES, steps);
    EventLogEqualsState(steps[..k], steps[k..]);
    assert steps[..k] + steps[k..] == steps;
    EmptySound();
    RunSound(EMPTY_TABLES, steps);
    RunConcat(EMPTY_TABLES, steps[..k], steps[k..]);
    RunPersists(t1, steps[k..]);
    assert ReferencesUnique(t.payments);
    assert SameTerms(t1.payments[q], t.payments[q]);
    var log1, log := LogOf(t1.events, q), LogOf(t.events, q);
    assert History(log1, q, t1.payments[q]) && log1 <= log;
    assert log[|log1| - 1] == log1[|log1| - 1];
  }

  lemma SentIsGenuine(steps: seq<Step>, id: string, a: Act)
    requires var t := Run(EMPTY_TABLES, steps);
      id in t.payments && t.payments[id].reference.Some? && Sent(steps, t.payments[id].merchantId, a)
    ensures var t := Run(EMPTY_TABLES, steps);
      && StoryOf(t, id).Genuine(a)
      && (StoryOf(t, id).Brings(a).Some? ==> StoryOf(t, id).Brings(a).value <= t.payments[id].version)
  {
    var t := Run(EMPTY_TABLES, steps);
    match a
    case Reserving(_, _, _) =>
    case Binding(o, v, base, at) =>
      var k :| Answered(steps, k, t.payments[id].merchantId, v);
      AnsweredIsGenuine(steps, k, id, o, v, base, at);
    case Receiving(n, at) =>
      EmptySound();
      RunSound(EMPTY_TABLES, steps);
      LoggedIsGenuine(t, id, n, at);
  }

  // ---------- End to end ----------

  const EMPTY_BOOKS := Books(map[], map[])

  /** After `early`, the act `reserve` is the one that reserves the order. */
  ghost predicate Reserves(early: seq<Act>, reserve: Act, orderId: string) {
    && orderId !in Play(EMPTY_BOOKS, early).orders
    && orderId in Perform(Play(EMPTY_BOOKS, early), reserve).orders
  }

  ghost predicate AtMost(s: Story, acts: seq<Act>, version: int) {
    forall i :: 0 <= i < |acts| && s.Brings(acts[i]).Some? ==> s.Brings(acts[i]).value <= version
  }

  lemma FirstReserved(s: Story, early: seq<Act>, reserve: Act)
    requires s.WellFormed() && AllGenuine(s, early) && s.Genuine(reserve) && Reserves(early, reserve, s.orderId)
    ensures var b := Perform(Play(EMPTY_BOOKS, early), reserve);
      s.Tracks(b) && b.orders[s.orderId].version == None
  {
    assert s.Unheard(EMPTY_BOOKS);
    EarlyRunLeavesNoTrace(s, EMPTY_BOOKS, early);
    EarlyActLeavesNoTrace(s, Play(EMPTY_BOOKS, early), reserve);
  }

  lemma HighestHeard(s: Story, late: seq<Act>, last: nat, version: int)
    requires AtMost(s, late, version) && last < |late| && s.Brings(late[last]) == Some(version)
    ensures Highest(s, None, late) == Some(version)
  {
    HighestMeaning(s, None, late);
  }

  /** A reserved order that then hears the highest version ends there. */
  lemma HeardLastVersion(s: Story, b: Books, late: seq<Act>, last: nat, version: int)
    requires s.WellFormed() && s.Tracks(b) && b.orders[s.orderId].version == None
    requires AllGenuine(s, late) && AtMost(s, late, version) && s.Steady(b, late)
    requires last < |late| && s.Brings(late[last]) == Some(version)
    ensures s.Tracks(Play(b, late)) && Play(b, late).orders[s.orderId].version == Some(version)
  {
    MerchantConverges(s, b, late);
    HighestHeard(s, late, last, version);
  }

  ghost predicate AllSent(steps: seq<Step>, merchantId: string, acts: seq<Act>) {
    forall i :: 0 <= i < |acts| ==> Sent(steps, merchantId, acts[i])
  }

  lemma AllSentGenuine(steps: seq<Step>, id: string, acts: seq<Act>)
    requires var t := Run(EMPTY_TABLES, steps);
      id in t.payments && t.payments[id].reference.Some? && AllSent(steps, t.payments[id].merchantId, acts)
    ensures var t := Run(EMPTY_TABLES, steps);
      AllGenuine(StoryOf(t, id), acts) && AtMost(StoryOf(t, id), acts, t.payments[id].version)
  {
    forall i | 0 <= i < |acts|
      ensures var t := Run(EMPTY_TABLES, steps);
        && StoryOf(t, id).Genuine(acts[i])
        && (StoryOf(t, id).Brings(acts[i]).Some? ==>
              StoryOf(t, id).Brings(acts[i]).value <= t.payments[id].version)
    {
      SentIsGenuine(steps, id, acts[i]);
    }
  }

  /** For any interleaving of the platform's steps and any reordering, repetition or loss of what it
      sends: if the event of the payment's current version reaches the merchant at least once after the
      order was reserved, and no later bind regresses, the order ends with the payment's status and version. */
  lemma MerchantAgreesWithStore(steps: seq<Step>, id: string, early: seq<Act>, reserve: Act, late: seq<Act>, last: nat)
    requires id in Run(EMPTY_TABLES, steps).payments
    requires var p := Run(EMPTY_TABLES, steps).payments[id];
      && p.reference.Some? && ValidReference(p.reference.value) && ValidPaymentId(id)
      && AllSent(steps, p.merchantId, early) && Sent(steps, p.merchantId, reserve) && AllSent(steps, p.merchantId, late)
      && Reserves(early, reserve, p.reference.value)
      && last < |late| && late[last].Receiving? && late[last].n.paymentId == id && late[last].n.version == p.version
    requires StoryOf(Run(EMPTY_TABLES, steps), id).Steady(Perform(Play(EMPTY_BOOKS, early), reserve), late)
    ensures var p, b := Run(EMPTY_TABLES, steps).payments[id], Play(EMPTY_BOOKS, early + [reserve] + late);
      && p.reference.value in b.orders
      && var order := b.orders[p.reference.value];
         order.paymentId == Some(id) && order.version == Some(p.version) && order.status == Some(p.status)
  {
    var t := Run(EMPTY_TABLES, steps);
    AllSentGenuine(steps, id, early);
    SentIsGenuine(steps, id, reserve);
    AllSentGenuine(steps, id, late);
    FirstReserved(StoryOf(t, id), early, reserve);
    var b := Perform(Play(EMPTY_BOOKS, early), reserve);
    HeardLastVersion(StoryOf(t, id), b, late, last, t.payments[id].version);
    CurrentStatus(steps, id);
    PlayConcat(EMPTY_BOOKS, early, reserve, late);
  }

  lemma CurrentStatus(steps: seq<Step>, id: string)
    requires var t := Run(EMPTY_TABLES, steps); id in t.payments && t.payments[id].reference.Some?
    ensures var t := Run(EMPTY_TABLES, steps); StoryOf(t, id).says(t.payments[id].version) == t.payments[id].status
  {
    EventLogEqualsState(steps, []);
    var t := Run(EMPTY_TABLES, steps);
    assert History(LogOf(t.events, id), id, t.payments[id]);
  }

  lemma {:induction false} PlayConcat(b: Books, early: seq<Act>, a: Act, late: seq<Act>)
    ensures Play(b, early + [a] + late) == Play(Perform(Play(b, early), a), late)
    decreases |early|
  {
    var acts := early + [a] + late;
    if early == [] {
      assert acts[1..] == late;
    } else {
      assert acts[1..] == early[1..] + [a] + late;
      PlayConcat(Perform(b, early[0]), early[1..], a, late);
    }
  }
}
