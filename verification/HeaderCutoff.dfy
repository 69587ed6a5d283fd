/**
 Payments that a header's list cuts off (backend/app/services/payment_watcher.py, payment_store.py): which
 they are, and that enough paid payments keep an invoice cut off from every later header.
 */
module HeaderCutoff {
  import opened Counting
  import opened Wrappers
  import opened PaymentState
  import opened PaymentTables
  import opened StoreInvariants
  import opened Creation
  import opened PaymentRows
  import opened Expiry
  import opened PaymentWatcher
  import opened Reconciliation
  import opened ReconcileTwice
  import opened HeaderRefresh
  import opened HeaderRuns
  import opened Samples

  // ---------- Who is listed ----------

  /** The refreshable payments updated no earlier than this one, itself among them. */
  ghost function AsRecent(t: Tables, id: string, now: int): set<string>
    requires id in t.payments
  {
    set q | q in t.payments && Refreshable(t, q, now) && t.payments[q].updatedAt >= t.payments[id].updatedAt
  }

  ghost function MoreRecent(t: Tables, id: string, now: int): set<string>
    requires id in t.payments
  {
    set q | q in t.payments && Refreshable(t, q, now) && t.payments[q].updatedAt > t.payments[id].updatedAt
  }

  /** A refreshable payment is listed if no more than the limit were updated as recently, and cut off if the
      limit or more were updated more recently. In between, the limit falls among ties. */
  lemma ListedOrCutOff(t: Tables, now: int, bound: nat, ids: seq<string>, id: string)
    requires ListsRefreshable(t, now, bound, ids) && Refreshable(t, id, now)
    ensures |AsRecent(t, id, now)| <= bound ==> id in ids
    ensures |MoreRecent(t, id, now)| >= bound ==> id !in ids
  {
    DistinctCount(ids);
    if id !in ids {
      assert SetOf(ids) <= AsRecent(t, id, now);
      StrictlyLarger(SetOf(ids), AsRecent(t, id, now), id);
    } else {
      assert MoreRecent(t, id, now) <= SetOf(ids) by {
        assert forall q :: q in MoreRecent(t, id, now) ==> q in ids;
      }
      StrictlyLarger(MoreRecent(t, id, now), SetOf(ids), id);
    }
  }

  // ---------- A crowd of paid payments ----------

  /** Paid in full by its recorded outputs, so that no refresh expires it. */
  ghost predicate PaidUp(t: Tables, id: string) {
    && id in t.payments && t.payments[id].status != Expired && RowsOf(t, id) != map[]
    && Total(Counted(RowsOf(t, id), t.payments[id].Window()), Received) >= t.payments[id].amount
  }

  /** The paid payments updated more recently than this one. */
  ghost function Crowd(t: Tables, id: string): set<string>
    requires id in t.payments
  {
    set q | q in t.payments && PaidUp(t, q) && t.payments[q].updatedAt > t.payments[id].updatedAt
  }

  /** The payment is as it was, and the crowd is still there. */
  ghost predicate Unmoved(t: Tables, u: Tables, id: string)
    requires id in t.payments
  {
    && RowsSound(u) && id in u.payments && u.payments[id] == t.payments[id] && RowsOf(u, id) == RowsOf(t, id)
    && Crowd(t, id) <= Crowd(u, id)
  }

  /** A write that touches no rows, does not refresh this payment, and is not dated back to its last update. */
  predicate PassesBy(s: Step, id: string, since: int) {
    !RowStep(s) && (s.Refresh? ==> s.paymentId != id && s.at > since)
  }

  lemma StepKeepsCrowd(t: Tables, s: Step, id: string)
    requires RowsSound(t) && id in t.payments && PassesBy(s, id, t.payments[id].updatedAt)
    ensures Unmoved(t, Apply(t, s), id)
  {
    StepKeepsRows(t, s);
    LeftAlone(t, s, id);
    forall q | q in Crowd(t, id)
      ensures q in Crowd(Apply(t, s), id)
    {
      if s.Refresh? && s.paymentId == q {
        RefreshKeepsPaid(t, q, s.at);
      } else {
        LeftAlone(t, s, q);
      }
    }
  }

  lemma RefreshKeepsPaid(t: Tables, id: string, at: int)
    requires RowsSound(t) && PaidUp(t, id)
    ensures var u := RefreshPayment(t, id, at).tables;
      && PaidUp(u, id) && (u.payments[id].updatedAt == t.payments[id].updatedAt || u.payments[id].updatedAt == at)
  {
    PaidIsNotExpired(t, id, at);
    RefreshSucceeds(t, id, at);
    RefreshStores(t, id, at);
    RefreshAnatomy(t, id, at);
    assert RowsOf(RefreshPayment(t, id, at).tables, id) == RowsOf(t, id);
  }

  lemma {:induction false} RunKeepsCrowd(t: Tables, steps: seq<Step>, id: string)
    requires RowsSound(t) && id in t.payments && forall s :: s in steps ==> PassesBy(s, id, t.payments[id].updatedAt)
    ensures Unmoved(t, Run(t, steps), id)
    decreases |steps|
  {
    if steps != [] {
      assert steps[0] in steps;
      StepKeepsCrowd(t, steps[0], id);
      RunKeepsCrowd(Apply(t, steps[0]), steps[1..], id);
    }
  }

  /** Other writes, then a header as the watcher applies it with nobody in between. */
  datatype Round = Round(writes: seq<Step>, height: int, hash: Option<string>, at: int, ids: seq<string>)

  function RoundSteps(r: Round): seq<Step> {
    r.writes + [SetTip(r.height, r.hash, r.at)] + RefreshSteps(r.ids, r.at)
  }

  /** The header lists what the store gives it; the other writes pass this payment by. */
  ghost predicate Proper(t: Tables, r: Round, bound: nat, id: string, since: int) {
    && r.height >= 0 && r.at > since && (forall s :: s in r.writes ==> PassesBy(s, id, since))
    && ListsRefreshable(SetChainTip(Run(t, r.writes), r.height, r.hash, r.at).tables, r.at, bound, r.ids)
  }

  ghost predicate AllProper(t: Tables, rounds: seq<Round>, bound: nat, id: string, since: int)
    decreases |rounds|
  {
    rounds == [] ||
    (Proper(t, rounds[0], bound, id, since) && AllProper(Run(t, RoundSteps(rounds[0])), rounds[1..], bound, id, since))
  }

  ghost function AfterRounds(t: Tables, rounds: seq<Round>): Tables
    decreases |rounds|
  {
    if rounds == [] then t else AfterRounds(Run(t, RoundSteps(rounds[0])), rounds[1..])
  }

  lemma CrowdedOut(t: Tables, now: int, bound: nat, ids: seq<string>, id: string)
    requires ListsRefreshable(t, now, bound, ids) && id in t.payments && |Crowd(t, id)| >= bound
    ensures id !in ids
  {
    if id in ids {
      assert Crowd(t, id) <= MoreRecent(t, id, now);
      SubsetSize(Crowd(t, id), MoreRecent(t, id, now));
      ListedOrCutOff(t, now, bound, ids, id);
    }
  }

  lemma HeaderPassesBy(t: Tables, u: Tables, at: int, bound: nat, ids: seq<string>, id: string)
    requires id in t.payments && |Crowd(t, id)| >= bound && Unmoved(t, u, id)
    requires ListsRefreshable(u, at, bound, ids) && at > t.payments[id].updatedAt
    ensures id !in ids && Unmoved(u, Run(u, RefreshSteps(ids, at)), id)
  {
    SubsetSize(Crowd(t, id), Crowd(u, id));
    CrowdedOut(u, at, bound, ids, id);
    RunKeepsCrowd(u, RefreshSteps(ids, at), id);
  }

  lemma TipKeepsCrowd(t: Tables, r: Round, id: string)
    requires RowsSound(t) && id in t.payments && r.height >= 0
    ensures Unmoved(t, SetChainTip(t, r.height, r.hash, r.at).tables, id)
  {
    StepKeepsCrowd(t, SetTip(r.height, r.hash, r.at), id);
  }

  lemma OneRound(t: Tables, r: Round, bound: nat, id: string)
    requires RowsSound(t) && id in t.payments && |Crowd(t, id)| >= bound
    requires Proper(t, r, bound, id, t.payments[id].updatedAt)
    ensures id !in r.ids
    ensures Unmoved(t, Run(t, RoundSteps(r)), id)
  {
    var u := Run(t, r.writes);
    var v := SetChainTip(u, r.height, r.hash, r.at).tables;
    RunKeepsCrowd(t, r.writes, id);
    TipKeepsCrowd(u, r, id);
    UnmovedTwice(t, u, v, id);
    HeaderPassesBy(t, v, r.at, bound, r.ids, id);
    UnmovedTwice(t, v, Run(v, RefreshSteps(r.ids, r.at)), id);
    RoundInThree(t, r);
  }

  lemma UnmovedTwice(t: Tables, u: Tables, v: Tables, id: string)
    requires id in t.payments && Unmoved(t, u, id) && Unmoved(u, v, id)
    ensures Unmoved(t, v, id)
  {
  }

  lemma RoundInThree(t: Tables, r: Round)
    ensures Run(t, RoundSteps(r))
            == Run(SetChainTip(Run(t, r.writes), r.height, r.hash, r.at).tables, RefreshSteps(r.ids, r.at))
  {
    var tip := SetTip(r.height, r.hash, r.at);
    RunThen(t, r.writes, tip);
    RunConcat(t, r.writes + [tip], RefreshSteps(r.ids, r.at));
  }

  lemma StaysCrowded(t: Tables, r: Round, bound: nat, id: string)
    requires RowsSound(t) && id in t.payments && |Crowd(t, id)| >= bound
    requires Proper(t, r, bound, id, t.payments[id].updatedAt)
    ensures var u := Run(t, RoundSteps(r));
      && id !in r.ids && RowsSound(u) && id in u.payments && u.payments[id] == t.payments[id] && RowsOf(u, id) == RowsOf(t, id)
      && |Crowd(u, id)| >= bound
  {
    OneRound(t, r, bound, id);
    SubsetSize(Crowd(t, id), Crowd(Run(t, RoundSteps(r)), id));
  }

  /** As many more recently updated paid payments as the list may hold, and a payment is cut off from every later
      header, however many there are: no header refreshes it, and its row stays as it is. */
  lemma {:induction false} CutOffForGood(t: Tables, rounds: seq<Round>, bound: nat, id: string)
    requires RowsSound(t) && id in t.payments && |Crowd(t, id)| >= bound
    requires AllProper(t, rounds, bound, id, t.payments[id].updatedAt)
    ensures forall i :: 0 <= i < |rounds| ==> id !in rounds[i].ids
    ensures var u := AfterRounds(t, rounds);
      RowsSound(u) && id in u.payments && u.payments[id] == t.payments[id] && RowsOf(u, id) == RowsOf(t, id)
    decreases |rounds|
  {
    if rounds != [] {
      var r, u := rounds[0], Run(t, RoundSteps(rounds[0]));
      StaysCrowded(t, r, bound, id);
      CutOffForGood(u, rounds[1..], bound, id);
    }
  }

  lemma UntouchedExpires(t: Tables, id: string, now: int)
    requires RowsSound(t) && Untouched(t, id) && now > t.payments[id].expiresAt
    ensures Refreshable(t, id, now) && !CurrentButPolicy(t, id, now)
  {
    var p := t.payments[id];
    RefreshSucceeds(t, id, now);
    assert Counted(RowsOf(t, id), p.Window()) == map[];
    StatusMeaning(map[], p.amount, p.required, TipFor(t, p), Some(p.expiresAt), now);
  }

  /** So an unpaid invoice that is crowded out waits for ever, as far as headers go: past its deadline it is due
      for a refresh that would expire it, and none of them refreshes it. */
  lemma CrowdedInvoiceWaits(t: Tables, rounds: seq<Round>, bound: nat, id: string, now: int)
    requires RowsSound(t) && Untouched(t, id) && |Crowd(t, id)| >= bound && now > t.payments[id].expiresAt
    requires AllProper(t, rounds, bound, id, t.payments[id].updatedAt)
    ensures var u := AfterRounds(t, rounds);
      && id in u.payments && u.payments[id].status == Waiting
      && Refreshable(u, id, now) && !CurrentButPolicy(u, id, now)
  {
    CutOffForGood(t, rounds, bound, id);
    UntouchedExpires(AfterRounds(t, rounds), id, now);
  }

  // ---------- A reachable crowd ----------

  const SECOND := INVOICE.(paymentId := "pay_b", address := "P2", scripthash := "s2")
  const THIRD := INVOICE.(paymentId := "pay_c", address := "P3", scripthash := "s3")
  const SECOND_PAID := Observation(SAMPLE_TXID, 0, 100, 51, Some(1010))
  const THIRD_PAID := Observation(SAMPLE_TXID, 1, 100, 51, Some(1010))

  const INVOICES := [Create(INVOICE), Create(SECOND), Create(THIRD)]
  const PAYMENTS := [Upsert("pay_b", SECOND_PAID, 1010), Refresh("pay_b", 1010), Upsert("pay_c", THIRD_PAID, 1010),
                     Refresh("pay_c", 1010)]

  lemma InvoicesCreated()
    ensures var t := Run(EMPTY_TABLES, INVOICES);
      && RowsSound(t) && t.transactions == map[]
      && t.payments == map["pay_a" := NewPayment(INVOICE), "pay_b" := NewPayment(SECOND), "pay_c" := NewPayment(THIRD)]
  {
    CreatesInvoice(EMPTY_TABLES, INVOICE);
    var t1 := InsertPayment(EMPTY_TABLES, INVOICE);
    CreatesInvoice(t1, SECOND);
    var t2 := InsertPayment(t1, SECOND);
    CreatesInvoice(t2, THIRD);
    assert INVOICES == (([] + [INVOICES[0]]) + [INVOICES[1]]) + [INVOICES[2]];
    RunThen(EMPTY_TABLES, [], INVOICES[0]);
    RunThen(EMPTY_TABLES, [] + [INVOICES[0]], INVOICES[1]);
    RunThen(EMPTY_TABLES, ([] + [INVOICES[0]]) + [INVOICES[1]], INVOICES[2]);
    EmptySound();
    RunRowsSound(EMPTY_TABLES, INVOICES);
  }

  lemma CreatesInvoice(t: Tables, req: CreateRequest)
    requires req.merchantId in t.merchants && req.paymentId !in t.payments && req.address !in Addresses(t)
    requires req.key.None? && req.requestHash.None? && req.reference.None?
    requires req.amount > 0 && req.required >= 0 && req.createdHeight >= 0
    ensures Apply(t, Create(req)) == InsertPayment(t, req)
    ensures var u := InsertPayment(t, req);
      && u.payments == t.payments[req.paymentId := NewPayment(req)]
      && u.transactions == t.transactions && u.merchants == t.merchants
  {
  }

  function Addresses(t: Tables): set<string> {
    set id | id in t.payments :: t.payments[id].address
  }

  ghost predicate OnlyChanges(t: Tables, u: Tables, id: string) {
    && RowsSound(u) && u.payments.Keys == t.payments.Keys
    && forall q :: q in t.payments && q != id ==> u.payments[q] == t.payments[q] && RowsOf(u, q) == RowsOf(t, q)
  }

  /** An unpaid payment is recorded as paid in full, and refreshed. */
  lemma PaysUp(t: Tables, id: string, o: Observation, at: int)
    requires RowsSound(t) && Untouched(t, id) && o.vout >= 0 && o.value >= t.payments[id].amount
    requires InTime(o.firstSeen, t.payments[id]) && o.height > t.payments[id].createdHeight
    ensures var u := Run(t, [Upsert(id, o, at), Refresh(id, at)]);
      OnlyChanges(t, u, id) && PaidUp(u, id) && u.payments[id].updatedAt == at
  {
    var u := UpsertTransaction(t, id, o, at).tables;
    RecordsPayment(t, id, o, at);
    RefreshPaysUp(u, id, at);
    RunBoth(t, id, o, at);
    OnlyChangesTwice(t, u, RefreshPayment(u, id, at).tables, id);
  }

  lemma OnlyChangesTwice(t: Tables, u: Tables, v: Tables, id: string)
    requires OnlyChanges(t, u, id) && OnlyChanges(u, v, id)
    ensures OnlyChanges(t, v, id)
  {
  }

  lemma RecordsPayment(t: Tables, id: string, o: Observation, at: int)
    requires RowsSound(t) && Untouched(t, id) && o.vout >= 0 && o.value >= t.payments[id].amount
    requires InTime(o.firstSeen, t.payments[id]) && o.height > t.payments[id].createdHeight
    ensures var u := UpsertTransaction(t, id, o, at).tables;
      && OnlyChanges(t, u, id) && u.payments[id] == t.payments[id] && RowsOf(u, id) != map[]
      && Total(Counted(RowsOf(u, id), u.payments[id].Window()), Received) >= u.payments[id].amount
  {
    var u := UpsertTransaction(t, id, o, at).tables;
    UpsertKeepsRows(t, id, o, at);
    FirstRow(t, id, o, at);
    OneOutputPays(t.payments[id], o, at);
  }

  lemma FirstRow(t: Tables, id: string, o: Observation, at: int)
    requires id in t.payments && RowsOf(t, id) == map[] && o.vout >= 0 && o.value > 0
    ensures var u := UpsertTransaction(t, id, o, at).tables;
      && u.payments == t.payments && RowsOf(u, id) == UpsertRow(map[], o, at) != map[]
      && forall q :: q != id ==> RowsOf(u, q) == RowsOf(t, q)
  {
    assert o.Key() in UpsertRow(map[], o, at);
  }

  lemma OneOutputPays(p: Payment, o: Observation, at: int)
    requires p.createdHeight >= 0 && InTime(o.firstSeen, p) && o.height > p.createdHeight
    ensures Total(Counted(UpsertRow(map[], o, at), p.Window()), Received) == o.value
  {
    var m := Counted(UpsertRow(map[], o, at), p.Window());
    assert m == map[o.Key() := o];
    assert m - {o.Key()} == map[];
    TotalSplit(m, Received, o.Key());
  }

  lemma RunBoth(t: Tables, id: string, o: Observation, at: int)
    ensures Run(t, [Upsert(id, o, at), Refresh(id, at)])
            == RefreshPayment(UpsertTransaction(t, id, o, at).tables, id, at).tables
  {
    assert [Upsert(id, o, at), Refresh(id, at)] == ([] + [Upsert(id, o, at)]) + [Refresh(id, at)];
    RunThen(t, [], Upsert(id, o, at));
    RunThen(t, [] + [Upsert(id, o, at)], Refresh(id, at));
  }

  lemma RefreshPaysUp(t: Tables, id: string, at: int)
    requires RowsSound(t) && id in t.payments && t.payments[id].received == 0 && RowsOf(t, id) != map[]
    requires Total(Counted(RowsOf(t, id), t.payments[id].Window()), Received) >= t.payments[id].amount
    ensures var u := RefreshPayment(t, id, at).tables;
      OnlyChanges(t, u, id) && PaidUp(u, id) && u.payments[id].updatedAt == at
  {
    RefreshOnlyChanges(t, id, at);
    PaidIsNotExpired(t, id, at);
    RefreshSucceeds(t, id, at);
    RefreshStores(t, id, at);
    RefreshAnatomy(t, id, at);
    assert RowsOf(RefreshPayment(t, id, at).tables, id) == RowsOf(t, id);
  }

  lemma RefreshOnlyChanges(t: Tables, id: string, at: int)
    requires RowsSound(t) && id in t.payments
    ensures OnlyChanges(t, RefreshPayment(t, id, at).tables, id)
  {
    RefreshKeepsRows(t, id, at);
    RefreshFrame(t, id, at);
    assert forall q :: RowsOf(RefreshPayment(t, id, at).tables, q) == RowsOf(t, q);
  }

  /** Two paid payments crowd out an older invoice from lists of two, and the state is reachable. */
  lemma CrowdForms()
    ensures var t := Run(EMPTY_TABLES, INVOICES + PAYMENTS);
      && RowsSound(t) && Untouched(t, "pay_a") && t.payments["pay_a"] == NewPayment(INVOICE)
      && {"pay_b", "pay_c"} <= Crowd(t, "pay_a") && |Crowd(t, "pay_a")| >= 2 == HeaderLimit(1)
  {
    InvoicesCreated();
    var t := Run(EMPTY_TABLES, INVOICES);
    TwoArePaid(t);
    var second, third := PAYMENTS[..2], PAYMENTS[2..];
    assert second == [Upsert("pay_b", SECOND_PAID, 1010), Refresh("pay_b", 1010)];
    assert third == [Upsert("pay_c", THIRD_PAID, 1010), Refresh("pay_c", 1010)];
    assert PAYMENTS == second + third;
    RunConcat(t, second, third);
    RunConcat(EMPTY_TABLES, INVOICES, PAYMENTS);
  }

  lemma TwoArePaid(t: Tables)
    requires RowsSound(t) && t.transactions == map[]
    requires t.payments == map["pay_a" := NewPayment(INVOICE), "pay_b" := NewPayment(SECOND), "pay_c" := NewPayment(THIRD)]
    ensures var u := Run(Run(t, [Upsert("pay_b", SECOND_PAID, 1010), Refresh("pay_b", 1010)]),
                         [Upsert("pay_c", THIRD_PAID, 1010), Refresh("pay_c", 1010)]);
      && RowsSound(u) && Untouched(u, "pay_a") && u.payments["pay_a"] == NewPayment(INVOICE)
      && {"pay_b", "pay_c"} <= Crowd(u, "pay_a") && |Crowd(u, "pay_a")| >= 2
  {
    var v := Run(t, [Upsert("pay_b", SECOND_PAID, 1010), Refresh("pay_b", 1010)]);
    var u := Run(v, [Upsert("pay_c", THIRD_PAID, 1010), Refresh("pay_c", 1010)]);
    PaysUp(t, "pay_b", SECOND_PAID, 1010);
    assert v.payments["pay_c"] == NewPayment(THIRD) && RowsOf(v, "pay_c") == map[];
    assert v.payments["pay_a"] == NewPayment(INVOICE) && RowsOf(v, "pay_a") == map[];
    PaysUp(v, "pay_c", THIRD_PAID, 1010);
    StaysPaid(v, u, "pay_b", "pay_c");
    TwoInCrowd(u);
  }

  lemma StaysPaid(t: Tables, u: Tables, id: string, other: string)
    requires OnlyChanges(t, u, other) && PaidUp(t, id) && id != other
    ensures PaidUp(u, id) && u.payments[id].updatedAt == t.payments[id].updatedAt
  {
  }

  lemma TwoInCrowd(t: Tables)
    requires "pay_a" in t.payments && PaidUp(t, "pay_b") && PaidUp(t, "pay_c")
    requires t.payments["pay_b"].updatedAt > t.payments["pay_a"].updatedAt
    requires t.payments["pay_c"].updatedAt > t.payments["pay_a"].updatedAt
    ensures {"pay_b", "pay_c"} <= Crowd(t, "pay_a") && |Crowd(t, "pay_a")| >= 2
  {
    SubsetSize({"pay_b", "pay_c"}, Crowd(t, "pay_a"));
  }

  /** With a limit of one subscription a header refreshes two payments. Whatever headers follow, the invoice that
      fell due at 1060 still says it is waiting. */
  lemma InvoiceIsForgotten(rounds: seq<Round>, now: int)
    requires AllProper(Run(EMPTY_TABLES, INVOICES + PAYMENTS), rounds, HeaderLimit(1), "pay_a", 1000) && now > 1060
    ensures var u := AfterRounds(Run(EMPTY_TABLES, INVOICES + PAYMENTS), rounds);
      && "pay_a" in u.payments && u.payments["pay_a"].status == Waiting
      && Refreshable(u, "pay_a", now) && !CurrentButPolicy(u, "pay_a", now)
  {
    CrowdForms();
    CrowdedInvoiceWaits(Run(EMPTY_TABLES, INVOICES + PAYMENTS), rounds, HeaderLimit(1), "pay_a", now);
  }
}
