/**
 What a header notification keeps true (backend/app/services/payment_watcher.py): refreshing only the
 refreshable payments is enough for every stored status, and for all but one stored total.
 */
module HeaderRefresh {
  import opened Counting
  import opened Wrappers
  import opened PaymentState
  import opened PaymentTables
  import opened StoreInvariants
  import opened Creation
  import opened PaymentRows
  import opened PaymentWatcher
  import opened Reconciliation
  import opened ReconcileTwice
  import opened Samples

  lemma RefreshStepsSplit(ids: seq<string>, now: int)
    requires ids != []
    ensures RefreshSteps(ids, now) == RefreshSteps(ids[..|ids| - 1], now) + [Refresh(ids[|ids| - 1], now)]
  {
  }

  lemma {:induction false} RefreshRun(t: Tables, ids: seq<string>, now: int, q: string)
    requires RowsSound(t) && q in t.payments && forall i :: 0 <= i < |ids| ==> ids[i] in t.payments
    ensures var u := Run(t, RefreshSteps(ids, now));
      && RowsSound(u) && u.transactions == t.transactions && u.tip == t.tip
      && q in u.payments && SameTerms(t.payments[q], u.payments[q])
      && if q in ids then Current(u, q, now) else u.payments[q] == t.payments[q]
    decreases |ids|
  {
    if ids == [] {
      assert RefreshSteps(ids, now) == [];
    } else {
      var front, id := ids[..|ids| - 1], ids[|ids| - 1];
      RefreshRun(t, front, now, q);
      RefreshRun(t, front, now, id);
      RefreshStepsSplit(ids, now);
      RunThen(t, RefreshSteps(front, now), Refresh(id, now));
      var u := Run(t, RefreshSteps(front, now));
      RefreshKeepsRows(u, id, now);
      RefreshOther(u, id, now, q);
      InFront(ids, q);
    }
  }

  lemma InFront(ids: seq<string>, q: string)
    requires ids != []
    ensures q in ids <==> q in ids[..|ids| - 1] || q == ids[|ids| - 1]
  {
    assert ids == ids[..|ids| - 1] + [ids[|ids| - 1]];
  }

  /** Refreshing listed payments stops at none of them. */
  lemma {:induction false} RefreshesExecute(t: Tables, ids: seq<string>, now: int)
    requires RowsSound(t) && forall i :: 0 <= i < |ids| ==> ids[i] in t.payments
    ensures Execute(t, RefreshSteps(ids, now)).result.Ok?
    decreases |ids|
  {
    if ids == [] {
      assert RefreshSteps(ids, now) == [];
    } else {
      var front, id := ids[..|ids| - 1], ids[|ids| - 1];
      RefreshesExecute(t, front, now);
      RefreshRun(t, front, now, id);
      RefreshStepsSplit(ids, now);
      ExecuteIsRun(t, RefreshSteps(front, now));
      ExecuteConcat(t, RefreshSteps(front, now), [Refresh(id, now)]);
      var u := Run(t, RefreshSteps(front, now));
      ExecuteOne(u, Refresh(id, now));
      RefreshSucceeds(u, id, now);
    }
  }

  lemma RefreshOther(t: Tables, id: string, now: int, q: string)
    requires RowsSound(t) && id in t.payments && q in t.payments
    ensures var u := RefreshPayment(t, id, now).tables;
      && u.transactions == t.transactions && u.tip == t.tip
      && q in u.payments && SameTerms(t.payments[q], u.payments[q])
      && (q == id || Current(t, q, now) ==> Current(u, q, now))
      && (q != id ==> u.payments[q] == t.payments[q])
  {
    RefreshSucceeds(t, id, now);
    RefreshStores(t, id, now);
    if q == id {
      RefreshIsCurrent(t, id, now);
    } else {
      PaymentUntouched(t, Refresh(id, now), q);
      CurrentFrame(t, RefreshPayment(t, id, now).tables, q, now);
    }
  }

  lemma CurrentFrame(t: Tables, u: Tables, q: string, now: int)
    requires q in t.payments && q in u.payments && u.payments[q] == t.payments[q]
    requires u.transactions == t.transactions && u.tip == t.tip
    ensures Current(t, q, now) ==> Current(u, q, now)
  {
    assert RowsOf(u, q) == RowsOf(t, q);
  }

  /** The payment's status, received and confirmed totals are what an evaluation would find. */
  ghost predicate CurrentButPolicy(t: Tables, id: string, now: int) {
    && id in t.payments && EvaluatePayment(t, id, now).Ok?
    && var p, e := t.payments[id], EvaluatePayment(t, id, now).value;
       p.status == e.status && p.received == e.received && p.confirmed == e.confirmed
  }

  /** So is its policy total, unless the payment has expired. */
  ghost predicate UpToDate(t: Tables, id: string, now: int) {
    CurrentButPolicy(t, id, now) && (t.payments[id].status != Expired ==> Current(t, id, now))
  }

  /** No counted output meets the confirmation policy at one tip only. */
  ghost predicate PolicyUnmoved(t: Tables, id: string, tip: int, tip': int)
    requires id in t.payments
  {
    var p := t.payments[id];
    var counted := Counted(RowsOf(t, id), p.Window());
    forall k :: k in counted ==> (Counts(counted[k], Policy(p.required, tip)) <==> Counts(counted[k], Policy(p.required, tip')))
  }

  // ---------- What one header does to one payment ----------

  /** The list names every payment a header has to refresh. */
  ghost predicate Covers(t: Tables, now: int, ids: seq<string>) {
    && (forall i :: 0 <= i < |ids| ==> ids[i] in t.payments)
    && forall q :: Refreshable(t, q, now) ==> q in ids
  }

  ghost function AllRefreshable(t: Tables, now: int): set<string> {
    set q | q in t.payments && Refreshable(t, q, now)
  }

  /** The list the store gives covers exactly when there are no more refreshable payments than it may hold. */
  lemma ListCovers(t: Tables, now: int, bound: nat, ids: seq<string>)
    requires ListsRefreshable(t, now, bound, ids)
    ensures Covers(t, now, ids) <==> |AllRefreshable(t, now)| <= bound
  {
    var all, listed := AllRefreshable(t, now), SetOf(ids);
    DistinctCount(ids);
    assert listed <= all;
    if Covers(t, now, ids) {
      assert all == listed;
    } else {
      var q :| Refreshable(t, q, now) && q !in ids;
      StrictlyLarger(listed, all, q);
    }
  }

  /** With no rows and the deadline ahead, the evaluation does not depend on the tip or the time. */
  lemma NothingToRefresh(t: Tables, u: Tables, id: string, earlier: int, now: int)
    requires RowsSound(t) && RowsSound(u) && id in t.payments && earlier <= now
    requires id in u.payments && u.payments[id] == t.payments[id] && RowsOf(u, id) == RowsOf(t, id)
    requires RowsOf(t, id) == map[] && t.payments[id].expiresAt > now
    ensures EvaluatePayment(t, id, earlier).Ok? && EvaluatePayment(u, id, now) == EvaluatePayment(t, id, earlier)
  {
    assert Counted(RowsOf(t, id), t.payments[id].Window()) == map[];
    assert SoundPayment(t.payments[id]);
  }

  lemma ExpiredStaysExpired(t: Tables, u: Tables, id: string, earlier: int, now: int)
    requires RowsSound(t) && RowsSound(u) && CurrentButPolicy(t, id, earlier) && earlier <= now
    requires id in u.payments && u.payments[id] == t.payments[id] && RowsOf(u, id) == RowsOf(t, id)
    requires t.payments[id].status == Expired
    ensures CurrentButPolicy(u, id, now)
  {
    var p := t.payments[id];
    var counted := Counted(RowsOf(t, id), p.Window());
    RefreshSucceeds(t, id, earlier);
    RefreshSucceeds(u, id, now);
    StatusMeaning(counted, p.amount, p.required, TipFor(t, p), Some(p.expiresAt), earlier);
    StatusMeaning(counted, p.amount, p.required, TipFor(u, p), Some(p.expiresAt), now);
  }

  lemma ExpiredPolicy(t: Tables, u: Tables, id: string, earlier: int, now: int)
    requires RowsSound(t) && RowsSound(u) && Current(t, id, earlier) && CurrentButPolicy(u, id, now)
    requires id in u.payments && u.payments[id] == t.payments[id] && RowsOf(u, id) == RowsOf(t, id)
    ensures Current(u, id, now) <==> PolicyUnmoved(t, id, TipFor(t, t.payments[id]), TipFor(u, t.payments[id]))
  {
    var p := t.payments[id];
    var counted := Counted(RowsOf(t, id), p.Window());
    RefreshSucceeds(t, id, earlier);
    var a, b := TipFor(t, p), TipFor(u, p);
    if a <= b {
      TotalMonotone(counted, Policy(p.required, a), Policy(p.required, b));
    } else {
      TotalMonotone(counted, Policy(p.required, b), Policy(p.required, a));
    }
  }

  /** Either a header would refresh the payment now, or it is up to date now. */
  ghost predicate Kept(t: Tables, id: string, now: int) {
    Refreshable(t, id, now) || UpToDate(t, id, now)
  }

  /** For a payment that is kept, whatever the other payments are: once a header has been applied that lists it, if
      it is refreshable, it is up to date at the new tip and time. An expired payment whose policy total was current
      too still has it current exactly when no output it counts crosses its policy between the two tips. */
  lemma HeaderKeepsCurrent(t: Tables, height: int, hash: Option<string>, earlier: int, now: int, ids: seq<string>, id: string)
    requires RowsSound(t) && height >= 0 && earlier <= now && Kept(t, id, earlier)
    requires (forall i :: 0 <= i < |ids| ==> ids[i] in t.payments) && (Refreshable(t, id, now) ==> id in ids)
    ensures Execute(SetChainTip(t, height, hash, now).tables, RefreshSteps(ids, now)).result.Ok?
    ensures var u := Run(SetChainTip(t, height, hash, now).tables, RefreshSteps(ids, now));
      && UpToDate(u, id, now)
      && (id in ids ==> Current(u, id, now))
      && (Current(t, id, earlier) && t.payments[id].status == Expired && id !in ids ==>
            (Current(u, id, now) <==> PolicyUnmoved(t, id, TipFor(t, t.payments[id]), height)))
  {
    var tipped := SetChainTip(t, height, hash, now).tables;
    assert tipped == t.(tip := tipped.tip) && tipped.tip == Some(ChainTip(height, hash, now));
    TipKeepsRows(t, height, hash, now);
    RefreshesExecute(tipped, ids, now);
    RefreshRun(tipped, ids, now, id);
    if id !in ids {
      Unlisted(t, Run(tipped, RefreshSteps(ids, now)), id, earlier, now);
    }
  }

  lemma Unlisted(t: Tables, u: Tables, id: string, earlier: int, now: int)
    requires RowsSound(t) && RowsSound(u) && Kept(t, id, earlier) && earlier <= now && !Refreshable(t, id, now)
    requires id in u.payments && u.payments[id] == t.payments[id] && u.transactions == t.transactions
    ensures UpToDate(u, id, now)
    ensures Current(t, id, earlier) ==>
              (Current(u, id, now) <==> PolicyUnmoved(t, id, TipFor(t, t.payments[id]), TipFor(u, t.payments[id])))
  {
    assert RowsOf(u, id) == RowsOf(t, id);
    if t.payments[id].status == Expired {
      ExpiredStaysExpired(t, u, id, earlier, now);
    } else {
      NothingToRefresh(t, u, id, earlier, now);
    }
    if Current(t, id, earlier) {
      ExpiredPolicy(t, u, id, earlier, now);
    }
  }

  // ---------- A policy total that lags ----------

  const PART := Observation(SAMPLE_TXID, 0, 60, 51, Some(1010))

  /** Of the invoice of 100, 60 arrive in block 51, the tip; the deadline passes. */
  const PART_PAID := [Create(INVOICE), SetTip(51, None, 1005), Upsert("pay_a", PART, 1010), Refresh("pay_a", 1061)]

  /** The invoice with its one output recorded, at the given tip. */
  ghost predicate PartRecorded(t: Tables, tip: int) {
    && RowsSound(t) && t.payments.Keys == {"pay_a"} && SameTerms(NewPayment(INVOICE), t.payments["pay_a"])
    && RowsOf(t, "pay_a") == map[PART.Key() := TxRow(60, 51, Some(1010), 1010)]
    && t.tip.Some? && t.tip.value.height == tip >= 51
  }

  lemma PartEvaluated(t: Tables, tip: int)
    requires PartRecorded(t, tip)
    ensures EvaluatePayment(t, "pay_a", 1061).Ok? && EvaluatePayment(t, "pay_a", 1070).Ok?
    ensures forall now :: now == 1061 || now == 1070 ==>
              var e := EvaluatePayment(t, "pay_a", now).value;
              && e.status == Expired && e.received == 60 && e.confirmed == 60
              && e.policyConfirmed == if tip >= 52 then 60 else 0
  {
    var p := t.payments["pay_a"];
    var m := Counted(RowsOf(t, "pay_a"), p.Window());
    assert m == map[PART.Key() := PART];
    assert m - {PART.Key()} == map[];
    TotalSplit(m, Received, PART.Key());
    TotalSplit(m, Confirmed, PART.Key());
    TotalSplit(m, Policy(2, tip), PART.Key());
  }

  lemma PartOpening()
    ensures PartRecorded(Run(EMPTY_TABLES, PART_PAID[..3]), 51)
  {
    var t1 := Apply(EMPTY_TABLES, PART_PAID[0]);
    assert t1 == InsertPayment(EMPTY_TABLES, INVOICE);
    var t2 := Apply(t1, PART_PAID[1]);
    assert t2 == t1.(tip := Some(ChainTip(51, None, 1005)));
    assert PART_PAID[..3] == (([] + [PART_PAID[0]]) + [PART_PAID[1]]) + [PART_PAID[2]];
    RunThen(EMPTY_TABLES, [], PART_PAID[0]);
    RunThen(EMPTY_TABLES, [] + [PART_PAID[0]], PART_PAID[1]);
    RunThen(EMPTY_TABLES, ([] + [PART_PAID[0]]) + [PART_PAID[1]], PART_PAID[2]);
    EmptySound();
    RunRowsSound(EMPTY_TABLES, PART_PAID[..3]);
  }

  lemma PartExpires(t: Tables)
    requires PartRecorded(t, 51)
    ensures var u := Apply(t, Refresh("pay_a", 1061));
      && PartRecorded(u, 51) && Current(u, "pay_a", 1061)
      && u.payments["pay_a"].status == Expired && u.payments["pay_a"].policyConfirmed == 0
  {
    PartEvaluated(t, 51);
    RefreshStores(t, "pay_a", 1061);
    RefreshFrame(t, "pay_a", 1061);
    RefreshIsCurrent(t, "pay_a", 1061);
    RefreshKeepsRows(t, "pay_a", 1061);
  }

  /** The lag is real: after the next header, whose list is empty, the expired invoice still says that none of
      its 60 meets the policy, where an evaluation says that all of it does. */
  lemma PolicyTotalLags()
    ensures var t := Run(EMPTY_TABLES, PART_PAID);
      var u := Run(SetChainTip(t, 52, None, 1070).tables, RefreshSteps([], 1070));
      && Covers(SetChainTip(t, 52, None, 1070).tables, 1070, [])
      && "pay_a" in t.payments && Current(t, "pay_a", 1061)
      && "pay_a" in u.payments && EvaluatePayment(u, "pay_a", 1070).Ok?
      && u.payments["pay_a"].status == Expired && CurrentButPolicy(u, "pay_a", 1070)
      && u.payments["pay_a"].policyConfirmed == 0 && EvaluatePayment(u, "pay_a", 1070).value.policyConfirmed == 60
  {
    assert PART_PAID == PART_PAID[..3] + [PART_PAID[3]];
    RunThen(EMPTY_TABLES, PART_PAID[..3], PART_PAID[3]);
    PartOpening();
    PartExpires(Run(EMPTY_TABLES, PART_PAID[..3]));
    var t := Run(EMPTY_TABLES, PART_PAID);
    var u := SetChainTip(t, 52, None, 1070).tables;
    assert u == t.(tip := Some(ChainTip(52, None, 1070)));
    assert RefreshSteps([], 1070) == [];
    assert RowsOf(u, "pay_a") == RowsOf(t, "pay_a");
    PartEvaluated(t, 51);
    PartEvaluated(u, 52);
  }
}
