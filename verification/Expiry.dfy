/**
 Expiry after the deadline (backend/app/services/payment_state.py, payment_store.py): when an expired
 payment stays expired, for every run of steps whose own time is past the deadline.
 */
module Expiry {
  import opened Wrappers
  import opened PaymentState
  import opened PaymentTables
  import opened StoreInvariants
  import opened Creation
  import opened PaymentRows
  import opened Samples

  predicate InTime(seen: Option<int>, p: Payment) {
    seen.Some? && p.createdAt <= seen.value <= p.expiresAt
  }

  /** The recorded outputs first seen inside the window, at whatever height they now are. */
  function Candidates(rows: Rows, p: Payment): map<Outpoint, Observation> {
    map k | k in rows && InTime(rows[k].firstSeen, p) :: rows[k].At(k)
  }

  /** A row is counted when it was seen in time and is not confirmed at or below the creation height. */
  lemma CountedCandidates(rows: Rows, p: Payment)
    ensures forall k :: k in Counted(rows, p.Window()) <==>
              k in Candidates(rows, p) && !(0 < rows[k].height <= p.createdHeight)
    ensures forall k :: k in Counted(rows, p.Window()) ==> Counted(rows, p.Window())[k] == Candidates(rows, p)[k]
  {
  }

  /** A step that does not report an output of the payment, or time, from before its deadline. */
  predicate Late(s: Step, id: string, deadline: int) {
    match s
    case Upsert(q, o, _) => q == id && o.firstSeen.Some? ==> o.firstSeen.value > deadline
    case Refresh(q, now) => q == id ==> now > deadline
    case _ => true
  }

  ghost predicate LateRun(steps: seq<Step>, id: string, deadline: int) {
    forall i :: 0 <= i < |steps| ==> Late(steps[i], id, deadline)
  }

  /** Fewer outputs of unchanged value sum to no more. */
  lemma {:induction false} SubsetTotal(m: map<Outpoint, Observation>, m': map<Outpoint, Observation>)
    requires Positive(m)
    requires forall k :: k in m' ==> k in m && m'[k].value == m[k].value
    ensures Total(m', Received) <= Total(m, Received)
    decreases |m|
  {
    if m == map[] {
      assert m' == map[];
    } else {
      var k :| k in m;
      TotalSplit(m, Received, k);
      SubsetTotal(m - {k}, m' - {k});
      if k in m' {
        TotalSplit(m', Received, k);
      } else {
        assert m' - {k} == m';
      }
    }
  }

  lemma LateStepShrinks(rows: Rows, s: Step, id: string, p: Payment)
    requires TouchesRows(s, id) && Late(s, id, p.expiresAt)
    ensures var before, after := Candidates(rows, p), Candidates(StepRows(rows, s), p);
      forall k :: k in after ==> k in before && after[k].value == before[k].value
  {
  }

  /** The deadline has been missed for good: expired, and short even at the most favourable heights. */
  ghost predicate Lost(t: Tables, id: string) {
    && id in t.payments && t.payments[id].status == Expired
    && Total(Candidates(RowsOf(t, id), t.payments[id]), Received) < t.payments[id].amount
  }

  lemma LateStepKeepsLost(t: Tables, s: Step, id: string)
    requires RowsSound(t) && Lost(t, id) && Late(s, id, t.payments[id].expiresAt)
    ensures Lost(Apply(t, s), id)
  {
    RowsAfterStep(t, s, id);
    if s.Refresh? && s.paymentId == id {
      LateRefreshKeepsLost(t, id, s.at);
    } else {
      PaymentUntouched(t, s, id);
      if TouchesRows(s, id) {
        LateRowsStayShort(RowsOf(t, id), s, id, t.payments[id]);
      }
    }
  }

  lemma LateRowsStayShort(rows: Rows, s: Step, id: string, p: Payment)
    requires TouchesRows(s, id) && Late(s, id, p.expiresAt) && SoundRows(rows)
    ensures Total(Candidates(StepRows(rows, s), p), Received) <= Total(Candidates(rows, p), Received)
  {
    LateStepShrinks(rows, s, id, p);
    SubsetTotal(Candidates(rows, p), Candidates(StepRows(rows, s), p));
  }

  lemma LateRefreshKeepsLost(t: Tables, id: string, now: int)
    requires RowsSound(t) && Lost(t, id) && now > t.payments[id].expiresAt
    ensures Lost(RefreshPayment(t, id, now).tables, id)
  {
    LateEvaluation(t, id, now);
    RefreshStores(t, id, now);
    var t' := RefreshPayment(t, id, now).tables;
    SameCandidates(RowsOf(t, id), RowsOf(t', id), t.payments[id], t'.payments[id]);
  }

  lemma SameCandidates(rows: Rows, rows': Rows, p: Payment, p': Payment)
    requires rows' == rows && SameTerms(p, p')
    ensures Candidates(rows', p') == Candidates(rows, p)
  {
  }

  lemma LateEvaluation(t: Tables, id: string, now: int)
    requires RowsSound(t) && Lost(t, id) && now > t.payments[id].expiresAt
    ensures EvaluatePayment(t, id, now).Ok? && EvaluatePayment(t, id, now).value.status == Expired
  {
    var p, rows := t.payments[id], RowsOf(t, id);
    RefreshSucceeds(t, id, now);
    CountedCandidates(rows, p);
    assert SoundRows(rows);
    SubsetTotal(Candidates(rows, p), Counted(rows, p.Window()));
    StatusMeaning(Counted(rows, p.Window()), p.amount, p.required, TipFor(t, p), Some(p.expiresAt), now);
  }

  lemma {:induction false} LateRunKeepsLost(t: Tables, steps: seq<Step>, id: string)
    requires RowsSound(t) && Lost(t, id) && LateRun(steps, id, t.payments[id].expiresAt)
    ensures Lost(Run(t, steps), id)
    decreases |steps|
  {
    if steps != [] {
      LateStepKeepsLost(t, steps[0], id);
      SameDeadline(t, steps[0], id);
      StepKeepsRows(t, steps[0]);
      LateRunKeepsLost(Apply(t, steps[0]), steps[1..], id);
    }
  }

  lemma SameDeadline(t: Tables, s: Step, id: string)
    requires id in t.payments
    ensures id in Apply(t, s).payments && Apply(t, s).payments[id].expiresAt == t.payments[id].expiresAt
  {
    StepPersists(t, s);
  }

  // ---------- The converse: a late run that revives the payment ----------

  /** Report every candidate again, late and unconfirmed, as a reorganisation would. */
  ghost function Rereport(m: map<Outpoint, Observation>, id: string, at: int): seq<Step>
    decreases |m|
  {
    if m == map[] then
      []
    else
      var k :| k in m;
      [Upsert(id, m[k].(height := 0, firstSeen := Some(at)), at)] + Rereport(m - {k}, id, at)
  }

  lemma {:induction false} RereportIsLate(m: map<Outpoint, Observation>, id: string, at: int, deadline: int)
    requires at > deadline
    ensures LateRun(Rereport(m, id, at), id, deadline)
    ensures Own(Rereport(m, id, at), id) == Rereport(m, id, at)
    decreases |m|
  {
    if m != map[] {
      var k :| k in m && Rereport(m, id, at)
                         == [Upsert(id, m[k].(height := 0, firstSeen := Some(at)), at)] + Rereport(m - {k}, id, at);
      RereportIsLate(m - {k}, id, at, deadline);
      assert Rereport(m, id, at)[1..] == Rereport(m - {k}, id, at);
    }
  }

  /** The row of an output seen in time keeps its value and its time. */
  predicate StillInTime(k: Outpoint, row: TxRow, rows: Rows, p: Payment) {
    k in rows && rows[k].value == row.value && InTime(rows[k].firstSeen, p)
  }

  lemma {:induction false} RereportEffect(rows: Rows, m: map<Outpoint, Observation>, id: string, p: Payment, at: int)
    requires SoundRows(rows) && at > p.expiresAt
    requires forall k :: k in m ==> k in rows && m[k].Key() == k && m[k].value == rows[k].value && InTime(rows[k].firstSeen, p)
    ensures var rows' := FoldRows(rows, Rereport(m, id, at));
      forall k :: k in rows && InTime(rows[k].firstSeen, p) ==>
        StillInTime(k, rows[k], rows', p) && (k in m || rows[k].height == 0 ==> rows'[k].height == 0)
    decreases |m|
  {
    if m != map[] {
      var k :| k in m && Rereport(m, id, at)
                         == [Upsert(id, m[k].(height := 0, firstSeen := Some(at)), at)] + Rereport(m - {k}, id, at);
      var s := Upsert(id, m[k].(height := 0, firstSeen := Some(at)), at);
      assert Rereport(m, id, at)[1..] == Rereport(m - {k}, id, at);
      var next := StepRows(rows, s);
      ReportedRow(rows, m[k], k, id, at);
      RereportEffect(next, m - {k}, id, p, at);
      var rows' := FoldRows(next, Rereport(m - {k}, id, at));
      assert FoldRows(rows, Rereport(m, id, at)) == rows';
      forall q | q in rows && InTime(rows[q].firstSeen, p)
        ensures StillInTime(q, rows[q], rows', p)
        ensures q in m || rows[q].height == 0 ==> rows'[q].height == 0
      {
        assert q in next && InTime(next[q].firstSeen, p);
      }
    }
  }

  /** Reporting a stored output again in the mempool changes its height and when it was written. */
  lemma ReportedRow(rows: Rows, o: Observation, k: Outpoint, id: string, at: int)
    requires SoundRows(rows) && k in rows && o.Key() == k && o.value == rows[k].value
    requires rows[k].firstSeen.Some? && rows[k].firstSeen.value <= at
    ensures StepRows(rows, Upsert(id, o.(height := 0, firstSeen := Some(at)), at))
            == rows[k := TxRow(rows[k].value, 0, rows[k].firstSeen, at)]
  {
  }

  /** With enough seen in time, re-reporting it late and refreshing leaves the expired state. */
  lemma RereportRevives(t: Tables, id: string)
    requires RowsSound(t) && id in t.payments
    requires Total(Candidates(RowsOf(t, id), t.payments[id]), Received) >= t.payments[id].amount
    ensures exists steps :: LateRun(steps, id, t.payments[id].expiresAt)
                            && id in Run(t, steps).payments && Run(t, steps).payments[id].status != Expired
  {
    var at := t.payments[id].expiresAt + 1;
    var m := Candidates(RowsOf(t, id), t.payments[id]);
    var reports := Rereport(m, id, at);
    var steps := reports + [Refresh(id, at)];
    RereportIsLate(m, id, at, t.payments[id].expiresAt);
    RereportPays(t, id, at);
    PaidIsNotExpired(Run(t, reports), id, at);
    LateThen(reports, Refresh(id, at), id, t.payments[id].expiresAt);
    RunThen(t, reports, Refresh(id, at));
    assert Apply(Run(t, reports), Refresh(id, at)) == RefreshPayment(Run(t, reports), id, at).tables;
  }

  lemma LateThen(steps: seq<Step>, s: Step, id: string, deadline: int)
    requires LateRun(steps, id, deadline) && Late(s, id, deadline)
    ensures LateRun(steps + [s], id, deadline)
  {
  }

  lemma RereportPays(t: Tables, id: string, at: int)
    requires RowsSound(t) && id in t.payments && at > t.payments[id].expiresAt
    requires Total(Candidates(RowsOf(t, id), t.payments[id]), Received) >= t.payments[id].amount
    ensures var u := Run(t, Rereport(Candidates(RowsOf(t, id), t.payments[id]), id, at));
      && RowsSound(u) && id in u.payments
      && Total(Counted(RowsOf(u, id), u.payments[id].Window()), Received) >= u.payments[id].amount
  {
    var p, rows := t.payments[id], RowsOf(t, id);
    var m := Candidates(rows, p);
    var reports := Rereport(m, id, at);
    RereportIsLate(m, id, at, p.expiresAt);
    assert SoundRows(rows);
    RereportEffect(rows, m, id, p, at);
    RowsAfterRun(t, reports, id);
    RunRowsSound(t, reports);
    RunPersists(t, reports);
    var u := Run(t, reports);
    assert SoundRows(RowsOf(u, id));
    FullyPaid(rows, RowsOf(u, id), p, u.payments[id]);
  }

  lemma PaidIsNotExpired(t: Tables, id: string, now: int)
    requires RowsSound(t) && id in t.payments
    requires Total(Counted(RowsOf(t, id), t.payments[id].Window()), Received) >= t.payments[id].amount
    ensures id in RefreshPayment(t, id, now).tables.payments
    ensures RefreshPayment(t, id, now).tables.payments[id].status != Expired
  {
    var p := t.payments[id];
    RefreshSucceeds(t, id, now);
    StatusMeaning(Counted(RowsOf(t, id), p.Window()), p.amount, p.required, TipFor(t, p), Some(p.expiresAt), now);
    RefreshStores(t, id, now);
  }

  lemma FullyPaid(rows: Rows, rows': Rows, p: Payment, p': Payment)
    requires SoundRows(rows') && SameTerms(p, p') && p.createdHeight >= 0
    requires forall k :: k in rows && InTime(rows[k].firstSeen, p) ==> StillInTime(k, rows[k], rows', p) && rows'[k].height == 0
    ensures Total(Counted(rows', p'.Window()), Received) >= Total(Candidates(rows, p), Received)
  {
    CountedCandidates(rows', p');
    SubsetTotal(Counted(rows', p'.Window()), Candidates(rows, p));
  }

  /** An expired payment stays expired in every late run of upserts, deletions, tip changes, refreshes
      and anything else, exactly when what was ever seen in time falls short of the amount. */
  lemma ExpiredIsAbsorbing(t: Tables, id: string)
    requires RowsSound(t) && id in t.payments && t.payments[id].status == Expired
    ensures (forall steps | LateRun(steps, id, t.payments[id].expiresAt) ::
               id in Run(t, steps).payments && Run(t, steps).payments[id].status == Expired)
            <==> Total(Candidates(RowsOf(t, id), t.payments[id]), Received) < t.payments[id].amount
  {
    if Total(Candidates(RowsOf(t, id), t.payments[id]), Received) < t.payments[id].amount {
      forall steps | LateRun(steps, id, t.payments[id].expiresAt)
        ensures id in Run(t, steps).payments && Run(t, steps).payments[id].status == Expired
      {
        LateRunKeepsLost(t, steps, id);
      }
    } else {
      RereportRevives(t, id);
    }
  }

  /** When no recorded output sits at or below the creation height, what was seen in time is what is
      counted, so a payment its own evaluation finds expired is expired for good. */
  lemma FreshlyExpiredIsFinal(t: Tables, id: string, now: int, steps: seq<Step>)
    requires RowsSound(t) && id in t.payments
    requires forall k :: k in RowsOf(t, id) ==> !(0 < RowsOf(t, id)[k].height <= t.payments[id].createdHeight)
    requires EvaluatePayment(t, id, now).Ok? && EvaluatePayment(t, id, now).value.status == Expired
    requires LateRun(steps, id, t.payments[id].expiresAt)
    ensures var t' := Run(RefreshPayment(t, id, now).tables, steps);
      id in t'.payments && t'.payments[id].status == Expired
  {
    FreshlyLost(t, id, now);
    RefreshKeepsRows(t, id, now);
    RefreshStores(t, id, now);
    LateRunKeepsLost(RefreshPayment(t, id, now).tables, steps, id);
  }

  lemma FreshlyLost(t: Tables, id: string, now: int)
    requires RowsSound(t) && id in t.payments
    requires forall k :: k in RowsOf(t, id) ==> !(0 < RowsOf(t, id)[k].height <= t.payments[id].createdHeight)
    requires EvaluatePayment(t, id, now).Ok? && EvaluatePayment(t, id, now).value.status == Expired
    ensures Lost(RefreshPayment(t, id, now).tables, id)
  {
    var p, rows := t.payments[id], RowsOf(t, id);
    CountedCandidates(rows, p);
    assert Candidates(rows, p) == Counted(rows, p.Window());
    RefreshSucceeds(t, id, now);
    StatusMeaning(Counted(rows, p.Window()), p.amount, p.required, TipFor(t, p), Some(p.expiresAt), now);
    RefreshStores(t, id, now);
    SameCandidates(rows, rows, p, RefreshPayment(t, id, now).tables.payments[id]);
  }

  // ---------- An expired payment that a reorganisation revives ----------

  const OLD_OUTPUT := Observation(SAMPLE_TXID, 0, 100, 40, Some(1010))
  const OPENING := [Create(INVOICE), Upsert("pay_a", OLD_OUTPUT, 1010)]

  /** The invoice with its one output recorded in block 40. */
  ghost predicate Recorded(t: Tables) {
    && RowsSound(t) && "pay_a" in t.payments && SameTerms(NewPayment(INVOICE), t.payments["pay_a"])
    && RowsOf(t, "pay_a") == map[OLD_OUTPUT.Key() := TxRow(100, 40, Some(1010), 1010)]
  }

  lemma OpeningState()
    ensures Recorded(Run(EMPTY_TABLES, OPENING))
  {
    var t1 := Apply(EMPTY_TABLES, OPENING[0]);
    assert t1 == InsertPayment(EMPTY_TABLES, INVOICE);
    assert OPENING == ([] + [OPENING[0]]) + [OPENING[1]];
    RunThen(EMPTY_TABLES, [], OPENING[0]);
    RunThen(EMPTY_TABLES, [] + [OPENING[0]], OPENING[1]);
    EmptySound();
    RunRowsSound(EMPTY_TABLES, OPENING);
  }

  lemma RecordedExpires(t: Tables)
    requires Recorded(t)
    ensures var t' := Apply(t, Refresh("pay_a", 1061));
      Recorded(t') && t'.payments["pay_a"].status == Expired
  {
    assert Counted(RowsOf(t, "pay_a"), t.payments["pay_a"].Window()) == map[];
    NothingCounted(t, "pay_a", 1061);
  }

  lemma NothingCounted(t: Tables, id: string, now: int)
    requires RowsSound(t) && id in t.payments && now > t.payments[id].expiresAt
    requires Counted(RowsOf(t, id), t.payments[id].Window()) == map[]
    ensures var t' := RefreshPayment(t, id, now).tables;
      && RowsSound(t') && id in t'.payments && t'.payments[id].status == Expired
      && SameTerms(t.payments[id], t'.payments[id]) && RowsOf(t', id) == RowsOf(t, id)
  {
    var p := t.payments[id];
    RefreshSucceeds(t, id, now);
    StatusMeaning(map[], p.amount, p.required, TipFor(t, p), Some(p.expiresAt), now);
    RefreshStores(t, id, now);
    RefreshKeepsRows(t, id, now);
  }

  /** The hypothesis on heights is needed. A payment of 100 created at height 50 is expired while its one
      output, seen in time, sits in block 40; a late reorganisation of that output makes it paid. */
  lemma ExpiredCanRevive()
    ensures exists steps, late, id :: var t := Run(EMPTY_TABLES, steps);
              && id in t.payments && t.payments[id].status == Expired
              && LateRun(late, id, t.payments[id].expiresAt)
              && id in Run(t, late).payments && Run(t, late).payments[id].status != Expired
  {
    var steps := OPENING + [Refresh("pay_a", 1061)];
    var t := Run(EMPTY_TABLES, steps);
    OpeningState();
    RunThen(EMPTY_TABLES, OPENING, Refresh("pay_a", 1061));
    RecordedExpires(Run(EMPTY_TABLES, OPENING));
    RecordedRevives(t);
  }

  lemma RecordedRevives(t: Tables)
    requires Recorded(t)
    ensures exists late :: LateRun(late, "pay_a", t.payments["pay_a"].expiresAt)
                           && "pay_a" in Run(t, late).payments && Run(t, late).payments["pay_a"].status != Expired
  {
    var m := Candidates(RowsOf(t, "pay_a"), t.payments["pay_a"]);
    assert m == map[OLD_OUTPUT.Key() := OLD_OUTPUT];
    TotalSplit(m, Received, OLD_OUTPUT.Key());
    assert m - {OLD_OUTPUT.Key()} == map[];
    RereportRevives(t, "pay_a");
  }
}
