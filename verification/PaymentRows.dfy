/**
 How a run of the whole store looks from one payment: the rows recorded for it change only by its own
 upserts and deletions, whatever other steps are interleaved with them.
 */
module PaymentRows {
  import opened Wrappers
  import opened PaymentState
  import opened PaymentTables
  import opened StoreInvariants
  import opened Creation

  predicate TouchesRows(s: Step, id: string) {
    (s.Upsert? || s.DeleteNotIn?) && s.paymentId == id
  }

  function StepRows(rows: Rows, s: Step): Rows {
    match s
    case Upsert(_, o, at) => if ValueClash(rows, o) || o.vout < 0 || o.value <= 0 then rows else UpsertRow(rows, o, at)
    case DeleteNotIn(_, txids) => KeepRows(rows, txids)
    case _ => rows
  }

  /** The steps of a run that touch the rows of one payment. */
  function Own(steps: seq<Step>, id: string): seq<Step> {
    if steps == [] then []
    else (if TouchesRows(steps[0], id) then [steps[0]] else []) + Own(steps[1..], id)
  }

  function FoldRows(rows: Rows, steps: seq<Step>): Rows
    decreases |steps|
  {
    if steps == [] then rows else FoldRows(StepRows(rows, steps[0]), steps[1..])
  }

  lemma RowsAfterStep(t: Tables, s: Step, id: string)
    requires id in t.payments
    ensures RowsOf(Apply(t, s), id) == if TouchesRows(s, id) then StepRows(RowsOf(t, id), s) else RowsOf(t, id)
  {
    match s
    case Upsert(_, _, _) => RowsAfterUpsert(t, s, id);
    case DeleteNotIn(_, _) => RowsAfterDelete(t, s, id);
    case _ => TransactionsFrame(t, s);
  }

  lemma RowsAfterUpsert(t: Tables, s: Step, id: string)
    requires id in t.payments && s.Upsert?
    ensures RowsOf(Apply(t, s), id) == if s.paymentId == id then StepRows(RowsOf(t, id), s) else RowsOf(t, id)
  {
  }

  lemma RowsAfterDelete(t: Tables, s: Step, id: string)
    requires s.DeleteNotIn?
    ensures RowsOf(Apply(t, s), id) == if s.paymentId == id then StepRows(RowsOf(t, id), s) else RowsOf(t, id)
  {
    assert KeepRows(map[], s.txids) == map[];
  }

  lemma TransactionsFrame(t: Tables, s: Step)
    requires !s.Upsert? && !s.DeleteNotIn?
    ensures Apply(t, s).transactions == t.transactions
  {
    match s
    case Create(req) => CreateAnatomy(t, req);
    case Refresh(id, at) => RefreshAnatomy(t, id, at);
    case SetTip(_, _, _) =>
    case _ => BookkeepingFrame(t, s);
  }

  /** The stored row of a payment changes only by its own refreshes. */
  lemma PaymentUntouched(t: Tables, s: Step, id: string)
    requires id in t.payments && !(s.Refresh? && s.paymentId == id)
    ensures id in Apply(t, s).payments && Apply(t, s).payments[id] == t.payments[id]
  {
    match s
    case Create(req) => CreateAnatomy(t, req);
    case Refresh(q, at) => RefreshAnatomy(t, q, at);
    case _ => OtherStepsFrame(t, s);
  }

  /** After a refresh the stored row says what the evaluation says, on unchanged terms and rows. */
  lemma RefreshStores(t: Tables, id: string, now: int)
    requires id in t.payments && EvaluatePayment(t, id, now).Ok?
    ensures var t' := RefreshPayment(t, id, now).tables;
      && id in t'.payments && SameTerms(t.payments[id], t'.payments[id])
      && Agrees(t'.payments[id], EvaluatePayment(t, id, now).value)
      && t'.transactions == t.transactions && t'.tip == t.tip
  {
    RefreshAnatomy(t, id, now);
  }

  /** Interleaving is invisible: after any run, a payment's rows are its own steps folded over the
      rows it had. */
  lemma {:induction false} RowsAfterRun(t: Tables, steps: seq<Step>, id: string)
    requires id in t.payments
    ensures RowsOf(Run(t, steps), id) == FoldRows(RowsOf(t, id), Own(steps, id))
    decreases |steps|
  {
    if steps != [] {
      RowsAfterStep(t, steps[0], id);
      StepPersists(t, steps[0]);
      RowsAfterRun(Apply(t, steps[0]), steps[1..], id);
      if TouchesRows(steps[0], id) {
        assert Own(steps, id)[1..] == Own(steps[1..], id);
      } else {
        assert Own(steps, id) == Own(steps[1..], id);
      }
    }
  }

  lemma {:induction false} RunRowsSound(t: Tables, steps: seq<Step>)
    requires RowsSound(t)
    ensures RowsSound(Run(t, steps))
    decreases |steps|
  {
    if steps != [] {
      StepKeepsRows(t, steps[0]);
      RunRowsSound(Apply(t, steps[0]), steps[1..]);
    }
  }

  lemma {:induction false} FoldConcat(rows: Rows, a: seq<Step>, b: seq<Step>)
    ensures FoldRows(rows, a + b) == FoldRows(FoldRows(rows, a), b)
    decreases |a|
  {
    if a == [] {
      assert a + b == b;
    } else {
      assert (a + b)[0] == a[0] && (a + b)[1..] == a[1..] + b;
      FoldConcat(StepRows(rows, a[0]), a[1..], b);
    }
  }
}
