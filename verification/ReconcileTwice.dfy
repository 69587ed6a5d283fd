/**
 A completed reconcile never raises on readable transactions, leaves every payment of the script hash
 current, and changes nothing when it is repeated (backend/app/services/payment_watcher.py).
 */
module ReconcileTwice {
  import opened Wrappers
  import opened PaymentState
  import opened PaymentTables
  import opened StoreInvariants
  import opened Creation
  import opened PaymentRows
  import opened PaymentWatcher
  import opened Reconciliation

  // ---------- No step raises ----------

  lemma PayoutIsStorable(chain: Chain, address: string, k: Outpoint, value: int)
    requires PaysOut(chain, address, k, value)
    ensures value > 0 && k.vout >= 0
  {
    var i: nat :| Credits(chain(k.txid).value, i, address, k.vout, value);
  }

  /** An upsert of a readable chain output, on rows from the chain, is stored. */
  lemma ChainUpsertStores(t: Tables, s: Step, id: string, r: Reading)
    requires id in t.payments && FromChain(RowsOf(t, id), r)
    requires s.Upsert? && s.paymentId == id && ChainStep(s, id, r) && Readable(r.chain, r.address, s.o.txid)
    ensures StepError(t, s) == None
    ensures id in Apply(t, s).payments && FromChain(RowsOf(Apply(t, s), id), r)
  {
    PayoutIsStorable(r.chain, r.address, s.o.Key(), s.o.value);
    if s.o.Key() in RowsOf(t, id) {
      OneValue(r.chain, r.address, s.o.Key(), s.o.value, RowsOf(t, id)[s.o.Key()].value);
    }
  }

  lemma {:induction false} ChainUpsertsExecute(t: Tables, steps: seq<Step>, id: string, r: Reading)
    requires id in t.payments && FromChain(RowsOf(t, id), r)
    requires forall s :: s in steps ==>
               s.Upsert? && s.paymentId == id && ChainStep(s, id, r) && Readable(r.chain, r.address, s.o.txid)
    ensures Execute(t, steps).result.Ok?
    decreases |steps|
  {
    if steps != [] {
      assert steps[0] in steps;
      ChainUpsertStores(t, steps[0], id, r);
      ChainUpsertsExecute(Apply(t, steps[0]), steps[1..], id, r);
    }
  }

  lemma {:induction false} HistoryStepsReadable(id: string, r: Reading, at: int)
    requires ReadableHistory(r)
    ensures forall s :: s in HistorySteps(id, r.address, r.baseline, r.history, r.chain, at) ==>
              s.Upsert? && Readable(r.chain, r.address, s.o.txid)
    decreases |r.history|
  {
    if r.history != [] {
      var n := |r.history| - 1;
      var front, entry := Prefix(r, n), r.history[n];
      assert ReadableHistory(front);
      HistoryStepsReadable(id, front, at);
      if entry.txid !in r.baseline {
        MatchedReports(r, entry, at);
        var observations := MatchTransaction(r.chain(entry.txid), r.address, entry.height, entry.txid, Some(at)).value;
        forall s | s in UpsertSteps(id, observations, at)
          ensures s.Upsert? && Readable(r.chain, r.address, s.o.txid)
        {
          var i :| 0 <= i < |observations| && s == Upsert(id, observations[i], at);
          assert observations[i] in observations;
        }
      }
    }
  }

  /** Reconciling one payment with a readable history stops at no step. */
  lemma ReconcileExecutes(t: Tables, id: string, history: seq<HistoryEntry>, chain: Chain, at: int)
    requires RowsSound(t) && id in t.payments
    requires ReadableHistory(Reads(t, id, history, chain)) && FromChain(RowsOf(t, id), Reads(t, id, history, chain))
    ensures Execute(t, PaymentSteps(t, id, history, chain, at)).result.Ok?
  {
    var r := Reads(t, id, history, chain);
    var reading := HistorySteps(id, r.address, r.baseline, r.history, r.chain, at);
    ReadingExecutes(t, id, r, at);
    ExecuteIsRun(t, reading);
    RunRowsSound(t, reading);
    RunPersists(t, reading);
    ClosingExecutes(Run(t, reading), id, HistoryTxids(history), at);
    var closing := [DeleteNotIn(id, HistoryTxids(history)), Refresh(id, at)];
    assert PaymentSteps(t, id, history, chain, at) == reading + closing;
    ExecuteConcat(t, reading, closing);
  }

  lemma ReadingExecutes(t: Tables, id: string, r: Reading, at: int)
    requires id in t.payments && ReadableHistory(r) && FromChain(RowsOf(t, id), r)
    ensures Execute(t, HistorySteps(id, r.address, r.baseline, r.history, r.chain, at)).result.Ok?
  {
    ReconcileMakesChainSteps(id, r, at);
    HistoryStepsReadable(id, r, at);
    ChainUpsertsExecute(t, HistorySteps(id, r.address, r.baseline, r.history, r.chain, at), id, r);
  }

  lemma ClosingExecutes(t: Tables, id: string, txids: set<string>, at: int)
    requires RowsSound(t) && id in t.payments
    ensures Execute(t, [DeleteNotIn(id, txids), Refresh(id, at)]).result.Ok?
  {
    var cleaning, refreshing := DeleteNotIn(id, txids), Refresh(id, at);
    assert [cleaning, refreshing][1..] == [refreshing];
    DeleteKeepsRows(t, id, txids);
    var u := DeleteTransactionsNotIn(t, id, txids).tables;
    RefreshSucceeds(u, id, at);
    ExecuteOne(u, refreshing);
  }

  // ---------- What one payment's steps touch ----------

  lemma {:induction false} RowRunFrame(t: Tables, steps: seq<Step>, id: string)
    requires id in t.payments && forall s :: s in steps ==> TouchesRows(s, id)
    ensures var u := Run(t, steps);
      && u == t.(transactions := u.transactions)
      && RowsOf(u, id) == FoldRows(RowsOf(t, id), steps)
      && forall q :: q != id ==> RowsOf(u, q) == RowsOf(t, q)
    decreases |steps|
  {
    if steps != [] {
      var s := steps[0];
      assert s in steps;
      RowsAfterStep(t, s, id);
      RowStepFrame(t, s, id);
      RowRunFrame(Apply(t, s), steps[1..], id);
    }
  }

  lemma RowStepFrame(t: Tables, s: Step, id: string)
    requires TouchesRows(s, id)
    ensures var u := Apply(t, s);
      u == t.(transactions := u.transactions) && forall q :: q != id ==> RowsOf(u, q) == RowsOf(t, q)
  {
  }

  lemma RowStepsTouch(id: string, r: Reading, at: int)
    requires ReadableHistory(r)
    ensures forall s :: s in StepsOf(id, r, at) ==> TouchesRows(s, id)
  {
    ReconcileMakesChainSteps(id, r, at);
  }

  // ---------- Caught up ----------

  predicate SameObservations(rows: Rows, rows': Rows) {
    && rows.Keys == rows'.Keys
    && forall k :: k in rows ==> rows'[k] == rows[k].(updatedAt := rows'[k].updatedAt)
  }

  ghost predicate Current(t: Tables, id: string, now: int) {
    id in t.payments && EvaluatePayment(t, id, now).Ok? && Agrees(t.payments[id], EvaluatePayment(t, id, now).value)
  }

  /** Rows converged on the history by time `at`, and the stored payment row says what they amount to. */
  ghost predicate CaughtUp(t: Tables, id: string, history: seq<HistoryEntry>, chain: Chain, at: int) {
    && Current(t, id, at)
    && Converged(RowsOf(t, id), Reads(t, id, history, chain))
    && AllSeenBy(RowsOf(t, id), at)
  }

  lemma SameObservationsSameEvaluation(t: Tables, u: Tables, id: string, now: int)
    requires id in t.payments && id in u.payments && u.payments[id] == t.payments[id] && u.tip == t.tip
    requires SameObservations(RowsOf(t, id), RowsOf(u, id))
    ensures EvaluatePayment(u, id, now) == EvaluatePayment(t, id, now)
  {
    var w := t.payments[id].Window();
    assert Counted(RowsOf(u, id), w) == Counted(RowsOf(t, id), w);
  }

  lemma CaughtUpFrame(t: Tables, u: Tables, id: string, history: seq<HistoryEntry>, chain: Chain, at: int)
    requires CaughtUp(t, id, history, chain, at)
    requires id in u.payments && u.payments[id] == t.payments[id] && u.tip == t.tip && u.baselines == t.baselines
    requires SameObservations(RowsOf(t, id), RowsOf(u, id))
    ensures CaughtUp(u, id, history, chain, at)
  {
    SameObservationsSameEvaluation(t, u, id, at);
    assert Reads(u, id, history, chain) == Reads(t, id, history, chain);
    RowsFrame(RowsOf(t, id), RowsOf(u, id), Reads(t, id, history, chain), at);
  }

  ghost predicate AllSeenBy(rows: Rows, at: int) {
    forall k :: k in rows ==> rows[k].firstSeen.Some? && rows[k].firstSeen.value <= at
  }

  lemma RowsFrame(rows: Rows, rows': Rows, r: Reading, at: int)
    requires SameObservations(rows, rows') && Converged(rows, r) && AllSeenBy(rows, at)
    ensures Converged(rows', r) && AllSeenBy(rows', at)
  {
    assert forall k :: k in rows' <==> k in rows;
  }

  /** The tables between a payment's row steps and its refresh. */
  ghost function AfterRows(t: Tables, id: string, history: seq<HistoryEntry>, chain: Chain, at: int): Tables
    requires id in t.payments
  {
    Run(t, StepsOf(id, Reads(t, id, history, chain), at))
  }

  lemma PaymentStepsSplit(t: Tables, id: string, history: seq<HistoryEntry>, chain: Chain, at: int)
    requires id in t.payments && ReadableHistory(Reads(t, id, history, chain))
    ensures var u, t' := AfterRows(t, id, history, chain, at), Run(t, PaymentSteps(t, id, history, chain, at));
      && u == t.(transactions := u.transactions)
      && RowsOf(u, id) == FoldRows(RowsOf(t, id), StepsOf(id, Reads(t, id, history, chain), at))
      && (forall q :: q != id ==> RowsOf(u, q) == RowsOf(t, q))
      && t' == RefreshPayment(u, id, at).tables
      && t'.transactions == u.transactions && t'.tip == t.tip && t'.baselines == t.baselines
      && t'.payments.Keys == t.payments.Keys
      && (forall q :: q in t.payments && q != id ==> t'.payments[q] == t.payments[q])
  {
    var r := Reads(t, id, history, chain);
    RowStepsTouch(id, r, at);
    RowRunFrame(t, StepsOf(id, r, at), id);
    RunThen(t, StepsOf(id, r, at), Refresh(id, at));
    RefreshFrame(AfterRows(t, id, history, chain, at), id, at);
  }

  lemma RefreshFrame(t: Tables, id: string, at: int)
    requires id in t.payments
    ensures var t' := RefreshPayment(t, id, at).tables;
      && t'.transactions == t.transactions && t'.tip == t.tip && t'.baselines == t.baselines
      && t'.payments.Keys == t.payments.Keys
      && (forall q :: q in t.payments && q != id ==> t'.payments[q] == t.payments[q])
  {
    RefreshAnatomy(t, id, at);
  }

  /** One reconcile brings a payment up to date. */
  lemma ReconcileCatchesUp(t: Tables, id: string, history: seq<HistoryEntry>, chain: Chain, at: int)
    requires RowsSound(t) && id in t.payments
    requires ReadableHistory(Reads(t, id, history, chain)) && FromChain(RowsOf(t, id), Reads(t, id, history, chain))
    ensures CaughtUp(Run(t, PaymentSteps(t, id, history, chain, at)), id, history, chain, at)
  {
    var r := Reads(t, id, history, chain);
    var u, t' := AfterRows(t, id, history, chain, at), Run(t, PaymentSteps(t, id, history, chain, at));
    PaymentStepsSplit(t, id, history, chain, at);
    RowStepsConverge(RowsOf(t, id), id, r, at);
    RunRowsSound(t, StepsOf(id, r, at));
    RefreshKeepsTerms(u, id, at);
    assert Reads(t', id, history, chain) == r;
  }

  lemma RefreshKeepsTerms(t: Tables, id: string, at: int)
    requires RowsSound(t) && id in t.payments
    ensures var t' := RefreshPayment(t, id, at).tables;
      && Current(t', id, at) && SameTerms(t.payments[id], t'.payments[id])
      && RowsOf(t', id) == RowsOf(t, id) && BaselineOf(t', id) == BaselineOf(t, id)
  {
    RefreshSucceeds(t, id, at);
    RefreshStores(t, id, at);
    RefreshIsCurrent(t, id, at);
    RefreshFrame(t, id, at);
  }

  lemma RefreshIsCurrent(t: Tables, id: string, now: int)
    requires id in t.payments && EvaluatePayment(t, id, now).Ok?
    ensures Current(RefreshPayment(t, id, now).tables, id, now)
    ensures EvaluatePayment(RefreshPayment(t, id, now).tables, id, now) == EvaluatePayment(t, id, now)
  {
    RefreshStores(t, id, now);
    var t' := RefreshPayment(t, id, now).tables;
    assert RowsOf(t', id) == RowsOf(t, id);
    assert t'.payments[id].Window() == t.payments[id].Window();
  }

  // ---------- All payments of a script hash ----------

  ghost predicate Distinct(ids: seq<string>) {
    forall i, j :: 0 <= i < j < |ids| ==> ids[i] != ids[j]
  }

  /** The tables and chain a reconcile of these payments may start from. */
  ghost predicate Reconcilable(t: Tables, ids: seq<string>, history: seq<HistoryEntry>, chain: Chain) {
    && RowsSound(t) && Distinct(ids)
    && forall i :: 0 <= i < |ids| ==>
         && ids[i] in t.payments
         && ReadableHistory(Reads(t, ids[i], history, chain))
         && FromChain(RowsOf(t, ids[i]), Reads(t, ids[i], history, chain))
  }

  /** A pass leaves payments it does not reconcile, and the chain tip, as they were. */
  ghost predicate PassFrame(t: Tables, u: Tables) {
    RowsSound(u) && u.tip == t.tip && u.baselines == t.baselines && u.payments.Keys == t.payments.Keys
  }

  ghost predicate Skipped(t: Tables, u: Tables, q: string) {
    q in t.payments && q in u.payments && u.payments[q] == t.payments[q] && RowsOf(u, q) == RowsOf(t, q)
  }

  lemma OnePayment(t: Tables, id: string, history: seq<HistoryEntry>, chain: Chain, at: int)
    requires RowsSound(t) && id in t.payments
    requires ReadableHistory(Reads(t, id, history, chain)) && FromChain(RowsOf(t, id), Reads(t, id, history, chain))
    ensures var u := Run(t, PaymentSteps(t, id, history, chain, at));
      && Execute(t, PaymentSteps(t, id, history, chain, at)).result.Ok?
      && PassFrame(t, u) && CaughtUp(u, id, history, chain, at)
      && forall q :: q in t.payments && q != id ==> Skipped(t, u, q)
  {
    ReconcileExecutes(t, id, history, chain, at);
    ReconcileCatchesUp(t, id, history, chain, at);
    PaymentStepsSplit(t, id, history, chain, at);
    RunRowsSound(t, PaymentSteps(t, id, history, chain, at));
  }

  /** What the first payments' pass leaves for the last one. */
  lemma LastOf(t: Tables, u: Tables, id: string, history: seq<HistoryEntry>, chain: Chain, at: int, done: seq<Step>)
    requires id in t.payments && Execute(t, done).result.Ok? && u == Run(t, done)
    requires PassFrame(t, u) && Skipped(t, u, id)
    ensures id in u.payments && Reads(u, id, history, chain) == Reads(t, id, history, chain)
    ensures Run(t, done + PaymentSteps(t, id, history, chain, at)) == Run(u, PaymentSteps(u, id, history, chain, at))
    ensures Execute(t, done + PaymentSteps(t, id, history, chain, at))
            == Execute(u, PaymentSteps(u, id, history, chain, at))
  {
    ExecuteIsRun(t, done);
    RunConcat(t, done, PaymentSteps(t, id, history, chain, at));
    ExecuteConcat(t, done, PaymentSteps(t, id, history, chain, at));
  }

  lemma {:induction false} PassExecutes(t: Tables, ids: seq<string>, history: seq<HistoryEntry>, chain: Chain, at: int,
                                        q: string)
    requires Reconcilable(t, ids, history, chain)
    ensures var u := Run(t, ReconcileSteps(t, ids, history, chain, at));
      && Execute(t, ReconcileSteps(t, ids, history, chain, at)).result.Ok?
      && PassFrame(t, u)
      && (q in t.payments && q !in ids ==> Skipped(t, u, q))
    decreases |ids|
  {
    if ids != [] {
      var n := |ids| - 1;
      var front, id := ids[..n], ids[n];
      var done := ReconcileSteps(t, front, history, chain, at);
      var u := Run(t, done);
      ReconcilableFront(t, ids, history, chain);
      PassExecutes(t, front, history, chain, at, id);
      PassExecutes(t, front, history, chain, at, q);
      LastOf(t, u, id, history, chain, at, done);
      OnePayment(u, id, history, chain, at);
    }
  }

  lemma ReconcilableFront(t: Tables, ids: seq<string>, history: seq<HistoryEntry>, chain: Chain)
    requires Reconcilable(t, ids, history, chain) && ids != []
    ensures Reconcilable(t, ids[..|ids| - 1], history, chain) && ids[|ids| - 1] !in ids[..|ids| - 1]
  {
  }

  /** The last payment of a pass is reconciled from tables that are still fit for it. */
  lemma PassStep(t: Tables, ids: seq<string>, history: seq<HistoryEntry>, chain: Chain, at: int)
    requires Reconcilable(t, ids, history, chain) && ids != []
    ensures var front, id := ids[..|ids| - 1], ids[|ids| - 1];
      var u := Run(t, ReconcileSteps(t, front, history, chain, at));
      && RowsSound(u) && id in u.payments
      && ReadableHistory(Reads(u, id, history, chain)) && FromChain(RowsOf(u, id), Reads(u, id, history, chain))
      && Run(t, ReconcileSteps(t, ids, history, chain, at)) == Run(u, PaymentSteps(u, id, history, chain, at))
  {
    var front, id := ids[..|ids| - 1], ids[|ids| - 1];
    var done := ReconcileSteps(t, front, history, chain, at);
    ReconcilableFront(t, ids, history, chain);
    PassExecutes(t, front, history, chain, at, id);
    LastOf(t, Run(t, done), id, history, chain, at, done);
  }

  lemma {:induction false} PassCatchesUp(t: Tables, ids: seq<string>, history: seq<HistoryEntry>, chain: Chain, at: int,
                                         q: string)
    requires Reconcilable(t, ids, history, chain) && q in ids
    ensures CaughtUp(Run(t, ReconcileSteps(t, ids, history, chain, at)), q, history, chain, at)
    decreases |ids|
  {
    var front, id := ids[..|ids| - 1], ids[|ids| - 1];
    PassStep(t, ids, history, chain, at);
    var u := Run(t, ReconcileSteps(t, front, history, chain, at));
    if q == id {
      OnePayment(u, id, history, chain, at);
    } else {
      ReconcilableFront(t, ids, history, chain);
      PassCatchesUp(t, front, history, chain, at, q);
      StaysCaughtUp(u, id, q, history, chain, at);
    }
  }

  lemma StaysCaughtUp(t: Tables, id: string, q: string, history: seq<HistoryEntry>, chain: Chain, at: int)
    requires RowsSound(t) && id in t.payments && q != id && CaughtUp(t, q, history, chain, at)
    requires ReadableHistory(Reads(t, id, history, chain)) && FromChain(RowsOf(t, id), Reads(t, id, history, chain))
    ensures CaughtUp(Run(t, PaymentSteps(t, id, history, chain, at)), q, history, chain, at)
  {
    OnePayment(t, id, history, chain, at);
    var u := Run(t, PaymentSteps(t, id, history, chain, at));
    assert Skipped(t, u, q);
    CaughtUpFrame(t, u, q, history, chain, at);
  }

  /** A reconcile of a script hash never raises on readable transactions and leaves every one of its
      payments caught up: rows exactly as the chain pays them, stored totals and status exactly as the
      evaluator finds them. */
  lemma ReconcileAll(t: Tables, ids: seq<string>, history: seq<HistoryEntry>, chain: Chain, at: int)
    requires Reconcilable(t, ids, history, chain)
    ensures var o := Execute(t, ReconcileSteps(t, ids, history, chain, at));
      o.result.Ok? && forall id :: id in ids ==> CaughtUp(o.tables, id, history, chain, at)
  {
    PassExecutes(t, ids, history, chain, at, "");
    ExecuteIsRun(t, ReconcileSteps(t, ids, history, chain, at));
    forall id | id in ids
      ensures CaughtUp(Run(t, ReconcileSteps(t, ids, history, chain, at)), id, history, chain, at)
    {
      PassCatchesUp(t, ids, history, chain, at, id);
    }
  }

  /** On a reachable database, when the history is readable for every payment of the script hash, a notification
      for a subscribed script hash ends with all its payments caught up; any other changes nothing. */
  method ProcessScripthash(watcher: PaymentWatcher, subscribed: set<string>, scripthash: string,
                           history: seq<HistoryEntry>, chain: Chain, at: int)
    returns (r: Result<(), StoreError>)
    requires RowsSound(watcher.store.View()) && AllFromChain(watcher.store.View(), chain)
    requires forall id :: id in watcher.store.payments && watcher.store.payments[id].scripthash == scripthash ==>
               ReadableHistory(Reads(watcher.store.View(), id, history, chain))
    modifies watcher.store
    ensures r.Ok?
    ensures scripthash !in subscribed ==> watcher.store.View() == old(watcher.store.View())
    ensures scripthash in subscribed ==>
              forall id :: id in old(watcher.store.payments) && old(watcher.store.payments)[id].scripthash == scripthash ==>
                CaughtUp(watcher.store.View(), id, history, chain, at)
  {
    r := Ok(());
    if scripthash in subscribed {
      ghost var t := watcher.store.View();
      var ids;
      r, ids := watcher.ReconcileScripthash(scripthash, history, chain, at);
      ReconcileListed(t, scripthash, ids, history, chain, at);
    }
  }

  lemma ReconcileListed(t: Tables, scripthash: string, ids: seq<string>, history: seq<HistoryEntry>, chain: Chain, at: int)
    requires RowsSound(t) && AllFromChain(t, chain) && ListsPayments(t, scripthash, ids)
    requires forall id :: id in t.payments && t.payments[id].scripthash == scripthash ==>
               ReadableHistory(Reads(t, id, history, chain))
    ensures var o := Execute(t, ReconcileSteps(t, ids, history, chain, at));
      && o.result.Ok?
      && forall id :: id in t.payments && t.payments[id].scripthash == scripthash ==>
           CaughtUp(o.tables, id, history, chain, at)
  {
    forall i | 0 <= i < |ids|
      ensures FromChain(RowsOf(t, ids[i]), Reads(t, ids[i], history, chain))
    {
      assert FromChain(RowsOf(t, ids[i]), Reads(t, ids[i], [], chain));
    }
    assert Reconcilable(t, ids, history, chain);
    ReconcileAll(t, ids, history, chain, at);
  }

  // ---------- The second time ----------

  /** Nothing changed but the time rows were last written. */
  ghost predicate Quiet(t: Tables, u: Tables) {
    && u == t.(transactions := u.transactions)
    && forall q :: SameObservations(RowsOf(t, q), RowsOf(u, q))
  }

  predicate SameSide(p: Payment, a: int, b: int) {
    a > p.expiresAt <==> b > p.expiresAt
  }

  lemma CaughtUpIsFromChain(t: Tables, id: string, history: seq<HistoryEntry>, chain: Chain, at: int)
    requires CaughtUp(t, id, history, chain, at)
    ensures FromChain(RowsOf(t, id), Reads(t, id, history, chain))
  {
    assert forall k :: k in RowsOf(t, id) ==> Reported(Reads(t, id, history, chain), k);
  }

  lemma RereadingRows(rows: Rows, id: string, r: Reading, at: int, later: int)
    requires ReadableHistory(r) && FromChain(rows, r) && Converged(rows, r) && at <= later
    requires forall k :: k in rows ==> rows[k].firstSeen.Some? && rows[k].firstSeen.value <= at
    ensures SameObservations(rows, FoldRows(rows, StepsOf(id, r, later)))
  {
    var rows' := FoldRows(rows, StepsOf(id, r, later));
    RowStepsConverge(rows, id, r, later);
    ConvergedDetermines(rows, rows', r);
    forall k | k in rows
      ensures rows'[k] == rows[k].(updatedAt := rows'[k].updatedAt)
    {
      assert IsReport(rows, rows'[k], k, r, later);
    }
  }

  lemma SecondReconcile(t: Tables, id: string, history: seq<HistoryEntry>, chain: Chain, at: int, later: int)
    requires CaughtUp(t, id, history, chain, at) && ReadableHistory(Reads(t, id, history, chain))
    requires at <= later && SameSide(t.payments[id], at, later)
    ensures Quiet(t, Run(t, PaymentSteps(t, id, history, chain, later)))
  {
    var r := Reads(t, id, history, chain);
    CaughtUpIsFromChain(t, id, history, chain, at);
    PaymentStepsSplit(t, id, history, chain, later);
    RereadingRows(RowsOf(t, id), id, r, at, later);
    var u := AfterRows(t, id, history, chain, later);
    SameObservationsSameEvaluation(t, u, id, later);
    assert EvaluatePayment(t, id, later).Ok? && Agrees(u.payments[id], EvaluatePayment(u, id, later).value);
    assert RefreshPayment(u, id, later).tables == u;
    forall q
      ensures SameObservations(RowsOf(t, q), RowsOf(u, q))
    {
    }
  }

  ghost predicate Repeatable(t: Tables, id: string, history: seq<HistoryEntry>, chain: Chain, at: int, later: int) {
    && CaughtUp(t, id, history, chain, at)
    && ReadableHistory(Reads(t, id, history, chain))
    && SameSide(t.payments[id], at, later)
  }

  lemma RepeatOne(t: Tables, u: Tables, id: string, history: seq<HistoryEntry>, chain: Chain, at: int, later: int)
    requires at <= later && Repeatable(t, id, history, chain, at, later) && Quiet(t, u)
    ensures Quiet(t, Run(u, PaymentSteps(t, id, history, chain, later)))
  {
    assert SameObservations(RowsOf(t, id), RowsOf(u, id));
    CaughtUpFrame(t, u, id, history, chain, at);
    assert PaymentSteps(u, id, history, chain, later) == PaymentSteps(t, id, history, chain, later);
    SecondReconcile(u, id, history, chain, at, later);
    QuietTransitive(t, u, Run(u, PaymentSteps(u, id, history, chain, later)));
  }

  /** Reconciling a second time with the same history and tip, later but on the same side of every
      deadline, leaves every height, value and first-seen time, every payment row and version, every
      event and every delivery as it was. */
  lemma {:induction false} ReconcileIdempotent(t: Tables, ids: seq<string>, history: seq<HistoryEntry>, chain: Chain,
                                               at: int, later: int)
    requires at <= later
    requires forall i :: 0 <= i < |ids| ==> ids[i] in t.payments && Repeatable(t, ids[i], history, chain, at, later)
    ensures Quiet(t, Run(t, ReconcileSteps(t, ids, history, chain, later)))
    decreases |ids|
  {
    if ids != [] {
      var front, id := ids[..|ids| - 1], ids[|ids| - 1];
      ReconcileIdempotent(t, front, history, chain, at, later);
      var done := ReconcileSteps(t, front, history, chain, later);
      RunConcat(t, done, PaymentSteps(t, id, history, chain, later));
      RepeatOne(t, Run(t, done), id, history, chain, at, later);
    }
  }

  /** So of two reconciles in a row the second changes nothing but the times rows were last written. */
  lemma SecondPassIsQuiet(t: Tables, ids: seq<string>, history: seq<HistoryEntry>, chain: Chain, at: int, later: int)
    requires Reconcilable(t, ids, history, chain) && at <= later
    requires forall id :: id in ids ==> id in t.payments && SameSide(t.payments[id], at, later)
    ensures forall i :: 0 <= i < |ids| ==> ids[i] in Run(t, ReconcileSteps(t, ids, history, chain, at)).payments
    ensures var u := Run(t, ReconcileSteps(t, ids, history, chain, at));
      Quiet(u, Run(u, ReconcileSteps(u, ids, history, chain, later)))
  {
    var u := Run(t, ReconcileSteps(t, ids, history, chain, at));
    ReconcileAll(t, ids, history, chain, at);
    ExecuteIsRun(t, ReconcileSteps(t, ids, history, chain, at));
    RunPersists(t, ReconcileSteps(t, ids, history, chain, at));
    forall i | 0 <= i < |ids|
      ensures ids[i] in u.payments && Repeatable(u, ids[i], history, chain, at, later)
    {
      assert ids[i] in ids && CaughtUp(u, ids[i], history, chain, at);
      assert Reads(u, ids[i], history, chain) == Reads(t, ids[i], history, chain);
    }
    ReconcileIdempotent(u, ids, history, chain, at, later);
  }

  lemma QuietTransitive(t: Tables, u: Tables, v: Tables)
    requires Quiet(t, u) && Quiet(u, v)
    ensures Quiet(t, v)
  {
    forall q
      ensures SameObservations(RowsOf(t, q), RowsOf(v, q))
    {
      assert SameObservations(RowsOf(t, q), RowsOf(u, q)) && SameObservations(RowsOf(u, q), RowsOf(v, q));
    }
  }
}
