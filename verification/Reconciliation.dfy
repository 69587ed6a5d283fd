/**
 What a completed reconcile establishes (backend/app/services/payment_watcher.py): the recorded rows of a
 payment become exactly what the chain pays it, whatever was recorded or missed before and whatever
 other processes did meanwhile; and doing it again changes nothing.
 */
module Reconciliation {
  import opened Wrappers
  import opened PaymentState
  import opened PaymentTables
  import opened StoreInvariants
  import opened Creation
  import opened PaymentRows
  import opened PaymentWatcher

  // ---------- What the chain says ----------

  /** Outpoint `k` is a positive output of `value` to the address. */
  ghost predicate PaysOut(chain: Chain, address: string, k: Outpoint, value: int) {
    IsTxid(k.txid) && chain(k.txid).Some? && exists i: nat :: Credits(chain(k.txid).value, i, address, k.vout, value)
  }

  /** A transaction none of whose outputs to the address is spoilt, and no two of which share an index. */
  ghost predicate Readable(chain: Chain, address: string, txid: string) {
    && IsTxid(txid) && chain(txid).Some?
    && var outputs := chain(txid).value;
       && (forall i: nat :: !Spoils(outputs, i, address))
       && (forall i: nat, j: nat, vout, v, v' | Credits(outputs, i, address, vout, v) && Credits(outputs, j, address, vout, v') ::
             i == j)
  }

  /** Everything a reconcile of one payment reads. */
  datatype Reading = Reading(address: string, baseline: set<string>, chain: Chain, history: seq<HistoryEntry>)

  function LastHeight(history: seq<HistoryEntry>, txid: string): int {
    if history == [] then 0
    else if history[|history| - 1].txid == txid then history[|history| - 1].height
    else LastHeight(history[..|history| - 1], txid)
  }

  ghost predicate ReadableHistory(r: Reading) {
    forall i :: 0 <= i < |r.history| && r.history[i].txid !in r.baseline ==>
      Readable(r.chain, r.address, r.history[i].txid)
  }

  /** The history lists the outpoint as a new positive output to the address. */
  ghost predicate Reported(r: Reading, k: Outpoint) {
    k.txid in HistoryTxids(r.history) && k.txid !in r.baseline && exists value :: PaysOut(r.chain, r.address, k, value)
  }

  /** Rows that only earlier reconciles of the same payment can have written. */
  ghost predicate FromChain(rows: Rows, r: Reading) {
    forall k :: k in rows ==> k.txid !in r.baseline && PaysOut(r.chain, r.address, k, rows[k].value)
  }

  function SeenBy(rows: Rows, k: Outpoint, at: int): Option<int> {
    EarlierSeen(if k in rows then rows[k].firstSeen else None, Some(at))
  }

  /** The row a report at time `at` leaves for an outpoint. */
  ghost predicate IsReport(before: Rows, row: TxRow, k: Outpoint, r: Reading, at: int) {
    && PaysOut(r.chain, r.address, k, row.value)
    && row.height == LastHeight(r.history, k.txid)
    && row.firstSeen == SeenBy(before, k, at)
    && row.updatedAt == at
  }

  lemma OneValue(chain: Chain, address: string, k: Outpoint, v: int, v': int)
    requires Readable(chain, address, k.txid) && PaysOut(chain, address, k, v) && PaysOut(chain, address, k, v')
    ensures v == v'
  {
    var outputs := chain(k.txid).value;
    var i: nat :| Credits(outputs, i, address, k.vout, v);
    var j: nat :| Credits(outputs, j, address, k.vout, v');
  }

  // ---------- One transaction ----------

  /** Observations of one transaction at one height and time, each the payout of its outpoint. */
  ghost predicate Reports(observations: seq<Observation>, r: Reading, entry: HistoryEntry, at: int) {
    forall o :: o in observations ==>
      && o == Observation(entry.txid, o.vout, o.value, entry.height, Some(at))
      && o.vout >= 0 && o.value > 0
      && PaysOut(r.chain, r.address, o.Key(), o.value)
  }

  lemma MatchedReports(r: Reading, entry: HistoryEntry, at: int)
    requires Readable(r.chain, r.address, entry.txid)
    ensures var m := MatchTransaction(r.chain(entry.txid), r.address, entry.height, entry.txid, Some(at));
      && m.Ok? && Reports(m.value, r, entry, at)
      && forall k: Outpoint, value :: k.txid == entry.txid && PaysOut(r.chain, r.address, k, value) ==>
           Observation(k.txid, k.vout, value, entry.height, Some(at)) in m.value
  {
    var outputs := r.chain(entry.txid).value;
    MatchMeaning(outputs, r.address, entry.height, entry.txid, Some(at));
    var m := MatchTransaction(r.chain(entry.txid), r.address, entry.height, entry.txid, Some(at));
    forall o | o in m.value
      ensures o == Observation(entry.txid, o.vout, o.value, entry.height, Some(at)) && o.vout >= 0 && o.value > 0
      ensures PaysOut(r.chain, r.address, o.Key(), o.value)
    {
      var i: nat :| Credits(outputs, i, r.address, o.vout, o.value);
    }
    forall k: Outpoint, value | k.txid == entry.txid && PaysOut(r.chain, r.address, k, value)
      ensures Observation(k.txid, k.vout, value, entry.height, Some(at)) in m.value
    {
      var i: nat :| Credits(outputs, i, r.address, k.vout, value);
    }
  }

  ghost predicate Unchanged(rows: Rows, rows': Rows, k: Outpoint) {
    if k in rows then k in rows' && rows'[k] == rows[k] else k !in rows'
  }

  lemma {:induction false} UpsertFold(rows: Rows, observations: seq<Observation>, id: string, r: Reading,
                                      entry: HistoryEntry, at: int)
    requires Readable(r.chain, r.address, entry.txid) && Reports(observations, r, entry, at)
    requires forall k :: k in rows && k.txid == entry.txid ==> PaysOut(r.chain, r.address, k, rows[k].value)
    ensures var rows' := FoldRows(rows, UpsertSteps(id, observations, at));
      && (forall o :: o in observations ==>
            o.Key() in rows' && rows'[o.Key()] == TxRow(o.value, entry.height, SeenBy(rows, o.Key(), at), at))
      && (forall k :: (forall o :: o in observations ==> o.Key() != k) ==> Unchanged(rows, rows', k))
    decreases |observations|
  {
    if observations == [] {
      assert UpsertSteps(id, observations, at) == [];
    } else {
      var o, rest := observations[0], observations[1..];
      assert o in observations && forall q :: q in rest ==> q in observations;
      if o.Key() in rows {
        OneValue(r.chain, r.address, o.Key(), o.value, rows[o.Key()].value);
      }
      var next := UpsertRow(rows, o, at);
      assert UpsertSteps(id, observations, at)[0] == Upsert(id, o, at);
      assert UpsertSteps(id, observations, at)[1..] == UpsertSteps(id, rest, at);
      UpsertFold(next, rest, id, r, entry, at);
      var rows' := FoldRows(rows, UpsertSteps(id, observations, at));
      assert rows' == FoldRows(next, UpsertSteps(id, rest, at));
      forall q | q in observations
        ensures q.Key() in rows' && rows'[q.Key()] == TxRow(q.value, entry.height, SeenBy(rows, q.Key(), at), at)
      {
        if q in rest {
          assert SeenBy(next, q.Key(), at) == SeenBy(rows, q.Key(), at);
        } else {
          assert q == o;
          forall q' | q' in rest
            ensures q'.Key() == o.Key() ==> q' == o
          {
            if q'.Key() == o.Key() {
              OneValue(r.chain, r.address, o.Key(), o.value, q'.value);
            }
          }
          assert Unchanged(next, rows', o.Key());
        }
      }
      forall k | forall q :: q in observations ==> q.Key() != k
        ensures Unchanged(rows, rows', k)
      {
        assert k != o.Key() && forall q :: q in rest ==> q.Key() != k;
        assert Unchanged(next, rows', k);
      }
    }
  }

  // ---------- The whole history ----------

  function Prefix(r: Reading, n: nat): Reading
    requires n <= |r.history|
  {
    r.(history := r.history[..n])
  }

  /** After the first part of a history: what it reports is recorded, the rest is as before. */
  ghost predicate Recorded(before: Rows, rows: Rows, r: Reading, at: int) {
    forall k :: if Reported(r, k) then k in rows && IsReport(before, rows[k], k, r, at) else Unchanged(before, rows, k)
  }

  lemma {:induction false} HistoryFold(rows: Rows, id: string, r: Reading, at: int)
    requires ReadableHistory(r) && FromChain(rows, r)
    ensures Recorded(rows, FoldRows(rows, HistorySteps(id, r.address, r.baseline, r.history, r.chain, at)), r, at)
    decreases |r.history|
  {
    if r.history == [] {
      assert HistorySteps(id, r.address, r.baseline, r.history, r.chain, at) == [];
    } else {
      var n := |r.history| - 1;
      var front, entry := Prefix(r, n), r.history[n];
      assert ReadableHistory(front) && FromChain(rows, front);
      HistoryFold(rows, id, front, at);
      var done := HistorySteps(id, r.address, r.baseline, front.history, r.chain, at);
      var now := EntrySteps(id, r.address, r.baseline, entry, r.chain, at);
      FoldConcat(rows, done, now);
      EntryFold(rows, FoldRows(rows, done), id, r, at);
    }
  }

  lemma TxidsGrow(history: seq<HistoryEntry>, txid: string)
    requires history != []
    ensures var n := |history| - 1;
      txid in HistoryTxids(history) <==> txid in HistoryTxids(history[..n]) || txid == history[n].txid
  {
    var n := |history| - 1;
    if txid in HistoryTxids(history[..n]) {
      var i :| 0 <= i < n && history[..n][i].txid == txid;
      assert history[i].txid == txid;
    }
    if txid in HistoryTxids(history) {
      var i :| 0 <= i <= n && history[i].txid == txid;
      assert i < n ==> history[..n][i].txid == txid;
    }
  }

  lemma EntryFold(before: Rows, rows: Rows, id: string, r: Reading, at: int)
    requires r.history != [] && ReadableHistory(r) && FromChain(before, r)
    requires Recorded(before, rows, Prefix(r, |r.history| - 1), at)
    ensures var entry := r.history[|r.history| - 1];
      Recorded(before, FoldRows(rows, EntrySteps(id, r.address, r.baseline, entry, r.chain, at)), r, at)
  {
    var n := |r.history| - 1;
    var front, entry := Prefix(r, n), r.history[n];
    var rows' := FoldRows(rows, EntrySteps(id, r.address, r.baseline, entry, r.chain, at));
    if entry.txid in r.baseline {
      assert rows' == rows;
      forall k
        ensures if Reported(r, k) then k in rows && IsReport(before, rows[k], k, r, at) else Unchanged(before, rows, k)
      {
        TxidsGrow(r.history, k.txid);
        assert Reported(r, k) <==> Reported(front, k);
        assert if Reported(front, k) then k in rows && IsReport(before, rows[k], k, front, at) else Unchanged(before, rows, k);
      }
    } else {
      MatchedReports(r, entry, at);
      var observations := MatchTransaction(r.chain(entry.txid), r.address, entry.height, entry.txid, Some(at)).value;
      forall k | k in rows && k.txid == entry.txid
        ensures PaysOut(r.chain, r.address, k, rows[k].value)
      {
        RecordedRowPays(before, rows, front, at, k);
      }
      UpsertFold(rows, observations, id, r, entry, at);
      forall k
        ensures if Reported(r, k) then k in rows' && IsReport(before, rows'[k], k, r, at) else Unchanged(before, rows', k)
      {
        RecordedEntry(before, rows, rows', observations, r, at, k);
      }
    }
  }

  lemma RecordedRowPays(before: Rows, rows: Rows, front: Reading, at: int, k: Outpoint)
    requires Recorded(before, rows, front, at) && FromChain(before, front) && k in rows
    ensures PaysOut(front.chain, front.address, k, rows[k].value)
  {
    assert if Reported(front, k) then k in rows && IsReport(before, rows[k], k, front, at) else Unchanged(before, rows, k);
  }

  lemma RecordedEntry(before: Rows, rows: Rows, rows': Rows, observations: seq<Observation>, r: Reading, at: int, k: Outpoint)
    requires r.history != []
    requires Recorded(before, rows, Prefix(r, |r.history| - 1), at)
    requires var entry := r.history[|r.history| - 1];
      && entry.txid !in r.baseline && Readable(r.chain, r.address, entry.txid) && Reports(observations, r, entry, at)
      && (forall q: Outpoint, value :: q.txid == entry.txid && PaysOut(r.chain, r.address, q, value) ==>
            Observation(q.txid, q.vout, value, entry.height, Some(at)) in observations)
      && (forall o :: o in observations ==>
            o.Key() in rows' && rows'[o.Key()] == TxRow(o.value, entry.height, SeenBy(rows, o.Key(), at), at))
      && (forall q :: (forall o :: o in observations ==> o.Key() != q) ==> Unchanged(rows, rows', q))
    ensures if Reported(r, k) then k in rows' && IsReport(before, rows'[k], k, r, at) else Unchanged(before, rows', k)
  {
    var n := |r.history| - 1;
    var front, entry := Prefix(r, n), r.history[n];
    TxidsGrow(r.history, k.txid);
    assert if Reported(front, k) then k in rows && IsReport(before, rows[k], k, front, at) else Unchanged(before, rows, k);
    if k.txid == entry.txid && exists value :: PaysOut(r.chain, r.address, k, value) {
      var value :| PaysOut(r.chain, r.address, k, value);
      var o := Observation(k.txid, k.vout, value, entry.height, Some(at));
      assert o in observations && o.Key() == k;
      assert Reported(r, k);
      assert SeenBy(rows, k, at) == SeenBy(before, k, at);
    } else {
      assert forall o :: o in observations ==> o.Key() != k;
      assert Unchanged(rows, rows', k);
      assert Reported(r, k) <==> Reported(front, k);
    }
  }

  // ---------- Convergence ----------

  /** The rows are exactly what the history pays: every reported outpoint with its chain value and its
      last listed height, and no other. */
  ghost predicate Converged(rows: Rows, r: Reading) {
    && (forall k :: k in rows <==> Reported(r, k))
    && (forall k :: k in rows ==>
          PaysOut(r.chain, r.address, k, rows[k].value) && rows[k].height == LastHeight(r.history, k.txid))
  }

  function Reads(t: Tables, id: string, history: seq<HistoryEntry>, chain: Chain): Reading
    requires id in t.payments
  {
    Reading(t.payments[id].address, BaselineOf(t, id), chain, history)
  }

  function StepsOf(id: string, r: Reading, at: int): seq<Step> {
    RowSteps(id, r.address, r.baseline, r.history, r.chain, at)
  }

  lemma RowStepsConverge(rows: Rows, id: string, r: Reading, at: int)
    requires ReadableHistory(r) && FromChain(rows, r)
    ensures var rows' := FoldRows(rows, StepsOf(id, r, at));
      Converged(rows', r) && forall k :: k in rows' ==> IsReport(rows, rows'[k], k, r, at)
  {
    var reading := HistorySteps(id, r.address, r.baseline, r.history, r.chain, at);
    var cleaning := DeleteNotIn(id, HistoryTxids(r.history));
    HistoryFold(rows, id, r, at);
    FoldConcat(rows, reading, [cleaning]);
    assert [cleaning][1..] == [];
    var recorded := FoldRows(rows, reading);
    var rows' := FoldRows(rows, StepsOf(id, r, at));
    assert rows' == KeepRows(recorded, HistoryTxids(r.history));
    forall k
      ensures k in rows' <==> Reported(r, k)
      ensures k in rows' ==> IsReport(rows, rows'[k], k, r, at)
    {
      assert if Reported(r, k) then k in recorded && IsReport(rows, recorded[k], k, r, at) else Unchanged(rows, recorded, k);
    }
  }

  /** Whatever was recorded before and whatever other processes did in between, once the row steps of a
      reconcile have run the payment's rows are exactly the new positive outputs its address receives in
      the history, at their last heights; each keeps its earliest known time. */
  lemma ReconcileConverges(t: Tables, steps: seq<Step>, id: string, history: seq<HistoryEntry>, chain: Chain, at: int)
    requires id in t.payments
    requires var r := Reads(t, id, history, chain);
      ReadableHistory(r) && FromChain(RowsOf(t, id), r) && Own(steps, id) == StepsOf(id, r, at)
    ensures var r, rows' := Reads(t, id, history, chain), RowsOf(Run(t, steps), id);
      && Converged(rows', r)
      && forall k :: k in rows' ==> rows'[k].firstSeen == SeenBy(RowsOf(t, id), k, at)
  {
    RowsAfterRun(t, steps, id);
    RowStepsConverge(RowsOf(t, id), id, Reads(t, id, history, chain), at);
  }

  /** Converged rows do not depend on the past: two of them agree on outpoints, values and heights. */
  lemma ConvergedDetermines(rows: Rows, rows': Rows, r: Reading)
    requires ReadableHistory(r) && Converged(rows, r) && Converged(rows', r)
    ensures rows.Keys == rows'.Keys
    ensures forall k :: k in rows ==> rows[k].value == rows'[k].value && rows[k].height == rows'[k].height
  {
    assert forall k :: k in rows.Keys <==> k in rows'.Keys;
    forall k | k in rows
      ensures rows[k].value == rows'[k].value
    {
      assert Reported(r, k);
      ListedIsReadable(r, k);
      OneValue(r.chain, r.address, k, rows[k].value, rows'[k].value);
    }
  }

  lemma ListedIsReadable(r: Reading, k: Outpoint)
    requires ReadableHistory(r) && Reported(r, k)
    ensures Readable(r.chain, r.address, k.txid)
  {
    var i :| 0 <= i < |r.history| && r.history[i].txid == k.txid;
  }

  // ---------- Where the hypothesis on earlier rows comes from ----------

  /** An upsert for the payment reports an output of the chain outside its baseline, as every reconcile's
      upserts do, of whatever history and at whatever time. */
  ghost predicate ChainStep(s: Step, id: string, r: Reading) {
    s.Upsert? && s.paymentId == id ==> s.o.txid !in r.baseline && PaysOut(r.chain, r.address, s.o.Key(), s.o.value)
  }

  lemma {:induction false} RowsStayFromChain(rows: Rows, steps: seq<Step>, id: string, r: Reading)
    requires FromChain(rows, r) && forall i :: 0 <= i < |steps| ==> ChainStep(steps[i], id, r)
    ensures FromChain(FoldRows(rows, Own(steps, id)), r)
    decreases |steps|
  {
    if steps != [] {
      var s, rest := steps[0], steps[1..];
      if TouchesRows(s, id) {
        assert Own(steps, id)[1..] == Own(rest, id);
        assert FromChain(StepRows(rows, s), r);
        RowsStayFromChain(StepRows(rows, s), rest, id, r);
      } else {
        assert Own(steps, id) == Own(rest, id);
        RowsStayFromChain(rows, rest, id, r);
      }
    }
  }

  /** In every run whose upserts for the payment come from reconciles, its rows come from the chain: the
      hypothesis of `ReconcileConverges` holds of every state such a run reaches. */
  lemma ReachableRowsFromChain(t: Tables, steps: seq<Step>, id: string, r: Reading)
    requires id in t.payments && RowsOf(t, id) == map[]
    requires forall i :: 0 <= i < |steps| ==> ChainStep(steps[i], id, r)
    ensures FromChain(RowsOf(Run(t, steps), id), r)
  {
    RowsAfterRun(t, steps, id);
    RowsStayFromChain(map[], steps, id, r);
  }

  lemma MatchedPaysOut(r: Reading, entry: HistoryEntry, at: int)
    ensures var m := MatchTransaction(r.chain(entry.txid), r.address, entry.height, entry.txid, Some(at));
      m.Ok? ==> forall o :: o in m.value ==> o.txid == entry.txid && PaysOut(r.chain, r.address, o.Key(), o.value)
  {
    var m := MatchTransaction(r.chain(entry.txid), r.address, entry.height, entry.txid, Some(at));
    if m.Ok? {
      var outputs := r.chain(entry.txid).value;
      MatchMeaning(outputs, r.address, entry.height, entry.txid, Some(at));
      forall o | o in m.value
        ensures o.txid == entry.txid && PaysOut(r.chain, r.address, o.Key(), o.value)
      {
        var i: nat :| Credits(outputs, i, r.address, o.vout, o.value);
      }
    }
  }

  /** Whatever the history holds, malformed transactions included, a reconcile upserts only outputs that the
      chain pays the address and that are not in the baseline. */
  lemma {:induction false} ReconcileMakesChainSteps(id: string, r: Reading, at: int)
    ensures forall s :: s in HistorySteps(id, r.address, r.baseline, r.history, r.chain, at) ==>
              s.Upsert? && s.paymentId == id && ChainStep(s, id, r)
    decreases |r.history|
  {
    if r.history != [] {
      var n := |r.history| - 1;
      ReconcileMakesChainSteps(id, Prefix(r, n), at);
      forall s | s in EntrySteps(id, r.address, r.baseline, r.history[n], r.chain, at)
        ensures s.Upsert? && s.paymentId == id && ChainStep(s, id, r)
      {
        EntryMakesChainSteps(id, r, r.history[n], at, s);
      }
    }
  }

  lemma EntryMakesChainSteps(id: string, r: Reading, entry: HistoryEntry, at: int, s: Step)
    requires s in EntrySteps(id, r.address, r.baseline, entry, r.chain, at)
    ensures s.Upsert? && s.paymentId == id && ChainStep(s, id, r)
  {
    MatchedPaysOut(r, entry, at);
    var observations := MatchTransaction(r.chain(entry.txid), r.address, entry.height, entry.txid, Some(at)).value;
    var i :| 0 <= i < |observations| && s == Upsert(id, observations[i], at);
    assert observations[i] in observations;
  }

  /** Every payment's rows are outputs the chain pays its address, outside its baseline. */
  ghost predicate AllFromChain(t: Tables, chain: Chain) {
    forall id :: id in t.payments ==> FromChain(RowsOf(t, id), Reads(t, id, [], chain))
  }

  /** If the step is an upsert, it reports such an output of its payment. */
  ghost predicate ChainUpsert(t: Tables, s: Step, chain: Chain) {
    s.Upsert? && s.paymentId in t.payments ==> ChainStep(s, s.paymentId, Reads(t, s.paymentId, [], chain))
  }

  /** A reconcile's steps stay such upserts however long after its reading of the payment they are made. */
  lemma ReconcileUpsertsFromChain(t: Tables, u: Tables, id: string, history: seq<HistoryEntry>, chain: Chain, at: int,
                                  s: Step)
    requires id in t.payments && Persists(t, u) && s in PaymentSteps(t, id, history, chain, at)
    ensures ChainUpsert(u, s, chain)
  {
    var r := Reads(t, id, history, chain);
    ReconcileMakesChainSteps(id, r, at);
    assert SameTerms(t.payments[id], u.payments[id]) && BaselineOf(u, id) == BaselineOf(t, id);
    if s.Upsert? {
      assert s in HistorySteps(id, r.address, r.baseline, r.history, r.chain, at);
    }
  }

  lemma StepKeepsChain(t: Tables, s: Step, chain: Chain, id: string)
    requires RowsSound(t) && AllFromChain(t, chain) && ChainUpsert(t, s, chain) && id in Apply(t, s).payments
    ensures FromChain(RowsOf(Apply(t, s), id), Reads(Apply(t, s), id, [], chain))
  {
    if id in t.payments {
      StepPersists(t, s);
      assert SameTerms(t.payments[id], Apply(t, s).payments[id]);
      RowsAfterStep(t, s, id);
      var r := Reads(t, id, [], chain);
      assert FromChain(RowsOf(t, id), r);
      if TouchesRows(s, id) {
        StepRowsFromChain(RowsOf(t, id), s, id, r);
      }
    } else {
      NewPaymentHasNoRows(t, s, id);
    }
  }

  lemma StepRowsFromChain(rows: Rows, s: Step, id: string, r: Reading)
    requires FromChain(rows, r) && TouchesRows(s, id) && ChainStep(s, id, r)
    ensures FromChain(StepRows(rows, s), r)
  {
  }

  lemma NewPaymentHasNoRows(t: Tables, s: Step, id: string)
    requires RowsSound(t) && id !in t.payments && id in Apply(t, s).payments
    ensures RowsOf(Apply(t, s), id) == map[]
  {
    if s.Create? {
      TransactionsFrame(t, s);
    } else if s.Refresh? {
      RefreshAnatomy(t, s.paymentId, s.at);
    } else {
      OtherStepsFrame(t, s);
    }
  }

  /** Each upsert of the run reports an output of the chain, as every reconcile's upserts do. */
  ghost predicate Watched(steps: seq<Step>, chain: Chain) {
    forall i :: 0 <= i < |steps| ==> ChainUpsert(Run(EMPTY_TABLES, steps[..i]), steps[i], chain)
  }

  /** In every state reached from an empty database by runs whose upserts come from reconciles, all payments'
      rows come from the chain. */
  lemma {:induction false} ReachableFromChain(steps: seq<Step>, chain: Chain)
    requires Watched(steps, chain)
    ensures AllFromChain(Run(EMPTY_TABLES, steps), chain)
    decreases |steps|
  {
    if steps != [] {
      var n := |steps| - 1;
      var front, last := steps[..n], steps[n];
      forall i | 0 <= i < n
        ensures ChainUpsert(Run(EMPTY_TABLES, front[..i]), front[i], chain)
      {
        assert front[..i] == steps[..i];
      }
      ReachableFromChain(front, chain);
      assert steps == front + [last];
      RunThen(EMPTY_TABLES, front, last);
      EmptySound();
      RunRowsSound(EMPTY_TABLES, front);
      var t := Run(EMPTY_TABLES, front);
      forall id | id in Apply(t, last).payments
        ensures FromChain(RowsOf(Apply(t, last), id), Reads(Apply(t, last), id, [], chain))
      {
        StepKeepsChain(t, last, chain, id);
      }
    }
  }
}
