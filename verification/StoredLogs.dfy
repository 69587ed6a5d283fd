/**
 The log behind a payment's recorded rows (backend/app/services/payment_store.py): whatever upserts and deletions
 made them, in any interleaving, they are a log of sightings folded, and their verdict is judged by that log.
 */
module StoredLogs {
  import opened Wrappers
  import opened PaymentState
  import opened PaymentTables
  import opened Creation
  import opened PaymentRows
  import opened LogRefinement
  import opened LogVerdicts

  /** The store takes the observation: storable, and of the value the output already has. */
  predicate Accepts(log: seq<Observation>, o: Observation) {
    o.value > 0 && o.vout >= 0 && forall i :: 0 <= i < |log| && log[i].Key() == o.Key() ==> log[i].value == o.value
  }

  function Only(log: seq<Observation>, txids: set<string>): seq<Observation> {
    if log == [] then
      []
    else
      var last := log[|log| - 1];
      Only(log[..|log| - 1], txids) + (if last.txid in txids then [last] else [])
  }

  /** What a payment's own row steps have left sighted: each observation the store took, less those of
      transactions it has since deleted. */
  function Survivors(own: seq<Step>): seq<Observation> {
    if own == [] then
      []
    else
      var log, last := Survivors(own[..|own| - 1]), own[|own| - 1];
      match last
      case Upsert(_, o, _) => if Accepts(log, o) then log + [o] else log
      case DeleteNotIn(_, txids) => Only(log, txids)
      case _ => log
  }

  // ---------- Such a log is in order ----------

  ghost predicate InOrder(log: seq<Observation>) {
    && Storable(log)
    && forall i, j | 0 <= i < |log| && 0 <= j < |log| && log[i].Key() == log[j].Key() :: log[i].value == log[j].value
  }

  lemma {:induction false} OnlySome(log: seq<Observation>, txids: set<string>)
    ensures forall o :: o in Only(log, txids) <==> o in log && o.txid in txids
    decreases |log|
  {
    if log != [] {
      OnlySome(log[..|log| - 1], txids);
      assert log == log[..|log| - 1] + [log[|log| - 1]];
    }
  }

  lemma OnlyInOrder(log: seq<Observation>, txids: set<string>)
    requires InOrder(log)
    ensures InOrder(Only(log, txids))
  {
    OnlySome(log, txids);
    var some := Only(log, txids);
    forall i | 0 <= i < |some|
      ensures some[i] in log && some[i].value > 0 && some[i].vout >= 0
    {
      assert some[i] in some;
    }
    forall i, j | 0 <= i < |some| && 0 <= j < |some| && some[i].Key() == some[j].Key()
      ensures some[i].value == some[j].value
    {
      assert some[i] in log && some[j] in log;
    }
  }

  lemma {:induction false} SurvivorsInOrder(own: seq<Step>)
    ensures InOrder(Survivors(own))
    decreases |own|
  {
    if own != [] {
      var front, last := own[..|own| - 1], own[|own| - 1];
      SurvivorsInOrder(front);
      if last.DeleteNotIn? {
        OnlyInOrder(Survivors(front), last.txids);
      }
    }
  }

  lemma OrderAgrees(log: seq<Observation>)
    requires InOrder(log)
    ensures ValuesAgree(log)
  {
    forall k
      ensures SameValue(Sightings(log, OPEN, k))
    {
      var all := Sightings(log, OPEN, k);
      SightingsFilter(log, OPEN, k);
      forall i, j | 0 <= i < |all| && 0 <= j < |all|
        ensures all[i].value == all[j].value
      {
        assert all[i] in all && all[j] in all;
      }
    }
  }

  // ---------- The rows are that log, folded ----------

  lemma {:induction false} OnlyMerges(log: seq<Observation>, txids: set<string>)
    requires Merge(log, OPEN).Ok?
    ensures Merge(Only(log, txids), OPEN).Ok?
    ensures Restricts(Merge(Only(log, txids), OPEN).value, Merge(log, OPEN).value, txids)
    decreases |log|
  {
    if log != [] {
      var front, last := log[..|log| - 1], log[|log| - 1];
      assert log == front + [last] && Merge(front, OPEN).Ok?;
      MergeLast(front, last);
      OnlyMerges(front, txids);
      OnlyStep(Merge(front, OPEN).value, Merge(Only(front, txids), OPEN).value, last, txids);
      if last.txid in txids {
        MergeLast(Only(front, txids), last);
      } else {
        assert Only(log, txids) == Only(front, txids);
      }
    }
  }

  lemma MergeLast(front: seq<Observation>, last: Observation)
    requires Merge(front, OPEN).Ok?
    ensures Merge(front + [last], OPEN) == MergeOne(Merge(front, OPEN).value, last)
  {
    assert (front + [last])[..|front|] == front;
  }

  ghost predicate Restricts(kept: map<Outpoint, Observation>, m: map<Outpoint, Observation>, txids: set<string>) {
    (forall k :: k in kept <==> k in m && k.txid in txids) && forall k :: k in kept ==> kept[k] == m[k]
  }

  lemma OnlyStep(m: map<Outpoint, Observation>, kept: map<Outpoint, Observation>, o: Observation, txids: set<string>)
    requires Restricts(kept, m, txids) && MergeOne(m, o).Ok?
    ensures o.txid in txids ==> MergeOne(kept, o).Ok? && Restricts(MergeOne(kept, o).value, MergeOne(m, o).value, txids)
    ensures o.txid !in txids ==> Restricts(kept, MergeOne(m, o).value, txids)
  {
  }

  /** The value merged for an output is the value of each of its sightings. */
  lemma MergedValue(log: seq<Observation>, k: Outpoint)
    requires InOrder(log) && Merge(log, OPEN).Ok?
    ensures k in Merge(log, OPEN).value <==> exists i :: 0 <= i < |log| && log[i].Key() == k
    ensures forall i :: 0 <= i < |log| && log[i].Key() == k ==>
              k in Merge(log, OPEN).value && log[i].value == Merge(log, OPEN).value[k].value
  {
    var m, all := Merge(log, OPEN).value, Sightings(log, OPEN, k);
    ScopedEntry(log, OPEN, k, m);
    SightingsFilter(log, OPEN, k);
    if k in m {
      assert all[0] in all && all[0] in log;
      var i :| 0 <= i < |log| && log[i] == all[0];
      assert log[i].Key() == k;
    }
    forall i | 0 <= i < |log| && log[i].Key() == k
      ensures k in m && log[i].value == m[k].value
    {
      assert log[i] in log && log[i] in all;
      assert all[0] in all && all[0] in log;
    }
  }

  lemma TakenUpsert(rows: Rows, log: seq<Observation>, id: string, o: Observation, at: int)
    requires InOrder(log) && Merge(log, OPEN) == Ok(AsObservations(rows))
    ensures var rows' := StepRows(rows, Upsert(id, o, at));
      if Accepts(log, o) then Merge(log + [o], OPEN) == Ok(AsObservations(rows')) else rows' == rows
  {
    MergedValue(log, o.Key());
    assert o.Key() in rows <==> o.Key() in AsObservations(rows);
    if Accepts(log, o) {
      assert (log + [o])[..|log|] == log;
      assert MergeOne(AsObservations(rows), o).Ok? by {
        if o.Key() in rows {
          var i :| 0 <= i < |log| && log[i].Key() == o.Key();
        }
      }
      UpsertMerges(rows, o, at);
    } else if o.value > 0 && o.vout >= 0 {
      var i :| 0 <= i < |log| && log[i].Key() == o.Key() && log[i].value != o.value;
      assert ValueClash(rows, o);
    }
  }

  lemma TakenDelete(rows: Rows, log: seq<Observation>, txids: set<string>)
    requires Merge(log, OPEN) == Ok(AsObservations(rows))
    ensures Merge(Only(log, txids), OPEN) == Ok(AsObservations(KeepRows(rows, txids)))
  {
    OnlyMerges(log, txids);
    var kept := Merge(Only(log, txids), OPEN).value;
    assert kept == AsObservations(KeepRows(rows, txids));
  }

  /** The rows a payment's own steps leave are the merge of what survives of their observations. */
  lemma {:induction false} RowsAreSurvivors(own: seq<Step>)
    requires forall s :: s in own ==> s.Upsert? || s.DeleteNotIn?
    ensures Merge(Survivors(own), OPEN) == Ok(AsObservations(FoldRows(map[], own)))
    decreases |own|
  {
    if own != [] {
      var front, last := own[..|own| - 1], own[|own| - 1];
      assert own == front + [last] && last in own;
      RowsAreSurvivors(front);
      SurvivorsInOrder(front);
      FoldConcat(map[], front, [last]);
      assert [last][1..] == [];
      var rows := FoldRows(map[], front);
      if last.Upsert? {
        TakenUpsert(rows, Survivors(front), last.paymentId, last.o, last.at);
      } else {
        TakenDelete(rows, Survivors(front), last.txids);
      }
    }
  }

  lemma {:induction false} OwnTouch(steps: seq<Step>, id: string)
    ensures forall s :: s in Own(steps, id) ==> TouchesRows(s, id)
    decreases |steps|
  {
    if steps != [] {
      OwnTouch(steps[1..], id);
    }
  }

  // ---------- The stored verdict ----------

  lemma SameCounted(rows: Rows, rows': Rows, w: Window)
    requires AsObservations(rows) == AsObservations(rows')
    ensures Counted(rows, w) == Counted(rows', w)
  {
    forall k
      ensures k in rows <==> k in rows'
      ensures k in rows ==> rows[k].At(k) == rows'[k].At(k)
    {
      assert k in rows <==> k in AsObservations(rows);
      assert k in rows' <==> k in AsObservations(rows');
    }
  }

  /** What survives of a payment's own sightings in a run counts for the store as if it had been reported at once. */
  lemma StoredAsReported(t: Tables, steps: seq<Step>, id: string, at: int)
    requires id in t.payments && RowsOf(t, id) == map[]
    ensures var log, p := Survivors(Own(steps, id)), t.payments[id];
      && Storable(log) && ValuesAgree(log)
      && id in Run(t, steps).payments && SameTerms(p, Run(t, steps).payments[id])
      && Counted(RowsOf(Run(t, steps), id), p.Window()) == Counted(FoldRows(map[], Reports(log, id, at)), p.Window())
  {
    var own := Own(steps, id);
    var log, p := Survivors(own), t.payments[id];
    RowsAfterRun(t, steps, id);
    RunPersists(t, steps);
    OwnTouch(steps, id);
    SurvivorsInOrder(own);
    OrderAgrees(log);
    RowsAreSurvivors(own);
    FoldIsOpenMerge(log, id, at);
    SameCounted(FoldRows(map[], own), FoldRows(map[], Reports(log, id, at)), p.Window());
  }

  /** For any run of a payment from its creation on, deletions and refused upserts included, the stored rows get
      the verdict of the surviving log, under every policy, tip and time, exactly when that log is undisturbed. */
  lemma StoredVerdictsAgreeExactly(t: Tables, steps: seq<Step>, id: string)
    requires id in t.payments && RowsOf(t, id) == map[] && t.payments[id].amount > 0
    requires NoOldHeights(Survivors(Own(steps, id)), t.payments[id])
    ensures var log, p := Survivors(Own(steps, id)), t.payments[id];
      SameVerdicts(log, p, RowsOf(Run(t, steps), id)) <==> Undisturbed(log, p)
  {
    var log, p := Survivors(Own(steps, id)), t.payments[id];
    StoredAsReported(t, steps, id, 0);
    VerdictsAgreeExactly(log, p, id, 0);
    SameVerdictsSameCounted(log, p, RowsOf(Run(t, steps), id), FoldRows(map[], Reports(log, id, 0)));
  }

  lemma SameVerdictsSameCounted(log: seq<Observation>, p: Payment, rows: Rows, rows': Rows)
    requires Counted(rows, p.Window()) == Counted(rows', p.Window())
    ensures SameVerdicts(log, p, rows) <==> SameVerdicts(log, p, rows')
  {
  }

  /** In particular the payment's stored evaluation is the evaluator's own verdict on the surviving log when no
      outpoint changed its block, or was first sighted, out of time. */
  lemma StoredEvaluationIsLogEvaluation(t: Tables, steps: seq<Step>, id: string, now: int)
    requires id in t.payments && RowsOf(t, id) == map[]
    requires var log, p := Survivors(Own(steps, id)), t.payments[id];
      NoOldHeights(log, p) && forall k :: SettledInBlock(log, p, k)
    ensures var u, p := Run(t, steps), t.payments[id];
      && id in u.payments
      && EvaluatePayment(u, id, now)
         == Evaluate(p.amount, Survivors(Own(steps, id)), TipFor(u, p), p.required, p.Window(), now)
  {
    var log, p := Survivors(Own(steps, id)), t.payments[id];
    StoredAsReported(t, steps, id, 0);
    if p.amount > 0 && p.required >= 0 && TipFor(Run(t, steps), p) >= 0 {
      SettledVerdictsAgree(log, p, id, 0);
    }
  }
}
