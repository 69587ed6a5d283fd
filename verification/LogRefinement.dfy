/**
 Two ways to evaluate a log of sightings: the store folds it through upserts and scopes the rows
 (backend/app/services/payment_store.py), the evaluator scopes the log and then merges it
 (backend/app/services/payment_state.py). When their entries agree, exactly.
 */
module LogRefinement {
  import opened Wrappers
  import opened PaymentState
  import opened PaymentTables
  import opened Creation
  import opened PaymentRows
  import opened Expiry

  /** A window with no boundary: every observation belongs. */
  const OPEN := Window(None, None, None)

  function Reports(log: seq<Observation>, id: string, at: int): seq<Step> {
    seq(|log|, i requires 0 <= i < |log| => Upsert(id, log[i], at))
  }

  function AsObservations(rows: Rows): map<Outpoint, Observation> {
    map k | k in rows :: rows[k].At(k)
  }

  /** Observations the table accepts: positive values and output indexes. */
  ghost predicate Storable(log: seq<Observation>) {
    forall i :: 0 <= i < |log| ==> log[i].value > 0 && log[i].vout >= 0
  }

  ghost predicate ValuesAgree(log: seq<Observation>) {
    forall k :: SameValue(Sightings(log, OPEN, k))
  }

  /** Upserting merges exactly as the evaluator's loop does, but without scoping first. */
  lemma {:induction false} FoldIsOpenMerge(log: seq<Observation>, id: string, at: int)
    requires Storable(log) && Merge(log, OPEN).Ok?
    ensures AsObservations(FoldRows(map[], Reports(log, id, at))) == Merge(log, OPEN).value
    decreases |log|
  {
    if log == [] {
      assert Reports(log, id, at) == [];
    } else {
      var n := |log| - 1;
      var front, last := log[..n], log[n];
      FoldIsOpenMerge(front, id, at);
      assert Reports(log, id, at) == Reports(front, id, at) + [Upsert(id, last, at)];
      FoldConcat(map[], Reports(front, id, at), [Upsert(id, last, at)]);
      var rows := FoldRows(map[], Reports(front, id, at));
      assert [Upsert(id, last, at)][1..] == [];
      assert last.Key() in rows <==> last.Key() in Merge(front, OPEN).value;
      UpsertMerges(rows, last, at);
    }
  }

  lemma UpsertMerges(rows: Rows, o: Observation, at: int)
    requires MergeOne(AsObservations(rows), o).Ok?
    ensures AsObservations(UpsertRow(rows, o, at)) == MergeOne(AsObservations(rows), o).value
    ensures !ValueClash(rows, o)
  {
    assert o.Key() == Outpoint(o.txid, o.vout);
  }

  lemma {:induction false} SightingsFilter(log: seq<Observation>, w: Window, k: Outpoint)
    ensures forall o :: o in Sightings(log, w, k) <==> o in Sightings(log, OPEN, k) && Belongs(o, w)
    ensures forall o :: o in Sightings(log, OPEN, k) <==> o in log && o.Key() == k
    decreases |log|
  {
    if log != [] {
      SightingsFilter(log[..|log| - 1], w, k);
      assert log == log[..|log| - 1] + [log[|log| - 1]];
    }
  }

  /** No sighting is confirmed at or below the creation height. */
  ghost predicate NoOldHeights(log: seq<Observation>, p: Payment) {
    forall i :: 0 <= i < |log| ==> !(0 < log[i].height <= p.createdHeight)
  }

  /** Nothing about an outpoint was sighted too early, and its chain position did not change after
      the last sighting in time; or nothing was sighted in time at all. */
  ghost predicate Settled(log: seq<Observation>, p: Payment, k: Outpoint) {
    var all, scoped := Sightings(log, OPEN, k), Sightings(log, p.Window(), k);
    scoped == [] ||
    (&& (forall i :: 0 <= i < |all| && all[i].firstSeen.Some? ==> all[i].firstSeen.value >= p.createdAt)
     && |all| > 0 && scoped[|scoped| - 1].height == all[|all| - 1].height)
  }

  lemma EntryAgrees(log: seq<Observation>, p: Payment, k: Outpoint, a: Observation)
    requires NoOldHeights(log, p) && SameValue(Sightings(log, OPEN, k))
    requires Summary(Sightings(log, OPEN, k), k, a)
    ensures var scoped := Sightings(log, p.Window(), k);
      if scoped == [] then !Belongs(a, p.Window())
      else (Belongs(a, p.Window()) && Summary(scoped, k, a)) <==> Settled(log, p, k)
  {
    var w := p.Window();
    var all, scoped := Sightings(log, OPEN, k), Sightings(log, w, k);
    SightingsFilter(log, w, k);
    assert all[|all| - 1] in log;
    assert Belongs(a, w) <==> InTime(a.firstSeen, p);
    if a.firstSeen.Some? {
      var i :| 0 <= i < |all| && all[i].firstSeen == a.firstSeen;
      assert all[i] in log;
      assert Belongs(all[i], w) <==> InTime(a.firstSeen, p);
      if InTime(a.firstSeen, p) {
        assert all[i] in scoped;
      }
    }
    if scoped != [] {
      ScopedSummary(all, scoped, p, k, a);
    }
  }

  lemma ScopedSummary(all: seq<Observation>, scoped: seq<Observation>, p: Payment, k: Outpoint, a: Observation)
    requires SameValue(all) && Summary(all, k, a) && scoped != []
    requires forall o :: o in scoped <==> o in all && Belongs(o, p.Window())
    requires forall o :: o in all ==> !(0 < o.height <= p.createdHeight)
    requires Belongs(a, p.Window()) <==> InTime(a.firstSeen, p)
    ensures (Belongs(a, p.Window()) && Summary(scoped, k, a)) <==>
            (&& (forall i :: 0 <= i < |all| && all[i].firstSeen.Some? ==> all[i].firstSeen.value >= p.createdAt)
             && scoped[|scoped| - 1].height == all[|all| - 1].height)
  {
    assert scoped[0] in scoped && scoped[0] in all;
    assert InTime(scoped[0].firstSeen, p);
    var j :| 0 <= j < |all| && all[j] == scoped[0];
    var i :| 0 <= i < |all| && all[i].firstSeen == a.firstSeen;
    if a.firstSeen.value >= p.createdAt {
      assert all[i] in all && Belongs(all[i], p.Window());
      assert all[i] in scoped;
      var s :| 0 <= s < |scoped| && scoped[s] == all[i];
      forall n | 0 <= n < |scoped|
        ensures scoped[n].firstSeen.Some? ==> a.firstSeen.value <= scoped[n].firstSeen.value
      {
        assert scoped[n] in all;
      }
      assert Earliest(scoped, a.firstSeen);
    }
  }

  /** For a log the tables accept whose values agree and which sights nothing at or below the creation
      height, storing then scoping gives the very entries that scoping then merging gives, heights and
      first-seen times included, exactly when every outpoint is settled. */
  lemma FoldRefinesEvaluation(log: seq<Observation>, p: Payment, id: string, at: int)
    requires Storable(log) && NoOldHeights(log, p) && ValuesAgree(log)
    ensures Merge(log, p.Window()).Ok?
    ensures Counted(FoldRows(map[], Reports(log, id, at)), p.Window()) == Merge(log, p.Window()).value
            <==> forall k :: Settled(log, p, k)
  {
    var w := p.Window();
    ScopedMergeSucceeds(log, w);
    var rows, m := FoldRows(map[], Reports(log, id, at)), Merge(log, w).value;
    forall k
      ensures Settled(log, p, k) <==> SameAt(Counted(rows, w), m, k)
    {
      EntryEquivalence(log, p, k, id, at);
    }
    SameEverywhere(Counted(rows, w), m);
  }

  ghost predicate SameAt(a: map<Outpoint, Observation>, b: map<Outpoint, Observation>, k: Outpoint) {
    if k in a then k in b && a[k] == b[k] else k !in b
  }

  lemma SameEverywhere(a: map<Outpoint, Observation>, b: map<Outpoint, Observation>)
    ensures a == b <==> forall k :: SameAt(a, b, k)
  {
    if forall k :: SameAt(a, b, k) {
      forall k
        ensures k in a <==> k in b
        ensures k in a && k in b ==> a[k] == b[k]
      {
        assert SameAt(a, b, k);
      }
    }
  }

  lemma EntryEquivalence(log: seq<Observation>, p: Payment, k: Outpoint, id: string, at: int)
    requires Storable(log) && NoOldHeights(log, p) && ValuesAgree(log)
    requires Merge(log, p.Window()).Ok?
    ensures Settled(log, p, k)
            <==> SameAt(Counted(FoldRows(map[], Reports(log, id, at)), p.Window()), Merge(log, p.Window()).value, k)
  {
    var w := p.Window();
    MergeMeaning(log, OPEN);
    FoldIsOpenMerge(log, id, at);
    var rows, all := FoldRows(map[], Reports(log, id, at)), Merge(log, OPEN).value;
    assert AsObservations(rows) == all;
    assert k in rows <==> k in all;
    var m := Merge(log, w).value;
    ScopedEntry(log, w, k, m);
    if k in all {
      assert SameValue(Sightings(log, OPEN, k));
      EntryAgrees(log, p, k, all[k]);
      assert rows[k].At(k) == all[k];
      if k in m && Summary(Sightings(log, w, k), k, all[k]) {
        SummaryDetermines(Sightings(log, w, k), k, all[k], m[k]);
      }
    } else {
      NoSightings(log, w, k);
    }
  }

  lemma ScopedEntry(log: seq<Observation>, w: Window, k: Outpoint, m: map<Outpoint, Observation>)
    requires Merge(log, w) == Ok(m)
    ensures if k in m then Summary(Sightings(log, w, k), k, m[k]) else Sightings(log, w, k) == []
  {
    MergeMeaning(log, w);
  }

  lemma NoSightings(log: seq<Observation>, w: Window, k: Outpoint)
    requires Sightings(log, OPEN, k) == []
    ensures Sightings(log, w, k) == []
  {
    SightingsFilter(log, w, k);
    assert forall o :: o !in Sightings(log, w, k);
  }

  lemma ScopedMergeSucceeds(log: seq<Observation>, w: Window)
    requires ValuesAgree(log)
    ensures Merge(log, w).Ok?
  {
    MergeMeaning(log, w);
    forall k
      ensures SameValue(Sightings(log, w, k))
    {
      var scoped, all := Sightings(log, w, k), Sightings(log, OPEN, k);
      SightingsFilter(log, w, k);
      assert SameValue(all);
      forall i, j | 0 <= i < |scoped| && 0 <= j < |scoped|
        ensures scoped[i].value == scoped[j].value
      {
        assert scoped[i] in all && scoped[j] in all;
      }
    }
  }

  /** Sightings of an outpoint that share one first-seen time are settled. */
  lemma OneTimeIsSettled(log: seq<Observation>, p: Payment, k: Outpoint, seen: Option<int>)
    requires NoOldHeights(log, p)
    requires forall i :: 0 <= i < |log| && log[i].Key() == k ==> log[i].firstSeen == seen
    ensures Settled(log, p, k)
  {
    var all, scoped := Sightings(log, OPEN, k), Sightings(log, p.Window(), k);
    SightingsFilter(log, p.Window(), k);
    if scoped != [] {
      assert scoped[0] in scoped && scoped[0] in log;
      forall o | o in all
        ensures Belongs(o, p.Window()) && o.firstSeen == seen
      {
        assert o in log;
      }
      AllBelong(log, p.Window(), k);
    }
  }

  lemma {:induction false} AllBelong(log: seq<Observation>, w: Window, k: Outpoint)
    requires forall o :: o in Sightings(log, OPEN, k) ==> Belongs(o, w)
    ensures Sightings(log, w, k) == Sightings(log, OPEN, k)
    decreases |log|
  {
    if log != [] {
      var front, last := log[..|log| - 1], log[|log| - 1];
      forall o | o in Sightings(front, OPEN, k)
        ensures Belongs(o, w)
      {
        assert o in Sightings(log, OPEN, k);
      }
      AllBelong(front, w, k);
      if last.Key() == k {
        assert Sightings(log, OPEN, k)[|Sightings(front, OPEN, k)|] == last;
      }
    }
  }
}
