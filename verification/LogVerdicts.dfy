/**
 The verdicts of the two ways to evaluate a log (backend/app/services/payment_store.py, payment_state.py):
 when status, totals and counts agree under every policy, tip and time, exactly.
 */
module LogVerdicts {
  import opened Wrappers
  import opened PaymentState
  import opened PaymentTables
  import opened Creation
  import opened PaymentRows
  import opened Expiry
  import opened LogRefinement
  import opened Samples

  // ---------- The verdict ----------

  /** The evaluator's verdict on the raw log is the store's on its rows, under every policy, tip and time. */
  ghost predicate SameVerdicts(log: seq<Observation>, p: Payment, rows: Rows) {
    forall required, tip, now :: required >= 0 && tip >= 0 ==>
      Evaluate(p.amount, log, tip, required, p.Window(), now)
      == Ok(EvaluateMerged(Counted(rows, p.Window()), p.amount, required, tip, Some(p.expiresAt), now))
  }

  /** No sighting of the outpoint is from before the payment's creation. */
  ghost predicate NoneEarly(log: seq<Observation>, p: Payment, k: Outpoint) {
    var all := Sightings(log, OPEN, k);
    forall i :: 0 <= i < |all| && all[i].firstSeen.Some? ==> all[i].firstSeen.value >= p.createdAt
  }

  /** The outpoints with a belonging sighting. */
  ghost function SeenInTime(log: seq<Observation>, p: Payment): set<Outpoint> {
    set i | 0 <= i < |log| && Belongs(log[i], p.Window()) :: log[i].Key()
  }

  /** For each of some outpoints its last sighting that belongs to a window. */
  ghost function LastSightings(log: seq<Observation>, w: Window, ks: set<Outpoint>): map<Outpoint, Observation> {
    map k | k in ks && Sightings(log, w, k) != [] :: Sightings(log, w, k)[|Sightings(log, w, k)| - 1]
  }

  /** As much value arrived in blocks up to any height, and as many outputs are still unconfirmed. */
  ghost predicate SameArrivals(a: map<Outpoint, Observation>, b: map<Outpoint, Observation>) {
    (forall h :: Total(a, Policy(1, h)) == Total(b, Policy(1, h))) && |Unconfirmed(a)| == |Unconfirmed(b)|
  }

  lemma {:induction false} TotalSameEntries(a: map<Outpoint, Observation>, b: map<Outpoint, Observation>, measure: Measure)
    requires a.Keys == b.Keys && forall k :: k in a ==> Share(a[k], measure) == Share(b[k], measure)
    ensures Total(a, measure) == Total(b, measure)
    decreases |a|
  {
    if a == map[] {
      assert b == map[];
    } else {
      var k :| k in a;
      TotalSplit(a, measure, k);
      TotalSplit(b, measure, k);
      TotalSameEntries(a - {k}, b - {k}, measure);
    }
  }

  /** Entries with the same outputs, values and block positions give the same evaluation. */
  predicate SamePositions(a: map<Outpoint, Observation>, b: map<Outpoint, Observation>) {
    a.Keys == b.Keys && forall k :: k in a ==> a[k].value == b[k].value && a[k].height == b[k].height
  }

  lemma PositionsAreArrivals(a: map<Outpoint, Observation>, b: map<Outpoint, Observation>)
    requires SamePositions(a, b)
    ensures forall measure :: Total(a, measure) == Total(b, measure)
    ensures Unconfirmed(a) == Unconfirmed(b)
  {
    forall measure
      ensures Total(a, measure) == Total(b, measure)
    {
      TotalSameEntries(a, b, measure);
    }
  }

  ghost function Highest(m: map<Outpoint, Observation>): (h: int)
    ensures h >= 0 && forall k :: k in m ==> m[k].height <= h
    decreases |m|
  {
    if m == map[] then 0
    else
      var k :| k in m;
      var rest := Highest(m - {k});
      assert forall q :: q in m ==> q == k || q in m - {k};
      if m[k].height > rest then m[k].height else rest
  }

  /** Confirmed value is what has arrived by a high enough block. */
  lemma ConfirmedByHeight(m: map<Outpoint, Observation>, h: int)
    requires forall k :: k in m ==> m[k].height <= h
    ensures Total(m, Confirmed) == Total(m, Policy(1, h))
  {
    TotalSameCounts(m, Confirmed, Policy(1, h));
  }

  /** A policy of several confirmations at one tip is a policy of one at an earlier block. */
  lemma PolicyByHeight(m: map<Outpoint, Observation>, required: int, tip: int)
    requires required >= 1
    ensures Total(m, Policy(required, tip)) == Total(m, Policy(1, tip - required + 1))
  {
    TotalSameCounts(m, Policy(required, tip), Policy(1, tip - required + 1));
  }

  /** Two merges with the same outputs and values evaluate alike exactly when the same value arrived by every
      block and as many outputs are unconfirmed. */
  lemma ArrivalsDecide(a: map<Outpoint, Observation>, b: map<Outpoint, Observation>, requested: int, expiresAt: int)
    requires a.Keys == b.Keys && forall k :: k in a ==> a[k].value == b[k].value
    ensures (forall required, tip, now :: required >= 0 && tip >= 0 ==>
               EvaluateMerged(a, requested, required, tip, Some(expiresAt), now)
               == EvaluateMerged(b, requested, required, tip, Some(expiresAt), now))
            <==> SameArrivals(a, b)
  {
    if SameArrivals(a, b) {
      forall required, tip, now | required >= 0 && tip >= 0
        ensures EvaluateMerged(a, requested, required, tip, Some(expiresAt), now)
                == EvaluateMerged(b, requested, required, tip, Some(expiresAt), now)
      {
        ArrivalsSuffice(a, b, required, tip);
      }
    } else {
      if forall required, tip, now :: required >= 0 && tip >= 0 ==>
           EvaluateMerged(a, requested, required, tip, Some(expiresAt), now)
           == EvaluateMerged(b, requested, required, tip, Some(expiresAt), now) {
        VerdictsShowArrivals(a, b, requested, expiresAt);
        assert false;
      }
    }
  }

  lemma ArrivalsSuffice(a: map<Outpoint, Observation>, b: map<Outpoint, Observation>, required: int, tip: int)
    requires a.Keys == b.Keys && forall k :: k in a ==> a[k].value == b[k].value
    requires SameArrivals(a, b) && required >= 0
    ensures |a| == |b| && Total(a, Received) == Total(b, Received) && Total(a, Confirmed) == Total(b, Confirmed)
    ensures Total(a, Policy(required, tip)) == Total(b, Policy(required, tip))
  {
    assert |a.Keys| == |a| && |b.Keys| == |b|;
    TotalSameEntries(a, b, Received);
    var h := if Highest(a) > Highest(b) then Highest(a) else Highest(b);
    ConfirmedByHeight(a, h);
    ConfirmedByHeight(b, h);
    if required == 0 {
      TotalSameCounts(a, Policy(0, tip), Received);
      TotalSameCounts(b, Policy(0, tip), Received);
    } else {
      PolicyByHeight(a, required, tip);
      PolicyByHeight(b, required, tip);
    }
  }

  lemma VerdictsShowArrivals(a: map<Outpoint, Observation>, b: map<Outpoint, Observation>, requested: int, expiresAt: int)
    requires forall required, tip, now :: required >= 0 && tip >= 0 ==>
               EvaluateMerged(a, requested, required, tip, Some(expiresAt), now)
               == EvaluateMerged(b, requested, required, tip, Some(expiresAt), now)
    ensures SameArrivals(a, b)
  {
    forall h
      ensures Total(a, Policy(1, h)) == Total(b, Policy(1, h))
    {
      if h >= 0 {
        assert EvaluateMerged(a, requested, 1, h, Some(expiresAt), 0) == EvaluateMerged(b, requested, 1, h, Some(expiresAt), 0);
      } else {
        NothingBelowZero(a, h);
        NothingBelowZero(b, h);
      }
    }
    assert EvaluateMerged(a, requested, 1, 0, Some(expiresAt), 0) == EvaluateMerged(b, requested, 1, 0, Some(expiresAt), 0);
  }

  lemma {:induction false} NothingBelowZero(m: map<Outpoint, Observation>, h: int)
    requires h < 0
    ensures Total(m, Policy(1, h)) == 0
    decreases |m|
  {
    if m != map[] {
      var k :| k in m;
      TotalSplit(m, Policy(1, h), k);
      NothingBelowZero(m - {k}, h);
    }
  }

  // ---------- When the verdicts agree ----------

  lemma InTimeHasSighting(log: seq<Observation>, p: Payment, k: Outpoint)
    ensures k in SeenInTime(log, p) <==> Sightings(log, p.Window(), k) != []
  {
    var w := p.Window();
    SightingsFilter(log, w, k);
    if k in SeenInTime(log, p) {
      var i :| 0 <= i < |log| && Belongs(log[i], w) && log[i].Key() == k;
      assert log[i] in Sightings(log, w, k);
    }
    if Sightings(log, w, k) != [] {
      var o := Sightings(log, w, k)[0];
      assert o in Sightings(log, w, k);
      var i :| 0 <= i < |log| && log[i] == o;
      assert log[i].Key() == k;
    }
  }

  /** The evaluator's entries stand where the last belonging sightings do. */
  lemma MergedPositions(log: seq<Observation>, p: Payment)
    requires ValuesAgree(log) && Merge(log, p.Window()).Ok?
    ensures SamePositions(Merge(log, p.Window()).value, LastSightings(log, p.Window(), SeenInTime(log, p)))
  {
    var w := p.Window();
    var m, last := Merge(log, w).value, LastSightings(log, w, SeenInTime(log, p));
    MergeMeaning(log, w);
    forall k
      ensures k in m <==> k in last
      ensures k in m ==> m[k].value == last[k].value && m[k].height == last[k].height
    {
      ScopedEntry(log, w, k, m);
      InTimeHasSighting(log, p, k);
      assert SameValue(Sightings(log, w, k));
    }
  }

  /** What the store counts and where: the outpoints sighted in time and never too early, at their very last
      sighting. */
  lemma StoredEntry(log: seq<Observation>, p: Payment, k: Outpoint, id: string, at: int)
    requires Storable(log) && NoOldHeights(log, p) && ValuesAgree(log)
    ensures var counted, last := Counted(FoldRows(map[], Reports(log, id, at)), p.Window()),
                                 LastSightings(log, OPEN, SeenInTime(log, p));
      && (k in counted <==> k in SeenInTime(log, p) && NoneEarly(log, p, k))
      && (k in SeenInTime(log, p) ==> k in last)
      && (k in counted ==> counted[k].value == last[k].value && counted[k].height == last[k].height)
  {
    var w := p.Window();
    MergeMeaning(log, OPEN);
    FoldIsOpenMerge(log, id, at);
    var rows, merged := FoldRows(map[], Reports(log, id, at)), Merge(log, OPEN).value;
    assert AsObservations(rows) == merged;
    assert k in rows <==> k in merged;
    InTimeHasSighting(log, p, k);
    NoneLeft(log, w, k);
    if k in merged {
      assert SameValue(Sightings(log, OPEN, k));
      assert rows[k].At(k) == merged[k];
      StoredBelongs(log, p, k, merged[k]);
    }
  }

  lemma NoneLeft(log: seq<Observation>, w: Window, k: Outpoint)
    ensures Sightings(log, OPEN, k) == [] ==> Sightings(log, w, k) == []
  {
    if Sightings(log, OPEN, k) == [] {
      NoSightings(log, w, k);
    }
  }

  lemma StoredBelongs(log: seq<Observation>, p: Payment, k: Outpoint, a: Observation)
    requires NoOldHeights(log, p) && SameValue(Sightings(log, OPEN, k))
    requires Summary(Sightings(log, OPEN, k), k, a)
    ensures Belongs(a, p.Window()) <==> Sightings(log, p.Window(), k) != [] && NoneEarly(log, p, k)
  {
    var w := p.Window();
    var all, scoped := Sightings(log, OPEN, k), Sightings(log, w, k);
    SightingsFilter(log, w, k);
    assert all[|all| - 1] in log;
    assert Belongs(a, w) <==> InTime(a.firstSeen, p);
    if a.firstSeen.Some? {
      var i :| 0 <= i < |all| && all[i].firstSeen == a.firstSeen;
      assert all[i] in all && all[i] in log;
      assert Belongs(all[i], w) <==> InTime(a.firstSeen, p);
      if InTime(a.firstSeen, p) {
        assert all[i] in scoped;
      }
    }
    if scoped != [] {
      assert scoped[0] in scoped && scoped[0] in all && InTime(scoped[0].firstSeen, p);
    }
  }

  /** Without early sightings the store counts the same outpoints, and its entries stand where the very last
      sightings do. */
  lemma StoredPositions(log: seq<Observation>, p: Payment, id: string, at: int)
    requires Storable(log) && NoOldHeights(log, p) && ValuesAgree(log)
    requires forall k :: k in SeenInTime(log, p) ==> NoneEarly(log, p, k)
    ensures SamePositions(Counted(FoldRows(map[], Reports(log, id, at)), p.Window()),
                          LastSightings(log, OPEN, SeenInTime(log, p)))
  {
    var counted, last := Counted(FoldRows(map[], Reports(log, id, at)), p.Window()),
                         LastSightings(log, OPEN, SeenInTime(log, p));
    forall k
      ensures k in counted <==> k in last
      ensures k in counted ==> counted[k].value == last[k].value && counted[k].height == last[k].height
    {
      StoredEntry(log, p, k, id, at);
    }
  }

  /** The last sighting in time and the very last one show the same value. */
  lemma LastValuesAgree(log: seq<Observation>, p: Payment, k: Outpoint)
    requires ValuesAgree(log)
    ensures var ks := SeenInTime(log, p);
      var all, scoped := LastSightings(log, OPEN, ks), LastSightings(log, p.Window(), ks);
      && (k in ks <==> k in all) && (k in ks <==> k in scoped)
      && (k in ks ==> all[k].value == scoped[k].value)
  {
    var w := p.Window();
    InTimeHasSighting(log, p, k);
    NoneLeft(log, w, k);
    if k in SeenInTime(log, p) {
      var all, scoped := Sightings(log, OPEN, k), Sightings(log, w, k);
      SightingsFilter(log, w, k);
      assert scoped[|scoped| - 1] in scoped && scoped[|scoped| - 1] in all;
      var i :| 0 <= i < |all| && all[i] == scoped[|scoped| - 1];
      assert SameValue(all);
    }
  }

  lemma ArrivalsCarryOver(a: map<Outpoint, Observation>, a': map<Outpoint, Observation>,
                          b: map<Outpoint, Observation>, b': map<Outpoint, Observation>)
    requires SamePositions(a, a') && SamePositions(b, b')
    ensures SameArrivals(a, b) <==> SameArrivals(a', b')
  {
    PositionsAreArrivals(a, a');
    PositionsAreArrivals(b, b');
    assert forall h :: Total(a, Policy(1, h)) == Total(a', Policy(1, h)) && Total(b, Policy(1, h)) == Total(b', Policy(1, h));
  }

  /** No outpoint sighted in time was also sighted too early, and the last sightings of those outpoints show the
      same value arriving by every block, and as many outputs unconfirmed, as their last sightings in time. */
  ghost predicate Undisturbed(log: seq<Observation>, p: Payment) {
    var ks := SeenInTime(log, p);
    && (forall k :: k in ks ==> NoneEarly(log, p, k))
    && SameArrivals(LastSightings(log, OPEN, ks), LastSightings(log, p.Window(), ks))
  }

  /** The verdicts agree, under every policy, tip and time, exactly when the log is undisturbed. */
  lemma VerdictsAgreeExactly(log: seq<Observation>, p: Payment, id: string, at: int)
    requires Storable(log) && NoOldHeights(log, p) && ValuesAgree(log)
    requires p.amount > 0
    ensures SameVerdicts(log, p, FoldRows(map[], Reports(log, id, at))) <==> Undisturbed(log, p)
  {
    var ks := SeenInTime(log, p);
    var rows := FoldRows(map[], Reports(log, id, at));
    ScopedMergeSucceeds(log, p.Window());
    MergedPositions(log, p);
    if forall k :: k in ks ==> NoneEarly(log, p, k) {
      StoredPositions(log, p, id, at);
      VerdictsByArrivals(log, p, rows);
    } else {
      var k :| k in ks && !NoneEarly(log, p, k);
      EarlyTellsApart(log, p, id, at, k);
    }
  }

  lemma VerdictsByArrivals(log: seq<Observation>, p: Payment, rows: Rows)
    requires p.amount > 0 && ValuesAgree(log) && Merge(log, p.Window()).Ok?
    requires SamePositions(Counted(rows, p.Window()), LastSightings(log, OPEN, SeenInTime(log, p)))
    requires SamePositions(Merge(log, p.Window()).value, LastSightings(log, p.Window(), SeenInTime(log, p)))
    ensures SameVerdicts(log, p, rows) <==>
            SameArrivals(LastSightings(log, OPEN, SeenInTime(log, p)), LastSightings(log, p.Window(), SeenInTime(log, p)))
  {
    var ks := SeenInTime(log, p);
    var a, b := Counted(rows, p.Window()), Merge(log, p.Window()).value;
    var all, scoped := LastSightings(log, OPEN, ks), LastSightings(log, p.Window(), ks);
    forall k
      ensures k in a <==> k in b
      ensures k in a ==> a[k].value == b[k].value
    {
      LastValuesAgree(log, p, k);
      assert (k in a <==> k in all) && (k in b <==> k in scoped);
    }
    ArrivalsDecide(a, b, p.amount, p.expiresAt);
    ArrivalsCarryOver(a, all, b, scoped);
    VerdictsAreEvaluations(log, p, rows);
  }

  lemma VerdictsAreEvaluations(log: seq<Observation>, p: Payment, rows: Rows)
    requires p.amount > 0 && Merge(log, p.Window()).Ok?
    ensures SameVerdicts(log, p, rows) <==>
            forall required, tip, now :: required >= 0 && tip >= 0 ==>
              EvaluateMerged(Counted(rows, p.Window()), p.amount, required, tip, Some(p.expiresAt), now)
              == EvaluateMerged(Merge(log, p.Window()).value, p.amount, required, tip, Some(p.expiresAt), now)
  {
    forall required, tip, now | required >= 0 && tip >= 0
      ensures Evaluate(p.amount, log, tip, required, p.Window(), now)
              == Ok(EvaluateMerged(Merge(log, p.Window()).value, p.amount, required, tip, Some(p.expiresAt), now))
    {
    }
  }

  /** An outpoint sighted in time and too early is received for the evaluator and not for the store. */
  lemma EarlyTellsApart(log: seq<Observation>, p: Payment, id: string, at: int, k: Outpoint)
    requires Storable(log) && NoOldHeights(log, p) && ValuesAgree(log) && p.amount > 0
    requires Merge(log, p.Window()).Ok? && k in SeenInTime(log, p) && !NoneEarly(log, p, k)
    ensures !SameVerdicts(log, p, FoldRows(map[], Reports(log, id, at)))
  {
    var rows := FoldRows(map[], Reports(log, id, at));
    var a, b := Counted(rows, p.Window()), Merge(log, p.Window()).value;
    MergedPositions(log, p);
    forall q | q in a
      ensures q in b && a[q].value == b[q].value && q != k
    {
      StoredEntry(log, p, q, id, at);
      LastValuesAgree(log, p, q);
    }
    MergedPositive(log, p, b);
    LastValuesAgree(log, p, k);
    assert k in b;
    SubsetTotal(b - {k}, a);
    TotalSplit(b, Received, k);
    VerdictsAreEvaluations(log, p, rows);
    assert EvaluateMerged(a, p.amount, 0, 0, Some(p.expiresAt), 0).received
           != EvaluateMerged(b, p.amount, 0, 0, Some(p.expiresAt), 0).received;
  }

  lemma MergedPositive(log: seq<Observation>, p: Payment, m: map<Outpoint, Observation>)
    requires Storable(log) && Merge(log, p.Window()) == Ok(m)
    ensures Positive(m)
  {
    forall k | k in m
      ensures m[k].value > 0
    {
      ScopedEntry(log, p.Window(), k, m);
      var scoped := Sightings(log, p.Window(), k);
      SightingsFilter(log, p.Window(), k);
      assert scoped[0] in scoped && scoped[0] in log;
    }
  }

  // ---------- Outpoint by outpoint ----------

  /** The block a height stands for; zero and below are the mempool. */
  function Block(height: int): int {
    if height > 0 then height else 0
  }

  /** Like `Settled`, but a change within the mempool does not matter. */
  ghost predicate SettledInBlock(log: seq<Observation>, p: Payment, k: Outpoint) {
    var all, scoped := Sightings(log, OPEN, k), Sightings(log, p.Window(), k);
    scoped == [] ||
    (NoneEarly(log, p, k) && all != [] && Block(scoped[|scoped| - 1].height) == Block(all[|all| - 1].height))
  }

  lemma LastInBlock(log: seq<Observation>, p: Payment, k: Outpoint)
    requires ValuesAgree(log) && k in SeenInTime(log, p)
    ensures var ks := SeenInTime(log, p);
      var all, scoped := LastSightings(log, OPEN, ks), LastSightings(log, p.Window(), ks);
      && k in all && k in scoped && all[k].value == scoped[k].value
      && (SettledInBlock(log, p, k) <==> NoneEarly(log, p, k) && Block(all[k].height) == Block(scoped[k].height))
  {
    InTimeHasSighting(log, p, k);
    NoneLeft(log, p.Window(), k);
    LastValuesAgree(log, p, k);
  }

  /** If every outpoint is settled, up to its place in the mempool, the verdicts agree. */
  lemma SettledVerdictsAgree(log: seq<Observation>, p: Payment, id: string, at: int)
    requires Storable(log) && NoOldHeights(log, p) && ValuesAgree(log) && p.amount > 0
    requires forall k :: SettledInBlock(log, p, k)
    ensures SameVerdicts(log, p, FoldRows(map[], Reports(log, id, at)))
  {
    var ks := SeenInTime(log, p);
    var all, scoped := LastSightings(log, OPEN, ks), LastSightings(log, p.Window(), ks);
    forall k
      ensures k in all <==> k in scoped
      ensures k in all ==> all[k].value == scoped[k].value && Block(all[k].height) == Block(scoped[k].height)
      ensures k in ks ==> NoneEarly(log, p, k)
    {
      LastValuesAgree(log, p, k);
      if k in ks {
        LastInBlock(log, p, k);
      }
    }
    BlocksAreArrivals(all, scoped);
    VerdictsAgreeExactly(log, p, id, at);
  }

  lemma BlocksAreArrivals(a: map<Outpoint, Observation>, b: map<Outpoint, Observation>)
    requires a.Keys == b.Keys
    requires forall k :: k in a ==> a[k].value == b[k].value && Block(a[k].height) == Block(b[k].height)
    ensures SameArrivals(a, b)
  {
    forall h
      ensures Total(a, Policy(1, h)) == Total(b, Policy(1, h))
    {
      TotalSameEntries(a, b, Policy(1, h));
    }
    assert Unconfirmed(a) == Unconfirmed(b);
  }

  /** When every other outpoint is settled, the verdicts agree exactly if this one is too. */
  lemma LoneDispute(log: seq<Observation>, p: Payment, id: string, at: int, k: Outpoint)
    requires Storable(log) && NoOldHeights(log, p) && ValuesAgree(log) && p.amount > 0
    requires forall q :: q != k ==> SettledInBlock(log, p, q)
    ensures SameVerdicts(log, p, FoldRows(map[], Reports(log, id, at))) <==> SettledInBlock(log, p, k)
  {
    if SettledInBlock(log, p, k) {
      SettledVerdictsAgree(log, p, id, at);
    } else {
      InTimeHasSighting(log, p, k);
      VerdictsAgreeExactly(log, p, id, at);
      if NoneEarly(log, p, k) {
        var ks := SeenInTime(log, p);
        var all, scoped := LastSightings(log, OPEN, ks), LastSightings(log, p.Window(), ks);
        LastInBlock(log, p, k);
        forall q
          ensures q in all <==> q in scoped
          ensures q in all && q != k ==> all[q].value == scoped[q].value && Block(all[q].height) == Block(scoped[q].height)
        {
          LastValuesAgree(log, p, q);
          if q in ks && q != k {
            LastInBlock(log, p, q);
          }
        }
        LastIsPositive(log, p, k);
        OneMoved(all, scoped, k);
      }
    }
  }

  lemma LastIsPositive(log: seq<Observation>, p: Payment, k: Outpoint)
    requires Storable(log) && k in LastSightings(log, OPEN, SeenInTime(log, p))
    ensures LastSightings(log, OPEN, SeenInTime(log, p))[k].value > 0
  {
    var all := Sightings(log, OPEN, k);
    SightingsFilter(log, OPEN, k);
    assert all[|all| - 1] in all && all[|all| - 1] in log;
  }

  /** One output moved to another block changes what arrived by the lower of the two. */
  lemma OneMoved(a: map<Outpoint, Observation>, b: map<Outpoint, Observation>, k: Outpoint)
    requires a.Keys == b.Keys && k in a && a[k].value == b[k].value > 0 && Block(a[k].height) != Block(b[k].height)
    requires forall q :: q in a && q != k ==> a[q].value == b[q].value && Block(a[q].height) == Block(b[q].height)
    ensures !SameArrivals(a, b)
  {
    var x, y := Block(a[k].height), Block(b[k].height);
    var h := if x == 0 then y else if y == 0 then x else if x < y then x else y;
    TotalSplit(a, Policy(1, h), k);
    TotalSplit(b, Policy(1, h), k);
    TotalSameEntries(a - {k}, b - {k}, Policy(1, h));
    assert Total(a, Policy(1, h)) != Total(b, Policy(1, h));
  }

  // ---------- Logs that tell the two apart, and one that does not ----------

  /** An output sighted in the mempool at the deadline, and again just after it, in the first block. */
  function LateLog(p: Payment): seq<Observation> {
    [Observation(SAMPLE_TXID, 0, 5, 0, Some(p.expiresAt)),
     Observation(SAMPLE_TXID, 0, 5, p.createdHeight + 1, Some(p.expiresAt + 1))]
  }

  lemma LateSightings(p: Payment, k: Outpoint)
    requires 0 <= p.createdHeight && p.createdAt <= p.expiresAt
    ensures var log := LateLog(p);
      && Sightings(log, OPEN, k) == (if k == log[0].Key() then log else [])
      && Sightings(log, p.Window(), k) == (if k == log[0].Key() then [log[0]] else [])
  {
    var log := LateLog(p);
    assert log == [log[0]] + [log[1]] && [log[0]] == [] + [log[0]];
    SightingsAppend([], log[0], OPEN, k);
    SightingsAppend([log[0]], log[1], OPEN, k);
    SightingsAppend([], log[0], p.Window(), k);
    SightingsAppend([log[0]], log[1], p.Window(), k);
  }

  /** On that log five are confirmed for the store and none for the evaluator, at every tip and policy; with an
      invoice of five and enough blocks the one says paid and confirmed, the other unconfirmed. */
  lemma LateConfirmationCountsOnlyInStore(p: Payment, id: string, at: int, required: int, tip: int, now: int)
    requires 0 <= p.createdHeight && p.createdAt <= p.expiresAt && p.amount > 0 && required >= 0 && tip >= 0
    ensures var log := LateLog(p);
      var stored := EvaluateMerged(Counted(FoldRows(map[], Reports(log, id, at)), p.Window()),
                                   p.amount, required, tip, Some(p.expiresAt), now);
      && Storable(log) && NoOldHeights(log, p) && ValuesAgree(log)
      && Evaluate(p.amount, log, tip, required, p.Window(), now).Ok?
      && var e := Evaluate(p.amount, log, tip, required, p.Window(), now).value;
         && stored.received == e.received == 5 && stored.confirmed == 5 && e.confirmed == 0
         && (p.amount == 5 && required >= 1 && tip >= p.createdHeight + required ==>
               stored.status == PaidConfirmed && e.status == PaidUnconfirmed)
  {
    var log := LateLog(p);
    LateAdmissible(p);
    ScopedMergeSucceeds(log, p.Window());
    LateEntries(p, id, at);
    var a, b := Counted(FoldRows(map[], Reports(log, id, at)), p.Window()), Merge(log, p.Window()).value;
    FiveEvaluated(a, log[0].Key(), p, required, tip, now);
    FiveEvaluated(b, log[0].Key(), p, required, tip, now);
  }

  lemma FiveEvaluated(m: map<Outpoint, Observation>, k: Outpoint, p: Payment, required: int, tip: int, now: int)
    requires m.Keys == {k} && m[k].value == 5
    requires required >= 0 && tip >= 0 && p.createdHeight >= 0 && (m[k].height == 0 || m[k].height == p.createdHeight + 1)
    ensures var e := EvaluateMerged(m, p.amount, required, tip, Some(p.expiresAt), now);
      && e.received == 5 && e.confirmed == (if m[k].height == 0 then 0 else 5)
      && (p.amount == 5 && required >= 1 && tip >= p.createdHeight + required ==>
            e.status == if m[k].height == 0 then PaidUnconfirmed else PaidConfirmed)
  {
    OneEntry(m, k);
    assert Total(m, Received) == Share(m[k], Received) && Total(m, Confirmed) == Share(m[k], Confirmed);
    assert Total(m, Policy(required, tip)) == Share(m[k], Policy(required, tip));
  }

  lemma LateEntries(p: Payment, id: string, at: int)
    requires 0 <= p.createdHeight && p.createdAt <= p.expiresAt
    requires ValuesAgree(LateLog(p)) && Merge(LateLog(p), p.Window()).Ok?
    ensures var log, k := LateLog(p), LateLog(p)[0].Key();
      var a, b := Counted(FoldRows(map[], Reports(log, id, at)), p.Window()), Merge(log, p.Window()).value;
      && a.Keys == {k} == b.Keys && a[k].value == 5 == b[k].value
      && a[k].height == p.createdHeight + 1 && b[k].height == 0
  {
    var log, k := LateLog(p), LateLog(p)[0].Key();
    var a, b := Counted(FoldRows(map[], Reports(log, id, at)), p.Window()), Merge(log, p.Window()).value;
    forall q
      ensures q in a <==> q == k
      ensures q in b <==> q == k
    {
      LateStored(p, id, at, q);
      LateMerged(p, q);
    }
    LateStored(p, id, at, k);
    LateMerged(p, k);
  }

  lemma LateStored(p: Payment, id: string, at: int, q: Outpoint)
    requires 0 <= p.createdHeight && p.createdAt <= p.expiresAt && ValuesAgree(LateLog(p))
    ensures var log, a := LateLog(p), Counted(FoldRows(map[], Reports(LateLog(p), id, at)), p.Window());
      && (q in a <==> q == log[0].Key())
      && (q in a ==> a[q].value == 5 && a[q].height == p.createdHeight + 1)
  {
    LateAdmissible(p);
    StoredEntry(LateLog(p), p, q, id, at);
    LateLasts(p, q);
  }

  lemma LateAdmissible(p: Payment)
    requires 0 <= p.createdHeight && p.createdAt <= p.expiresAt
    ensures Storable(LateLog(p)) && NoOldHeights(LateLog(p), p) && ValuesAgree(LateLog(p))
  {
    LateValues(p);
  }

  lemma LateValues(p: Payment)
    requires 0 <= p.createdHeight && p.createdAt <= p.expiresAt
    ensures ValuesAgree(LateLog(p))
  {
    forall q
      ensures SameValue(Sightings(LateLog(p), OPEN, q))
    {
      LateSameValue(p, q);
    }
  }

  lemma LateSameValue(p: Payment, q: Outpoint)
    requires 0 <= p.createdHeight && p.createdAt <= p.expiresAt
    ensures SameValue(Sightings(LateLog(p), OPEN, q))
  {
    LateSightings(p, q);
  }

  lemma LateLasts(p: Payment, q: Outpoint)
    requires 0 <= p.createdHeight && p.createdAt <= p.expiresAt
    ensures var log, ks := LateLog(p), SeenInTime(LateLog(p), p);
      && (q in ks <==> q == log[0].Key()) && NoneEarly(log, p, q)
      && (q in ks ==> q in LastSightings(log, OPEN, ks) && LastSightings(log, OPEN, ks)[q] == log[1])
  {
    LateSightings(p, q);
    InTimeHasSighting(LateLog(p), p, q);
  }

  lemma LateMerged(p: Payment, q: Outpoint)
    requires 0 <= p.createdHeight && p.createdAt <= p.expiresAt && Merge(LateLog(p), p.Window()).Ok?
    ensures var log, b := LateLog(p), Merge(LateLog(p), p.Window()).value;
      && (q in b <==> q == log[0].Key())
      && (q in b ==> b[q].value == 5 && b[q].height == 0)
  {
    LateSightings(p, q);
    ScopedEntry(LateLog(p), p.Window(), q, Merge(LateLog(p), p.Window()).value);
  }

  lemma OneEntry(m: map<Outpoint, Observation>, k: Outpoint)
    requires m.Keys == {k}
    ensures forall measure :: Total(m, measure) == Share(m[k], measure)
  {
    assert m - {k} == map[];
    forall measure
      ensures Total(m, measure) == Share(m[k], measure)
    {
      TotalSplit(m, measure, k);
    }
  }

  const FIRST := Outpoint(SAMPLE_TXID, 0)
  const SECOND := Outpoint(SAMPLE_TXID, 1)

  /** Two outputs of equal value that change blocks with each other after the deadline. */
  function SwapLog(p: Payment): seq<Observation> {
    [Observation(SAMPLE_TXID, 0, 5, p.createdHeight + 1, Some(p.expiresAt)),
     Observation(SAMPLE_TXID, 1, 5, p.createdHeight + 2, Some(p.expiresAt)),
     Observation(SAMPLE_TXID, 0, 5, p.createdHeight + 2, Some(p.expiresAt + 1)),
     Observation(SAMPLE_TXID, 1, 5, p.createdHeight + 1, Some(p.expiresAt + 1))]
  }

  lemma SwapSightings(p: Payment, w: Window, k: Outpoint)
    requires 0 <= p.createdHeight && p.createdAt <= p.expiresAt && (w == OPEN || w == p.Window())
    ensures var log := SwapLog(p);
      var both := w == OPEN;
      Sightings(log, w, k) == if k == FIRST then (if both then [log[0], log[2]] else [log[0]])
                              else if k == SECOND then (if both then [log[1], log[3]] else [log[1]])
                              else []
  {
    var log := SwapLog(p);
    assert log[..1] == [] + [log[0]] && log[..2] == log[..1] + [log[1]] && log[..3] == log[..2] + [log[2]];
    assert log == log[..3] + [log[3]];
    SightingsAppend([], log[0], w, k);
    SightingsAppend(log[..1], log[1], w, k);
    SightingsAppend(log[..2], log[2], w, k);
    SightingsAppend(log[..3], log[3], w, k);
  }

  /** Being settled outpoint by outpoint is not necessary: moves of equal value can cancel. */
  lemma MovesCanCancel(p: Payment, id: string, at: int)
    requires 0 <= p.createdHeight && p.createdAt <= p.expiresAt && p.amount > 0
    ensures var log := SwapLog(p);
      && Storable(log) && NoOldHeights(log, p) && ValuesAgree(log)
      && !SettledInBlock(log, p, FIRST) && !SettledInBlock(log, p, SECOND)
      && SameVerdicts(log, p, FoldRows(map[], Reports(log, id, at)))
  {
    SwapAdmissible(p);
    SwapCancels(p);
    SwapOutpoint(p, FIRST);
    SwapOutpoint(p, SECOND);
    VerdictsAgreeExactly(SwapLog(p), p, id, at);
  }

  lemma SwapAdmissible(p: Payment)
    requires 0 <= p.createdHeight && p.createdAt <= p.expiresAt
    ensures Storable(SwapLog(p)) && NoOldHeights(SwapLog(p), p) && ValuesAgree(SwapLog(p))
  {
    forall k
      ensures SameValue(Sightings(SwapLog(p), OPEN, k))
    {
      SwapOutpoint(p, k);
    }
  }

  lemma SwapCancels(p: Payment)
    requires 0 <= p.createdHeight && p.createdAt <= p.expiresAt
    ensures var log, ks := SwapLog(p), SeenInTime(SwapLog(p), p);
      && (forall k :: k in ks ==> NoneEarly(log, p, k))
      && SameArrivals(LastSightings(log, OPEN, ks), LastSightings(log, p.Window(), ks))
  {
    var log, ks := SwapLog(p), SeenInTime(SwapLog(p), p);
    forall k | k in ks
      ensures NoneEarly(log, p, k)
    {
      SwapOutpoint(p, k);
    }
    SwapLasts(p);
    SwappedArrivals(LastSightings(log, OPEN, ks), LastSightings(log, p.Window(), ks));
  }

  lemma SwapOutpoint(p: Payment, k: Outpoint)
    requires 0 <= p.createdHeight && p.createdAt <= p.expiresAt
    ensures SameValue(Sightings(SwapLog(p), OPEN, k)) && NoneEarly(SwapLog(p), p, k)
    ensures k in SeenInTime(SwapLog(p), p) <==> k == FIRST || k == SECOND
    ensures k == FIRST || k == SECOND ==> !SettledInBlock(SwapLog(p), p, k)
  {
    SwapSightings(p, OPEN, k);
    SwapSightings(p, p.Window(), k);
    InTimeHasSighting(SwapLog(p), p, k);
  }

  lemma SwapLasts(p: Payment)
    requires 0 <= p.createdHeight && p.createdAt <= p.expiresAt
    ensures var log, ks := SwapLog(p), SeenInTime(SwapLog(p), p);
      var a, b := LastSightings(log, OPEN, ks), LastSightings(log, p.Window(), ks);
      && a.Keys == {FIRST, SECOND} == b.Keys
      && a[FIRST] == log[2] && a[SECOND] == log[3] && b[FIRST] == log[0] && b[SECOND] == log[1]
  {
    forall k
      ensures k in SeenInTime(SwapLog(p), p) <==> k == FIRST || k == SECOND
    {
      SwapOutpoint(p, k);
    }
    SwapLast(p, FIRST);
    SwapLast(p, SECOND);
  }

  lemma SwapLast(p: Payment, k: Outpoint)
    requires 0 <= p.createdHeight && p.createdAt <= p.expiresAt && (k == FIRST || k == SECOND)
    ensures var log, ks := SwapLog(p), SeenInTime(SwapLog(p), p);
      var a, b := LastSightings(log, OPEN, ks), LastSightings(log, p.Window(), ks);
      && k in a && a[k] == (if k == FIRST then log[2] else log[3])
      && k in b && b[k] == (if k == FIRST then log[0] else log[1])
  {
    SwapOutpoint(p, k);
    SwapSightings(p, OPEN, k);
    SwapSightings(p, p.Window(), k);
  }

  lemma SwappedArrivals(a: map<Outpoint, Observation>, b: map<Outpoint, Observation>)
    requires a.Keys == {FIRST, SECOND} == b.Keys
    requires a[FIRST].height == b[SECOND].height > 0 && a[SECOND].height == b[FIRST].height > 0
    requires a[FIRST].value == a[SECOND].value == b[FIRST].value == b[SECOND].value
    ensures SameArrivals(a, b)
  {
    forall h
      ensures Total(a, Policy(1, h)) == Total(b, Policy(1, h))
    {
      TwoEntries(a, Policy(1, h));
      TwoEntries(b, Policy(1, h));
    }
    assert Unconfirmed(a) == {} == Unconfirmed(b);
  }

  lemma TwoEntries(m: map<Outpoint, Observation>, measure: Measure)
    requires m.Keys == {FIRST, SECOND}
    ensures Total(m, measure) == Share(m[FIRST], measure) + Share(m[SECOND], measure)
  {
    TotalSplit(m, measure, FIRST);
    TotalSplit(m - {FIRST}, measure, SECOND);
    assert m - {FIRST} - {SECOND} == map[];
  }
}
