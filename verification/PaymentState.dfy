/**
 The transaction-level payment evaluator (backend/app/services/payment_state.py): which observed
 outputs belong to a payment, how repeated observations of one outpoint are merged, and which
 status the merged outputs give.
 */
module PaymentState {
  import opened Wrappers

  /** The identity of a received payment unit. */
  datatype Outpoint = Outpoint(txid: string, vout: int)

  datatype Observation = Observation(txid: string, vout: int, value: int, height: int, firstSeen: Option<int>) {
    function Key(): Outpoint {
      Outpoint(txid, vout)
    }
  }

  /** The optional creation and expiry boundaries a payment puts on its observations. */
  datatype Window = Window(createdHeight: Option<int>, createdAt: Option<int>, expiresAt: Option<int>)

  datatype Status = Waiting | SeenInMempool | Partial | PaidUnconfirmed | PaidConfirmed | Overpaid | Expired

  datatype Evaluation = Evaluation(
    status: Status,
    requested: int,
    received: int,
    confirmed: int,
    policyConfirmed: int,
    required: int,
    matchedCount: nat,
    mempoolCount: nat,
    expired: bool)

  datatype EvaluationError = NonPositiveAmount | NegativeConfirmations | NegativeTip | ConflictingValues

  function ConfirmationsForHeight(height: int, tip: int): (confirmations: nat)
    ensures confirmations > 0 <==> 0 < height <= tip
  {
    if height <= 0 || tip < height then 0 else tip - height + 1
  }

  predicate Belongs(o: Observation, w: Window) {
    && !(w.createdHeight.Some? && 0 < o.height <= w.createdHeight.value)
    && (w.createdAt.Some? ==>
          && !(o.height <= 0 && o.firstSeen.None?)
          && !(o.firstSeen.Some? && o.firstSeen.value < w.createdAt.value))
    && (w.expiresAt.Some? ==>
          && o.firstSeen.Some?
          && o.firstSeen.value <= w.expiresAt.value)
  }

  /** A sighting belongs to a payment if it is in the mempool or in a block above the payment's height; if its time
      is known, that is between creation and deadline; and if it is not, there is no deadline and it is in a block,
      or there is no window of time at all. A boundary that is not given does not count. */
  lemma BelongsMeaning(o: Observation, w: Window)
    ensures Belongs(o, w) <==>
              && (w.createdHeight == None || o.height <= 0 || o.height > w.createdHeight.value)
              && match o.firstSeen
                 case Some(seen) =>
                   (w.createdAt == None || seen >= w.createdAt.value) && (w.expiresAt == None || w.expiresAt.value >= seen)
                 case None => w.expiresAt == None && (w.createdAt == None || o.height > 0)
  {
  }

  function EarlierSeen(a: Option<int>, b: Option<int>): Option<int> {
    match (a, b)
    case (None, _) => b
    case (_, None) => a
    case (Some(x), Some(y)) => Some(if x <= y then x else y)
  }

  // ---------- Merging repeated observations ----------

  type Merged = Result<map<Outpoint, Observation>, EvaluationError>

  /** One turn of the deduplication loop: later chain position, earliest first-seen time. */
  function MergeOne(unique: map<Outpoint, Observation>, o: Observation): Merged {
    if o.Key() !in unique then
      Ok(unique[o.Key() := o])
    else if unique[o.Key()].value != o.value then
      Err(ConflictingValues)
    else
      Ok(unique[o.Key() := o.(firstSeen := EarlierSeen(unique[o.Key()].firstSeen, o.firstSeen))])
  }

  /** Scope a log of observations to a window and merge what belongs, oldest first. */
  function Merge(log: seq<Observation>, w: Window): Merged {
    if log == [] then
      Ok(map[])
    else
      var earlier := Merge(log[..|log| - 1], w);
      var last := log[|log| - 1];
      if earlier.Err? || !Belongs(last, w) then earlier else MergeOne(earlier.value, last)
  }

  /** The entries of a log that belong to the window and concern one outpoint, in log order. */
  function Sightings(log: seq<Observation>, w: Window, k: Outpoint): seq<Observation> {
    if log == [] then
      []
    else
      var last := log[|log| - 1];
      Sightings(log[..|log| - 1], w, k) + (if last.Key() == k && Belongs(last, w) then [last] else [])
  }

  ghost predicate SameValue(sightings: seq<Observation>) {
    forall i, j :: 0 <= i < |sightings| && 0 <= j < |sightings| ==> sightings[i].value == sightings[j].value
  }

  ghost predicate Earliest(sightings: seq<Observation>, seen: Option<int>) {
    && (forall i :: 0 <= i < |sightings| && sightings[i].firstSeen.Some? ==>
          seen.Some? && seen.value <= sightings[i].firstSeen.value)
    && (seen.Some? ==> exists i :: 0 <= i < |sightings| && sightings[i].firstSeen == seen)
  }

  /** What a merged entry says of the sightings of its outpoint. */
  ghost predicate Summary(sightings: seq<Observation>, k: Outpoint, o: Observation) {
    && sightings != []
    && o.Key() == k
    && o.value == sightings[0].value
    && o.height == sightings[|sightings| - 1].height
    && Earliest(sightings, o.firstSeen)
  }

  ghost predicate Agreeing(log: seq<Observation>, w: Window) {
    forall k :: SameValue(Sightings(log, w, k))
  }

  /** `unique` has an entry for each outpoint with a belonging sighting, and it sums up those sightings. */
  ghost predicate Summarised(log: seq<Observation>, w: Window, unique: map<Outpoint, Observation>) {
    forall k :: if k in unique then Summary(Sightings(log, w, k), k, unique[k]) else Sightings(log, w, k) == []
  }

  /** An output is counted once: merging fails exactly when two belonging sightings of one outpoint
      disagree on its value, and otherwise holds the last height, the common value and the earliest
      known time of every outpoint that has a belonging sighting. */
  lemma {:induction false} MergeMeaning(log: seq<Observation>, w: Window)
    ensures Merge(log, w).Ok? <==> Agreeing(log, w)
    ensures Merge(log, w).Err? ==> Merge(log, w).error == ConflictingValues
    ensures Merge(log, w).Ok? ==> Summarised(log, w, Merge(log, w).value)
  {
    if log != [] {
      var front, last := log[..|log| - 1], log[|log| - 1];
      assert log == front + [last];
      MergeMeaning(front, w);
      if Merge(front, w).Err? {
        var k :| !SameValue(Sightings(front, w, k));
        ClashStays(front, last, w, k);
      } else if !Belongs(last, w) {
        MergeSkips(front, last, w);
      } else if MergeOne(Merge(front, w).value, last).Ok? {
        MergeAdds(front, last, w, Merge(front, w).value);
      } else {
        MergeClashes(front, last, w, Merge(front, w).value);
      }
    }
  }

  lemma SightingsAppend(front: seq<Observation>, last: Observation, w: Window, k: Outpoint)
    ensures Sightings(front + [last], w, k)
            == Sightings(front, w, k) + (if last.Key() == k && Belongs(last, w) then [last] else [])
  {
    assert (front + [last])[..|front|] == front;
  }

  lemma ClashStays(front: seq<Observation>, last: Observation, w: Window, k: Outpoint)
    requires !SameValue(Sightings(front, w, k))
    ensures !Agreeing(front + [last], w)
  {
    SightingsAppend(front, last, w, k);
    var before, after := Sightings(front, w, k), Sightings(front + [last], w, k);
    assert before == after[..|before|];
    assert !SameValue(after);
  }

  lemma MergeSkips(front: seq<Observation>, last: Observation, w: Window)
    requires !Belongs(last, w) && Agreeing(front, w)
    ensures Agreeing(front + [last], w)
    ensures forall unique :: Summarised(front, w, unique) ==> Summarised(front + [last], w, unique)
  {
    forall k
      ensures Sightings(front + [last], w, k) == Sightings(front, w, k) && SameValue(Sightings(front, w, k))
    {
      SightingsAppend(front, last, w, k);
    }
  }

  lemma MergeAdds(front: seq<Observation>, last: Observation, w: Window, unique: map<Outpoint, Observation>)
    requires Belongs(last, w) && Agreeing(front, w) && Summarised(front, w, unique) && MergeOne(unique, last).Ok?
    ensures Agreeing(front + [last], w) && Summarised(front + [last], w, MergeOne(unique, last).value)
  {
    forall k
      ensures SameValue(Sightings(front + [last], w, k))
      ensures if k in MergeOne(unique, last).value
              then Summary(Sightings(front + [last], w, k), k, MergeOne(unique, last).value[k])
              else Sightings(front + [last], w, k) == []
    {
      MergeAddsAt(front, last, w, unique, k);
    }
  }

  lemma MergeAddsAt(front: seq<Observation>, last: Observation, w: Window, unique: map<Outpoint, Observation>, k: Outpoint)
    requires Belongs(last, w) && MergeOne(unique, last).Ok?
    requires SameValue(Sightings(front, w, k))
    requires if k in unique then Summary(Sightings(front, w, k), k, unique[k]) else Sightings(front, w, k) == []
    ensures SameValue(Sightings(front + [last], w, k))
    ensures if k in MergeOne(unique, last).value
            then Summary(Sightings(front + [last], w, k), k, MergeOne(unique, last).value[k])
            else Sightings(front + [last], w, k) == []
  {
    SightingsAppend(front, last, w, k);
    if k == last.Key() {
      if k in unique {
        SummaryGrows(Sightings(front, w, k), k, unique[k], last);
      } else {
        SummaryBegins(last, k);
        assert [] + [last] == [last];
      }
    } else {
      assert Sightings(front, w, k) + [] == Sightings(front, w, k);
    }
  }

  lemma SummaryBegins(o: Observation, k: Outpoint)
    requires o.Key() == k
    ensures Summary([o], k, o) && SameValue([o])
  {
    assert [o][0].firstSeen == o.firstSeen;
  }

  lemma MergeClashes(front: seq<Observation>, last: Observation, w: Window, unique: map<Outpoint, Observation>)
    requires Belongs(last, w) && Agreeing(front, w) && Summarised(front, w, unique) && MergeOne(unique, last).Err?
    ensures !Agreeing(front + [last], w) && MergeOne(unique, last).error == ConflictingValues
  {
    var k := last.Key();
    SightingsAppend(front, last, w, k);
    assert SameValue(Sightings(front, w, k));
    SummaryGrows(Sightings(front, w, k), k, unique[k], last);
    assert !SameValue(Sightings(front + [last], w, k));
  }

  lemma SummaryGrows(before: seq<Observation>, k: Outpoint, o: Observation, last: Observation)
    requires Summary(before, k, o) && SameValue(before) && last.Key() == k
    ensures SameValue(before + [last]) <==> o.value == last.value
    ensures o.value == last.value ==>
              Summary(before + [last], k, last.(firstSeen := EarlierSeen(o.firstSeen, last.firstSeen)))
  {
    var all := before + [last];
    assert all[0] == before[0] && all[|before|] == last;
    if o.value == last.value {
      var seen := EarlierSeen(o.firstSeen, last.firstSeen);
      if seen.Some? {
        if seen == last.firstSeen {
          assert all[|before|].firstSeen == seen;
        } else {
          var i :| 0 <= i < |before| && before[i].firstSeen == o.firstSeen;
          assert all[i].firstSeen == seen;
        }
      }
    }
  }

  /** The summary leaves no freedom beyond the identity of the outpoint. */
  lemma SummaryDetermines(sightings: seq<Observation>, k: Outpoint, o: Observation, o': Observation)
    requires Summary(sightings, k, o) && Summary(sightings, k, o')
    ensures o == o'
  {
    if o.firstSeen.Some? {
      var i :| 0 <= i < |sightings| && sightings[i].firstSeen == o.firstSeen;
    }
    if o'.firstSeen.Some? {
      var i :| 0 <= i < |sightings| && sightings[i].firstSeen == o'.firstSeen;
    }
  }

  /** The merging loop over a dictionary keyed by outpoint. */
  method MergeObservations(log: seq<Observation>, w: Window) returns (r: Merged)
    ensures r == Merge(log, w)
  {
    var unique: map<Outpoint, Observation> := map[];
    for i := 0 to |log|
      invariant Merge(log[..i], w) == Ok(unique)
    {
      var o := log[i];
      assert log[..i + 1][..i] == log[..i];
      if Belongs(o, w) {
        if o.Key() in unique {
          var previous := unique[o.Key()];
          if previous.value != o.value {
            MergeErrIsFinal(log, w, i + 1);
            return Err(ConflictingValues);
          }
          unique := unique[o.Key() := o.(firstSeen := EarlierSeen(previous.firstSeen, o.firstSeen))];
        } else {
          unique := unique[o.Key() := o];
        }
      }
    }
    assert log[..|log|] == log;
    return Ok(unique);
  }

  lemma {:induction false} MergeErrIsFinal(log: seq<Observation>, w: Window, n: nat)
    requires n <= |log| && Merge(log[..n], w).Err?
    ensures Merge(log, w) == Merge(log[..n], w)
    decreases |log| - n
  {
    if n == |log| {
      assert log[..n] == log;
    } else {
      assert log[..n + 1][..n] == log[..n];
      MergeErrIsFinal(log, w, n + 1);
    }
  }

  // ---------- Totals and status ----------

  /** The three sums the evaluator takes over the merged outputs. */
  datatype Measure = Received | Confirmed | Policy(required: int, tip: int)

  predicate Counts(o: Observation, measure: Measure) {
    match measure
    case Received => true
    case Confirmed => o.height > 0
    case Policy(required, tip) => required == 0 || ConfirmationsForHeight(o.height, tip) >= required
  }

  function Share(o: Observation, measure: Measure): int {
    if Counts(o, measure) then o.value else 0
  }

  ghost function Total(unique: map<Outpoint, Observation>, measure: Measure): int
    decreases |unique|
  {
    if unique == map[] then
      0
    else
      var k :| k in unique;
      Share(unique[k], measure) + Total(unique - {k}, measure)
  }

  /** A sum over the merged outputs may be taken in any order. */
  lemma {:induction false} TotalSplit(unique: map<Outpoint, Observation>, measure: Measure, k: Outpoint)
    requires k in unique
    ensures Total(unique, measure) == Share(unique[k], measure) + Total(unique - {k}, measure)
    decreases |unique|
  {
    var pick :| pick in unique && Total(unique, measure) == Share(unique[pick], measure) + Total(unique - {pick}, measure);
    if pick != k {
      TotalSplit(unique - {pick}, measure, k);
      TotalSplit(unique - {k}, measure, pick);
      assert unique - {pick} - {k} == unique - {k} - {pick};
    }
  }

  function DeriveStatus(received: int, policyConfirmed: int, requested: int, expired: bool, mempoolCount: nat): Status {
    if received > requested then Overpaid
    else if policyConfirmed >= requested then PaidConfirmed
    else if received >= requested then PaidUnconfirmed
    else if expired then Expired
    else if received > 0 then Partial
    else if mempoolCount > 0 then SeenInMempool
    else Waiting
  }

  ghost function Unconfirmed(unique: map<Outpoint, Observation>): set<Outpoint> {
    set k | k in unique && unique[k].height <= 0
  }

  ghost function EvaluateMerged(unique: map<Outpoint, Observation>, requested: int, required: int, tip: int,
                                expiresAt: Option<int>, now: int): Evaluation {
    var received := Total(unique, Received);
    var policyConfirmed := Total(unique, Policy(required, tip));
    var expired := expiresAt.Some? && now > expiresAt.value;
    var mempoolCount := |Unconfirmed(unique)|;
    Evaluation(
      DeriveStatus(received, policyConfirmed, requested, expired, mempoolCount),
      requested, received, Total(unique, Confirmed), policyConfirmed, required,
      |unique|, mempoolCount, expired)
  }

  ghost function Evaluate(requested: int, log: seq<Observation>, tip: int, required: int, w: Window, now: int)
    : Result<Evaluation, EvaluationError> {
    if requested <= 0 then Err(NonPositiveAmount)
    else if required < 0 then Err(NegativeConfirmations)
    else if tip < 0 then Err(NegativeTip)
    else
      match Merge(log, w)
      case Err(e) => Err(e)
      case Ok(unique) => Ok(EvaluateMerged(unique, requested, required, tip, w.expiresAt, now))
  }

  method SumOf(unique: map<Outpoint, Observation>, measure: Measure) returns (sum: int)
    ensures sum == Total(unique, measure)
  {
    sum := 0;
    var left := unique;
    while left != map[]
      invariant sum + Total(left, measure) == Total(unique, measure)
      decreases |left|
    {
      var k :| k in left;
      TotalSplit(left, measure, k);
      sum := sum + Share(left[k], measure);
      left := left - {k};
    }
  }

  method EvaluatePaymentObservations(requested: int, log: seq<Observation>, tip: int, required: int, w: Window, now: int)
    returns (r: Result<Evaluation, EvaluationError>)
    ensures r == Evaluate(requested, log, tip, required, w, now)
  {
    if requested <= 0 {
      return Err(NonPositiveAmount);
    }
    if required < 0 {
      return Err(NegativeConfirmations);
    }
    if tip < 0 {
      return Err(NegativeTip);
    }
    var merged := MergeObservations(log, w);
    if merged.Err? {
      return Err(merged.error);
    }
    var unique := merged.value;
    var received := SumOf(unique, Received);
    var confirmed := SumOf(unique, Confirmed);
    var mempoolCount := |set k | k in unique && unique[k].height <= 0|;
    var policyConfirmed := received;
    if required != 0 {
      policyConfirmed := SumOf(unique, Policy(required, tip));
    } else {
      TotalSameCounts(unique, Received, Policy(required, tip));
    }
    var expired := w.expiresAt.Some? && now > w.expiresAt.value;
    var status := DeriveStatus(received, policyConfirmed, requested, expired, mempoolCount);
    return Ok(Evaluation(status, requested, received, confirmed, policyConfirmed, required,
                         |unique|, mempoolCount, expired));
  }

  // ---------- What the totals and the status mean ----------

  ghost predicate Positive(unique: map<Outpoint, Observation>) {
    forall k :: k in unique ==> unique[k].value > 0
  }

  lemma {:induction false} TotalSameCounts(unique: map<Outpoint, Observation>, a: Measure, b: Measure)
    requires forall k :: k in unique ==> Counts(unique[k], a) == Counts(unique[k], b)
    ensures Total(unique, a) == Total(unique, b)
    decreases |unique|
  {
    if unique != map[] {
      var k :| k in unique;
      TotalSplit(unique, a, k);
      TotalSplit(unique, b, k);
      TotalSameCounts(unique - {k}, a, b);
    }
  }

  /** A measure that counts no more outputs sums to no more, and to the same only when it counts
      the same outputs. */
  lemma {:induction false} TotalMonotone(unique: map<Outpoint, Observation>, a: Measure, b: Measure)
    requires Positive(unique)
    requires forall k :: k in unique && Counts(unique[k], a) ==> Counts(unique[k], b)
    ensures 0 <= Total(unique, a) <= Total(unique, b)
    ensures Total(unique, a) == Total(unique, b) <==>
              forall k :: k in unique && Counts(unique[k], b) ==> Counts(unique[k], a)
    decreases |unique|
  {
    if unique != map[] {
      var k :| k in unique;
      TotalSplit(unique, a, k);
      TotalSplit(unique, b, k);
      var rest := unique - {k};
      TotalMonotone(rest, a, b);
      assert forall j :: j in unique <==> j == k || j in rest;
    }
  }

  lemma TotalZero(unique: map<Outpoint, Observation>)
    requires Positive(unique)
    ensures Total(unique, Received) >= 0
    ensures Total(unique, Received) == 0 <==> unique == map[]
  {
    if unique != map[] {
      var k :| k in unique;
      TotalSplit(unique, Received, k);
      TotalMonotone(unique - {k}, Received, Received);
    }
  }

  /** With a real confirmation policy, policy-confirmed value is confirmed and confirmed is received. */
  lemma TotalsNest(unique: map<Outpoint, Observation>, required: int, tip: int)
    requires Positive(unique)
    ensures 0 <= Total(unique, Policy(required, tip)) <= Total(unique, Received)
    ensures 0 <= Total(unique, Confirmed) <= Total(unique, Received)
    ensures Total(unique, Confirmed) == Total(unique, Received) <==> Unconfirmed(unique) == {}
    ensures required >= 1 ==> Total(unique, Policy(required, tip)) <= Total(unique, Confirmed)
    ensures required >= 1 ==>
              (Total(unique, Policy(required, tip)) == Total(unique, Confirmed) <==>
               forall k :: k in unique && unique[k].height > 0 ==> unique[k].height + required - 1 <= tip)
  {
    TotalMonotone(unique, Policy(required, tip), Received);
    TotalMonotone(unique, Confirmed, Received);
    assert forall k :: k in unique && !Counts(unique[k], Confirmed) <==> k in Unconfirmed(unique);
    if required >= 1 {
      TotalMonotone(unique, Policy(required, tip), Confirmed);
    }
  }

  /** Every counted output meets the confirmation policy. */
  ghost predicate AllConfirmed(unique: map<Outpoint, Observation>, required: int, tip: int) {
    forall k :: k in unique ==> ConfirmationsForHeight(unique[k].height, tip) >= required
  }

  /** Each status, in terms of the counted outputs alone. A positive output is already a partial
      payment, so `SeenInMempool` never appears. */
  lemma StatusMeaning(unique: map<Outpoint, Observation>, requested: int, required: int, tip: int,
                      expiresAt: Option<int>, now: int)
    requires Positive(unique) && requested > 0 && required >= 0
    ensures var e := EvaluateMerged(unique, requested, required, tip, expiresAt, now);
      var paid := Total(unique, Received);
      && (e.status == Overpaid <==> paid > requested)
      && (e.status == PaidConfirmed <==> paid == requested && AllConfirmed(unique, required, tip))
      && (e.status == PaidUnconfirmed <==> paid == requested && !AllConfirmed(unique, required, tip))
      && (e.status == Expired <==> paid < requested && expiresAt.Some? && now > expiresAt.value)
      && (e.status == Partial <==> 0 < paid < requested && (expiresAt.None? || now <= expiresAt.value))
      && (e.status == Waiting <==> unique == map[] && (expiresAt.None? || now <= expiresAt.value))
      && e.status != SeenInMempool
  {
    var e := EvaluateMerged(unique, requested, required, tip, expiresAt, now);
    TotalMonotone(unique, Policy(required, tip), Received);
    TotalZero(unique);
    if unique == map[] {
      assert Unconfirmed(unique) == {};
    }
  }

  /** An evaluation repeats what was asked, adds up the counted outputs, and counts them. */
  lemma EvaluationFields(unique: map<Outpoint, Observation>, requested: int, required: int, tip: int,
                         expiresAt: Option<int>, now: int)
    ensures var e := EvaluateMerged(unique, requested, required, tip, expiresAt, now);
      && e.requested == requested && e.required == required
      && e.received == Total(unique, Received) && e.confirmed == Total(unique, Confirmed)
      && e.policyConfirmed == Total(unique, Policy(required, tip))
      && e.matchedCount == |unique| && e.mempoolCount == |set k | k in unique && !(unique[k].height > 0)|
      && (e.expired <==> expiresAt != None && expiresAt.value < now)
  {
    assert (set k | k in unique && !(unique[k].height > 0)) == Unconfirmed(unique);
  }

  /** A longer chain can only turn an unconfirmed payment into a confirmed one. */
  lemma RaisingTip(unique: map<Outpoint, Observation>, requested: int, required: int, tip: int, tip': int,
                   expiresAt: Option<int>, now: int)
    requires Positive(unique) && requested > 0 && required >= 0 && tip <= tip'
    ensures var before := EvaluateMerged(unique, requested, required, tip, expiresAt, now);
      var after := EvaluateMerged(unique, requested, required, tip', expiresAt, now);
      && before.policyConfirmed <= after.policyConfirmed
      && after == before.(status := after.status, policyConfirmed := after.policyConfirmed)
      && (after.status == before.status || (before.status == PaidUnconfirmed && after.status == PaidConfirmed))
  {
    TotalMonotone(unique, Policy(required, tip), Policy(required, tip'));
    StatusMeaning(unique, requested, required, tip, expiresAt, now);
    StatusMeaning(unique, requested, required, tip', expiresAt, now);
  }

  /** The clock can only expire a payment that is still short: a payment completed in time is not
      undone by the deadline passing. */
  lemma PassingDeadline(unique: map<Outpoint, Observation>, requested: int, required: int, tip: int,
                        expiresAt: Option<int>, now: int, now': int)
    requires Positive(unique) && requested > 0 && required >= 0 && now <= now'
    ensures var before := EvaluateMerged(unique, requested, required, tip, expiresAt, now);
      var after := EvaluateMerged(unique, requested, required, tip, expiresAt, now');
      if Total(unique, Received) >= requested || before.status == Expired then after.status == before.status
      else if expiresAt.Some? && now' > expiresAt.value then after.status == Expired
      else after == before
  {
    StatusMeaning(unique, requested, required, tip, expiresAt, now);
    StatusMeaning(unique, requested, required, tip, expiresAt, now');
  }

  // ---------- Reading observations out of a transaction ----------

  datatype OutputIndex = Unnumbered | Numbered(n: int) | Unreadable

  /** A verbose transaction output. `amount` is its value in atomic units, or `None` when the
      value cannot be read exactly; `Opaque` is an entry that is not an object. */
  datatype Output = Entry(index: OutputIndex, addresses: set<string>, amount: Option<int>) | Opaque

  /** Verbose transaction data; `None` when it carries no list of outputs. */
  type TxData = Option<seq<Output>>

  datatype MatchError = Malformed

  predicate IsHex(c: char) {
    '0' <= c <= '9' || 'a' <= c <= 'f' || 'A' <= c <= 'F'
  }

  predicate IsTxid(s: string) {
    |s| == 64 && forall i :: 0 <= i < 64 ==> IsHex(s[i])
  }

  predicate Pays(o: Output, address: string) {
    o.Entry? && address in o.addresses
  }

  predicate WellFormed(o: Output) {
    && o.Entry?
    && !o.index.Unreadable?
    && (o.index.Numbered? ==> o.index.n >= 0)
    && o.amount.Some?
    && o.amount.value >= 0
  }

  /** The output index an entry stands for when it is at position `i`. */
  function Vout(o: Output, i: nat): int
    requires o.Entry?
  {
    if o.index.Numbered? then o.index.n else i
  }

  function MatchOutputs(outputs: seq<Output>, address: string, height: int, txid: string, seen: Option<int>)
    : Result<seq<Observation>, MatchError> {
    if outputs == [] then
      Ok([])
    else
      var n := |outputs| - 1;
      var earlier, o := MatchOutputs(outputs[..n], address, height, txid, seen), outputs[n];
      if earlier.Err? || !Pays(o, address) then earlier
      else if !WellFormed(o) then Err(Malformed)
      else if o.amount.value == 0 then earlier
      else Ok(earlier.value + [Observation(txid, Vout(o, n), o.amount.value, height, seen)])
  }

  function MatchTransaction(tx: TxData, address: string, height: int, txid: string, seen: Option<int>)
    : Result<seq<Observation>, MatchError> {
    if !IsTxid(txid) || tx.None? then Err(Malformed) else MatchOutputs(tx.value, address, height, txid, seen)
  }

  /** The output at position `i` pays the address `value`, more than nothing, under the index `vout`: the one it
      carries or, if it carries none, its position. */
  predicate Credits(outputs: seq<Output>, i: nat, address: string, vout: int, value: int) {
    && i < |outputs| && outputs[i].Entry? && address in outputs[i].addresses
    && outputs[i].amount == Some(value) && value > 0
    && ((outputs[i].index == Numbered(vout) && vout >= 0) || (outputs[i].index == Unnumbered && vout == i))
  }

  /** The output at position `i` is to the address, and its index or its amount cannot be read. */
  predicate Spoils(outputs: seq<Output>, i: nat, address: string) {
    && i < |outputs| && outputs[i].Entry? && address in outputs[i].addresses
    && (|| outputs[i].index == Unreadable || (outputs[i].index.Numbered? && outputs[i].index.n < 0)
        || outputs[i].amount == None || outputs[i].amount.value < 0)
  }

  /** Reading the outputs fails exactly when one to the address is spoilt, and otherwise reports every positive
      output to the address, under its index, with the history's height and time, and nothing else. */
  lemma {:induction false} MatchMeaning(outputs: seq<Output>, address: string, height: int, txid: string,
                                        seen: Option<int>)
    ensures var r := MatchOutputs(outputs, address, height, txid, seen);
      && (r.Err? <==> exists i: nat :: Spoils(outputs, i, address))
      && (r.Ok? ==> forall o :: o in r.value <==>
            && o.txid == txid && o.height == height && o.firstSeen == seen
            && exists i: nat :: Credits(outputs, i, address, o.vout, o.value))
  {
    if outputs != [] {
      var n := |outputs| - 1;
      var front, r := outputs[..n], MatchOutputs(outputs, address, height, txid, seen);
      MatchMeaning(front, address, height, txid, seen);
      SpoilsEarlier(outputs, address);
      if MatchOutputs(front, address, height, txid, seen).Ok? {
        LastOutput(outputs, address, height, txid, seen);
        forall o: Observation
          ensures (exists i: nat :: Credits(outputs, i, address, o.vout, o.value))
                  <==> (|| (exists i: nat :: Credits(front, i, address, o.vout, o.value))
                        || Credits(outputs, n, address, o.vout, o.value))
        {
          CreditsEarlier(outputs, address, o.vout, o.value);
        }
      }
    }
  }

  lemma SpoilsEarlier(outputs: seq<Output>, address: string)
    requires outputs != []
    ensures var n := |outputs| - 1;
      (exists i: nat :: Spoils(outputs, i, address))
      <==> (exists i: nat :: Spoils(outputs[..n], i, address)) || Spoils(outputs, n, address)
  {
    var n := |outputs| - 1;
    assert forall i: nat :: i < n ==> Spoils(outputs, i, address) == Spoils(outputs[..n], i, address);
  }

  lemma CreditsEarlier(outputs: seq<Output>, address: string, vout: int, value: int)
    requires outputs != []
    ensures var n := |outputs| - 1;
      (exists i: nat :: Credits(outputs, i, address, vout, value))
      <==> (exists i: nat :: Credits(outputs[..n], i, address, vout, value)) || Credits(outputs, n, address, vout, value)
  {
    var n := |outputs| - 1;
    assert forall i: nat :: i < n ==>
        Credits(outputs, i, address, vout, value) == Credits(outputs[..n], i, address, vout, value);
  }

  /** What the last output adds to the reading. */
  lemma LastOutput(outputs: seq<Output>, address: string, height: int, txid: string, seen: Option<int>)
    requires outputs != [] && MatchOutputs(outputs[..|outputs| - 1], address, height, txid, seen).Ok?
    ensures var n := |outputs| - 1;
      var earlier := MatchOutputs(outputs[..n], address, height, txid, seen).value;
      var r := MatchOutputs(outputs, address, height, txid, seen);
      && (r.Err? <==> Spoils(outputs, n, address))
      && (r.Ok? ==> forall o ::
            o in r.value <==> (o in earlier || (o.txid == txid && o.height == height && o.firstSeen == seen
                                                && Credits(outputs, n, address, o.vout, o.value))))
  {
  }

  /** The same of a whole transaction, which also fails when its id is not 64 hexadecimal digits or it carries no
      list of outputs. */
  lemma TransactionMeaning(tx: TxData, address: string, height: int, txid: string, seen: Option<int>)
    ensures var r := MatchTransaction(tx, address, height, txid, seen);
      && (r.Err? <==> || |txid| != 64 || (exists c :: c in txid && c !in "0123456789abcdefABCDEF") || tx == None
                      || exists i: nat :: Spoils(tx.value, i, address))
      && (r.Ok? ==> forall o :: o in r.value <==>
            && o.txid == txid && o.height == height && o.firstSeen == seen
            && exists i: nat :: Credits(tx.value, i, address, o.vout, o.value))
  {
    if tx.Some? {
      MatchMeaning(tx.value, address, height, txid, seen);
    }
    forall c: char
      ensures c in "0123456789abcdefABCDEF" <==> IsHex(c)
    {
      HexDigits(c);
    }
    if IsTxid(txid) {
      assert forall c :: c in txid ==> IsHex(c);
    } else if |txid| == 64 {
      var i :| 0 <= i < 64 && !IsHex(txid[i]);
      assert txid[i] in txid;
    }
  }

  lemma HexDigits(c: char)
    ensures c in "0123456789abcdefABCDEF" <==> IsHex(c)
  {
    var s := "0123456789abcdefABCDEF";
    assert forall i :: 0 <= i < 10 ==> s[i] as int == '0' as int + i;
    assert forall i :: 10 <= i < 16 ==> s[i] as int == 'a' as int + (i - 10);
    assert forall i :: 16 <= i < 22 ==> s[i] as int == 'A' as int + (i - 16);
    if '0' <= c <= '9' {
      assert s[c as int - '0' as int] == c;
    } else if 'a' <= c <= 'f' {
      assert s[c as int - 'a' as int + 10] == c;
    } else if 'A' <= c <= 'F' {
      assert s[c as int - 'A' as int + 16] == c;
    }
  }

  method MatchTransactionOutputs(tx: TxData, address: string, height: int, txid: string, seen: Option<int>)
    returns (r: Result<seq<Observation>, MatchError>)
    ensures r == MatchTransaction(tx, address, height, txid, seen)
  {
    if !IsTxid(txid) || tx.None? {
      return Err(Malformed);
    }
    var outputs, observations := tx.value, [];
    for i := 0 to |outputs|
      invariant MatchOutputs(outputs[..i], address, height, txid, seen) == Ok(observations)
    {
      var o := outputs[i];
      assert outputs[..i + 1][..i] == outputs[..i];
      if Pays(o, address) {
        if !WellFormed(o) {
          MatchErrIsFinal(outputs, i, address, height, txid, seen);
          return Err(Malformed);
        }
        if o.amount.value != 0 {
          observations := observations + [Observation(txid, Vout(o, i), o.amount.value, height, seen)];
        }
      }
    }
    assert outputs[..|outputs|] == outputs;
    return Ok(observations);
  }

  lemma MatchErrIsFinal(outputs: seq<Output>, i: nat, address: string, height: int, txid: string, seen: Option<int>)
    requires Spoils(outputs, i, address)
    ensures MatchOutputs(outputs, address, height, txid, seen) == Err(Malformed)
  {
    MatchMeaning(outputs, address, height, txid, seen);
    assert MatchOutputs(outputs, address, height, txid, seen).error.Malformed?;
  }
}
