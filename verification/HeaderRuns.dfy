/**
 Headers over whole runs (backend/app/services/payment_watcher.py, payment_store.py): whatever the clocks
 said and whoever wrote in between, what a stored payment says is not behind after a header that reaches it.
 */
module HeaderRuns {
  import opened Wrappers
  import opened PaymentState
  import opened PaymentTables
  import opened StoreInvariants
  import opened Creation
  import opened PaymentRows
  import opened PaymentWatcher
  import opened Reconciliation
  import opened ReconcileTwice
  import opened HeaderRefresh

  // ---------- Accounted for ----------

  /** What is stored about the payment is what its recorded rows come to at this time and tip. */
  ghost predicate Judged(t: Tables, id: string, at: int, tip: int) {
    && id in t.payments
    && var p := t.payments[id];
       Agrees(p, EvaluateMerged(Counted(RowsOf(t, id), p.Window()), p.amount, p.required, tip, Some(p.expiresAt), at))
  }

  /** Waiting, with nothing recorded and nothing counted. */
  predicate Untouched(t: Tables, id: string) {
    && id in t.payments && RowsOf(t, id) == map[]
    && var p := t.payments[id];
       p.status == Waiting && p.received == 0 && p.confirmed == 0 && p.policyConfirmed == 0
  }

  ghost predicate Accounted(t: Tables, id: string, times: set<int>) {
    Untouched(t, id) || exists at, tip :: at in times && Judged(t, id, at, tip)
  }

  function RefreshTimes(steps: seq<Step>): set<int> {
    set i | 0 <= i < |steps| && steps[i].Refresh? :: steps[i].at
  }

  predicate RowStep(s: Step) {
    s.Upsert? || s.DeleteNotIn?
  }

  lemma TimesSplit(s: Step, rest: seq<Step>)
    ensures RefreshTimes([s] + rest) == RefreshTimes([s]) + RefreshTimes(rest)
    ensures RefreshTimes([s]) == if s.Refresh? then {s.at} else {}
  {
    var all := [s] + rest;
    assert forall i :: 0 <= i < |rest| ==> all[i + 1] == rest[i];
    assert all[0] == s && [s][0] == s;
    forall at
      ensures at in RefreshTimes(all) <==> at in RefreshTimes([s]) || at in RefreshTimes(rest)
    {
      if at in RefreshTimes(all) {
        var i :| 0 <= i < |all| && all[i].Refresh? && all[i].at == at;
        assert i > 0 ==> rest[i - 1].at == at && rest[i - 1].Refresh?;
      }
      if at in RefreshTimes(rest) {
        var i :| 0 <= i < |rest| && rest[i].Refresh? && rest[i].at == at;
        assert all[i + 1].Refresh? && all[i + 1].at == at;
      }
    }
  }

  lemma Regroup(a: set<int>, b: set<int>, c: set<int>)
    ensures a + b + c == a + (b + c)
  {
  }

  lemma RefreshJudges(t: Tables, id: string, at: int)
    requires RowsSound(t) && id in t.payments
    ensures Judged(RefreshPayment(t, id, at).tables, id, at, TipFor(t, t.payments[id]))
    ensures Current(RefreshPayment(t, id, at).tables, id, at)
  {
    RefreshSucceeds(t, id, at);
    RefreshStores(t, id, at);
    RefreshIsCurrent(t, id, at);
    assert RowsOf(RefreshPayment(t, id, at).tables, id) == RowsOf(t, id);
  }

  /** A payment a step neither refreshes nor touches the rows of stays as it is. */
  lemma LeftAlone(t: Tables, s: Step, id: string)
    requires id in t.payments && !TouchesRows(s, id) && !(s.Refresh? && s.paymentId == id)
    ensures id in Apply(t, s).payments && Apply(t, s).payments[id] == t.payments[id]
    ensures RowsOf(Apply(t, s), id) == RowsOf(t, id)
  {
    PaymentUntouched(t, s, id);
    RowsAfterStep(t, s, id);
  }

  lemma NewIsUntouched(t: Tables, s: Step, id: string)
    requires RowsSound(t) && id !in t.payments && id in Apply(t, s).payments
    ensures Untouched(Apply(t, s), id) && s.Create? && s.req.paymentId == id
    ensures Apply(t, s).payments[id].expiresAt == s.req.expiresAt
  {
    NewPaymentHasNoRows(t, s, id);
    match s
    case Create(req) => CreateAnatomy(t, req);
    case Refresh(other, at) => RefreshAnatomy(t, other, at);
    case _ => OtherStepsFrame(t, s);
  }

  lemma StepAccounted(t: Tables, s: Step, id: string, times: set<int>)
    requires RowsSound(t) && !TouchesRows(s, id) && id in Apply(t, s).payments
    requires id in t.payments ==> Accounted(t, id, times)
    ensures Accounted(Apply(t, s), id, times + RefreshTimes([s]))
  {
    TimesSplit(s, []);
    if id !in t.payments {
      NewIsUntouched(t, s, id);
    } else if s.Refresh? && s.paymentId == id {
      RefreshJudges(t, id, s.at);
    } else {
      LeftAlone(t, s, id);
      if !Untouched(t, id) {
        var at, tip :| at in times && Judged(t, id, at, tip);
        assert Judged(Apply(t, s), id, at, tip);
      }
    }
  }

  lemma {:induction false} RunAccounted(t: Tables, steps: seq<Step>, id: string, times: set<int>)
    requires RowsSound(t) && (forall s :: s in steps ==> !TouchesRows(s, id)) && id in Run(t, steps).payments
    requires id in t.payments ==> Accounted(t, id, times)
    ensures Accounted(Run(t, steps), id, times + RefreshTimes(steps))
    decreases |steps|
  {
    if steps != [] {
      var s, rest := steps[0], steps[1..];
      assert s in steps && steps == [s] + rest;
      TimesSplit(s, rest);
      StepKeepsRows(t, s);
      if id in Apply(t, s).payments {
        StepAccounted(t, s, id, times);
      }
      RunAccounted(Apply(t, s), rest, id, times + RefreshTimes([s]));
      Regroup(times, RefreshTimes([s]), RefreshTimes(rest));
    } else {
      assert times + RefreshTimes(steps) == times;
    }
  }

  // ---------- What being accounted for means ----------

  predicate NoneAfter(times: set<int>, now: int) {
    forall at :: at in times ==> at <= now
  }

  lemma JudgedCases(t: Tables, id: string, at: int, tip: int)
    requires RowsSound(t) && Judged(t, id, at, tip)
    ensures t.payments[id].status == Expired ==> CurrentButPolicy(t, id, at) && at > t.payments[id].expiresAt
    ensures t.payments[id].status != Expired && RowsOf(t, id) == map[] ==> Untouched(t, id)
  {
    var p := t.payments[id];
    var counted := Counted(RowsOf(t, id), p.Window());
    RefreshSucceeds(t, id, at);
    StatusMeaning(counted, p.amount, p.required, tip, Some(p.expiresAt), at);
    StatusMeaning(counted, p.amount, p.required, TipFor(t, p), Some(p.expiresAt), at);
    if RowsOf(t, id) == map[] {
      assert counted == map[];
    }
  }

  lemma UntouchedIsUpToDate(t: Tables, id: string, now: int)
    requires RowsSound(t) && Untouched(t, id) && now <= t.payments[id].expiresAt
    ensures UpToDate(t, id, now)
  {
    var p := t.payments[id];
    RefreshSucceeds(t, id, now);
    assert Counted(RowsOf(t, id), p.Window()) == map[];
    StatusMeaning(map[], p.amount, p.required, TipFor(t, p), Some(p.expiresAt), now);
  }

  lemma LaterStillExpired(t: Tables, id: string, at: int, now: int)
    requires RowsSound(t) && CurrentButPolicy(t, id, at) && t.payments[id].status == Expired && at <= now
    ensures UpToDate(t, id, now)
  {
    ExpiredStaysExpired(t, t, id, at, now);
  }

  /** A payment whose story ends no later than now is up to date, or one a header would refresh now. */
  lemma AccountedIsKept(t: Tables, id: string, times: set<int>, now: int)
    requires RowsSound(t) && Accounted(t, id, times) && NoneAfter(times, now)
    ensures Kept(t, id, now)
  {
    if !Untouched(t, id) {
      var at, tip :| at in times && Judged(t, id, at, tip);
      JudgedCases(t, id, at, tip);
      if t.payments[id].status == Expired {
        LaterStillExpired(t, id, at, now);
      }
    }
    if Untouched(t, id) && now <= t.payments[id].expiresAt {
      UntouchedIsUpToDate(t, id, now);
    }
  }

  // ---------- A header among other writes ----------

  /** A write made while a header is applied: no rows and no other tip. */
  predicate Aside(s: Step) {
    !RowStep(s) && !s.SetTip?
  }

  predicate Refreshes(steps: seq<Step>, id: string) {
    exists i :: 0 <= i < |steps| && steps[i].Refresh? && steps[i].paymentId == id
  }

  ghost predicate CurrentAt(t: Tables, id: string, times: set<int>) {
    exists at :: at in times && Current(t, id, at)
  }

  lemma AsideKeepsTip(t: Tables, s: Step)
    requires Aside(s)
    ensures Apply(t, s).tip == t.tip
  {
    match s
    case Create(req) => CreateAnatomy(t, req);
    case Refresh(id, at) => RefreshAnatomy(t, id, at);
    case _ => BookkeepingFrame(t, s);
  }

  lemma StepKeepsCurrent(t: Tables, s: Step, id: string, times: set<int>)
    requires RowsSound(t) && Aside(s) && id in t.payments
    requires CurrentAt(t, id, times) || (s.Refresh? && s.paymentId == id)
    ensures id in Apply(t, s).payments && CurrentAt(Apply(t, s), id, times + RefreshTimes([s]))
  {
    TimesSplit(s, []);
    if s.Refresh? && s.paymentId == id {
      RefreshJudges(t, id, s.at);
    } else {
      LeftAlone(t, s, id);
      AsideKeepsTip(t, s);
      var at :| at in times && Current(t, id, at);
      assert EvaluatePayment(Apply(t, s), id, at) == EvaluatePayment(t, id, at);
      assert Current(Apply(t, s), id, at);
    }
  }

  /** A payment refreshed among such writes ends current at the time of one of its refreshes. */
  lemma {:induction false} RunCurrent(t: Tables, steps: seq<Step>, id: string, times: set<int>)
    requires RowsSound(t) && (forall s :: s in steps ==> Aside(s)) && id in t.payments
    requires CurrentAt(t, id, times) || Refreshes(steps, id)
    ensures id in Run(t, steps).payments && CurrentAt(Run(t, steps), id, times + RefreshTimes(steps))
    decreases |steps|
  {
    if steps == [] {
      assert times + RefreshTimes(steps) == times;
    } else {
      var s, rest := steps[0], steps[1..];
      assert s in steps && steps == [s] + rest;
      TimesSplit(s, rest);
      FirstOfRun(t, s, rest, id, times);
      RunCurrent(Apply(t, s), rest, id, times + RefreshTimes([s]));
      Regroup(times, RefreshTimes([s]), RefreshTimes(rest));
    }
  }

  lemma FirstOfRun(t: Tables, s: Step, rest: seq<Step>, id: string, times: set<int>)
    requires RowsSound(t) && Aside(s) && id in t.payments
    requires CurrentAt(t, id, times) || Refreshes([s] + rest, id)
    ensures RowsSound(Apply(t, s)) && id in Apply(t, s).payments
    ensures CurrentAt(Apply(t, s), id, times + RefreshTimes([s])) || Refreshes(rest, id)
  {
    StepKeepsRows(t, s);
    StepPersists(t, s);
    if CurrentAt(t, id, times) || (s.Refresh? && s.paymentId == id) {
      StepKeepsCurrent(t, s, id, times);
    } else {
      var i :| 0 <= i < |[s] + rest| && ([s] + rest)[i].Refresh? && ([s] + rest)[i].paymentId == id;
      assert rest[i - 1] == ([s] + rest)[i];
    }
  }

  lemma FromUntouched(t: Tables, steps: seq<Step>, id: string)
    requires RowsSound(t) && (forall s :: s in steps ==> Aside(s)) && Untouched(t, id)
    ensures Untouched(Run(t, steps), id) || CurrentAt(Run(t, steps), id, RefreshTimes(steps))
    ensures id in Run(t, steps).payments && Run(t, steps).payments[id].expiresAt == t.payments[id].expiresAt
  {
    RunPersists(t, steps);
    if Refreshes(steps, id) {
      RunCurrent(t, steps, id, {});
      assert {} + RefreshTimes(steps) == RefreshTimes(steps);
    } else {
      RunLeavesAlone(t, steps, id);
    }
  }

  /** A payment created among such writes is untouched or current, on the terms one of them asked for. */
  lemma {:induction false} RunCreates(t: Tables, steps: seq<Step>, id: string)
    requires RowsSound(t) && (forall s :: s in steps ==> Aside(s)) && id !in t.payments && id in Run(t, steps).payments
    ensures Untouched(Run(t, steps), id) || CurrentAt(Run(t, steps), id, RefreshTimes(steps))
    ensures exists i :: 0 <= i < |steps| && steps[i].Create? && steps[i].req.paymentId == id
                        && Run(t, steps).payments[id].expiresAt == steps[i].req.expiresAt
    decreases |steps|
  {
    var s, rest := steps[0], steps[1..];
    var u := Apply(t, s);
    assert s in steps && steps == [s] + rest;
    TimesSplit(s, rest);
    StepKeepsRows(t, s);
    if id in u.payments {
      NewIsUntouched(t, s, id);
      FromUntouched(u, rest, id);
      assert steps[0].Create?;
    } else {
      RunCreates(u, rest, id);
      var i :| 0 <= i < |rest| && rest[i].Create? && rest[i].req.paymentId == id
               && Run(t, steps).payments[id].expiresAt == rest[i].req.expiresAt;
      assert steps[i + 1] == rest[i];
    }
  }

  lemma {:induction false} RunLeavesAlone(t: Tables, steps: seq<Step>, id: string)
    requires id in t.payments && (forall s :: s in steps ==> Aside(s)) && !Refreshes(steps, id)
    ensures id in Run(t, steps).payments && Run(t, steps).payments[id] == t.payments[id]
    ensures RowsOf(Run(t, steps), id) == RowsOf(t, id)
    decreases |steps|
  {
    if steps != [] {
      var s, rest := steps[0], steps[1..];
      assert s in steps && !(s.Refresh? && s.paymentId == id);
      LeftAlone(t, s, id);
      assert forall i :: 0 <= i < |rest| ==> rest[i] == steps[i + 1];
      assert !Refreshes(rest, id);
      RunLeavesAlone(Apply(t, s), rest, id);
    }
  }

  /** Up to date as of some moment, or untouched. */
  ghost predicate Standing(t: Tables, id: string, times: set<int>) {
    Untouched(t, id) || exists at :: at in times && UpToDate(t, id, at)
  }

  /** Nothing of the header's turn, nor of what was before it, is dated after it; and no payment created
      meanwhile closes before it. */
  predicate Punctual(writes: seq<Step>, at: int, times: set<int>) {
    && NoneAfter(times, at)
    && (forall i :: 0 <= i < |writes| && writes[i].Refresh? ==> writes[i].at == at)
    && (forall i :: 0 <= i < |writes| && writes[i].Create? ==> writes[i].req.expiresAt >= at)
  }

  lemma UnlistedStands(t: Tables, u: Tables, id: string, times: set<int>, at: int)
    requires RowsSound(t) && RowsSound(u) && Accounted(t, id, times) && !Refreshable(t, id, at)
    requires id in u.payments && u.payments[id] == t.payments[id] && RowsOf(u, id) == RowsOf(t, id)
    ensures Standing(u, id, times)
    ensures NoneAfter(times, at) ==> UpToDate(u, id, at)
  {
    if Untouched(t, id) {
      UntouchedIsUpToDate(u, id, at);
    } else {
      var b, tip :| b in times && Judged(t, id, b, tip);
      assert Judged(u, id, b, tip);
      JudgedCases(u, id, b, tip);
      if t.payments[id].status == Expired {
        LaterStillExpired(u, id, b, b);
        if b <= at {
          LaterStillExpired(u, id, b, at);
        }
      } else {
        UntouchedIsUpToDate(u, id, at);
      }
    }
  }

  /** Once a header's tip is stored, a payment that it makes refreshable and that has been refreshed stands, and
      so does one that it does not make refreshable, whatever else was written in between. */
  lemma HeaderStands(t: Tables, height: int, hash: Option<string>, at: int, writes: seq<Step>, id: string, times: set<int>)
    requires RowsSound(t) && height >= 0 && (forall s :: s in writes ==> Aside(s))
    requires Refreshable(t, id, at) ==> Refreshes(writes, id)
    requires id in t.payments ==> Accounted(t, id, times)
    requires id in Run(SetChainTip(t, height, hash, at).tables, writes).payments
    ensures var u := Run(SetChainTip(t, height, hash, at).tables, writes);
      && Standing(u, id, times + RefreshTimes(writes))
      && (Punctual(writes, at, times) ==> UpToDate(u, id, at))
  {
    var tipped := SetChainTip(t, height, hash, at).tables;
    assert tipped == t.(tip := tipped.tip);
    TipKeepsRows(t, height, hash, at);
    RunRowsSound(tipped, writes);
    var u := Run(tipped, writes);
    if id !in t.payments {
      RunCreates(tipped, writes, id);
      CreatedStands(u, writes, id, at);
    } else if Refreshes(writes, id) {
      RunCurrent(tipped, writes, id, {});
      RefreshedStands(u, writes, id, at);
    } else {
      RunLeavesAlone(tipped, writes, id);
      UnlistedStands(t, u, id, times, at);
    }
  }

  lemma RefreshedStands(u: Tables, writes: seq<Step>, id: string, at: int)
    requires CurrentAt(u, id, {} + RefreshTimes(writes))
    ensures exists b :: b in RefreshTimes(writes) && UpToDate(u, id, b)
    ensures (forall i :: 0 <= i < |writes| && writes[i].Refresh? ==> writes[i].at == at) ==> UpToDate(u, id, at)
  {
    var b :| b in {} + RefreshTimes(writes) && Current(u, id, b);
    assert UpToDate(u, id, b);
  }

  lemma CreatedStands(u: Tables, writes: seq<Step>, id: string, at: int)
    requires RowsSound(u) && (Untouched(u, id) || CurrentAt(u, id, RefreshTimes(writes)))
    requires id in u.payments
    requires exists i :: 0 <= i < |writes| && writes[i].Create? && writes[i].req.paymentId == id
                         && u.payments[id].expiresAt == writes[i].req.expiresAt
    ensures Standing(u, id, RefreshTimes(writes))
    ensures Punctual(writes, at, {}) ==> UpToDate(u, id, at)
  {
    if CurrentAt(u, id, RefreshTimes(writes)) {
      assert {} + RefreshTimes(writes) == RefreshTimes(writes);
      RefreshedStands(u, writes, id, at);
    } else if at <= u.payments[id].expiresAt {
      UntouchedIsUpToDate(u, id, at);
    }
  }

  // ---------- Whole runs ----------

  /** A turn of the system: a header's tip with everything written until its refreshes are done, one payment's
      row steps with everything written until its refresh at `at`, or any single write that touches no rows. */
  datatype Turn =
    | NewHeader(height: int, hash: Option<string>, at: int, writes: seq<Step>)
    | Record(id: string, writes: seq<Step>, at: int)
    | Write(s: Step)

  function TurnSteps(turn: Turn): seq<Step> {
    match turn
    case NewHeader(height, hash, at, writes) => [SetTip(height, hash, at)] + writes
    case Record(id, writes, at) => writes + [Refresh(id, at)]
    case Write(s) => [s]
  }

  /** Nothing is asked of clocks, nor of which payments a header refreshes. */
  ghost predicate Allowed(t: Tables, turn: Turn) {
    match turn
    case NewHeader(height, _, at, writes) =>
      height >= 0 && forall s :: s in writes ==> Aside(s)
    case Record(id, writes, _) => id in t.payments && forall s :: s in writes && RowStep(s) ==> s.paymentId == id
    case Write(s) => !RowStep(s)
  }

  ghost function Turned(t: Tables, turns: seq<Turn>): Tables
    decreases |turns|
  {
    if turns == [] then t
    else Run(Turned(t, turns[..|turns| - 1]), TurnSteps(turns[|turns| - 1]))
  }

  ghost predicate AllAllowed(t: Tables, turns: seq<Turn>)
    decreases |turns|
  {
    turns == [] ||
    (AllAllowed(t, turns[..|turns| - 1]) && Allowed(Turned(t, turns[..|turns| - 1]), turns[|turns| - 1]))
  }

  /** The times at which payments were refreshed in a run. */
  function TimesOf(turns: seq<Turn>): set<int> {
    if turns == [] then {} else TimesOf(turns[..|turns| - 1]) + RefreshTimes(TurnSteps(turns[|turns| - 1]))
  }

  ghost predicate AllAccounted(t: Tables, times: set<int>) {
    forall id :: id in t.payments ==> Accounted(t, id, times)
  }

  lemma TurnAccounts(t: Tables, turn: Turn, id: string, times: set<int>)
    requires RowsSound(t) && AllAccounted(t, times) && Allowed(t, turn) && id in Run(t, TurnSteps(turn)).payments
    ensures Accounted(Run(t, TurnSteps(turn)), id, times + RefreshTimes(TurnSteps(turn)))
  {
    if turn.Record? && turn.id == id {
      RecordJudges(t, id, turn.writes, turn.at);
    } else {
      RowsLeftAlone(t, turn, id);
      RunAccounted(t, TurnSteps(turn), id, times);
    }
  }

  lemma RecordJudges(t: Tables, id: string, writes: seq<Step>, at: int)
    requires RowsSound(t) && id in t.payments
    ensures exists tip :: Judged(Run(t, writes + [Refresh(id, at)]), id, at, tip)
    ensures at in RefreshTimes(writes + [Refresh(id, at)])
  {
    var u := Run(t, writes);
    StillThere(t, writes, id);
    RefreshJudges(u, id, at);
    RunThenRefresh(t, writes, id, at);
    assert (writes + [Refresh(id, at)])[|writes|] == Refresh(id, at);
  }

  lemma RunThenRefresh(t: Tables, writes: seq<Step>, id: string, at: int)
    ensures Run(t, writes + [Refresh(id, at)]) == RefreshPayment(Run(t, writes), id, at).tables
  {
    RunThen(t, writes, Refresh(id, at));
  }

  lemma StillThere(t: Tables, steps: seq<Step>, id: string)
    requires RowsSound(t) && id in t.payments
    ensures RowsSound(Run(t, steps)) && id in Run(t, steps).payments
  {
    RunRowsSound(t, steps);
    RunPersists(t, steps);
  }

  lemma RowsLeftAlone(t: Tables, turn: Turn, id: string)
    requires Allowed(t, turn) && !(turn.Record? && turn.id == id)
    ensures forall s :: s in TurnSteps(turn) ==> !TouchesRows(s, id)
  {
    forall s | s in TurnSteps(turn)
      ensures !TouchesRows(s, id)
    {
      match turn
      case NewHeader(height, hash, at, writes) => assert s == SetTip(height, hash, at) || s in writes;
      case Record(q, writes, at) => assert s in writes || s == Refresh(q, at);
      case Write(w) => assert s == w;
    }
  }

  lemma {:induction false} TurnsAccount(turns: seq<Turn>)
    requires AllAllowed(EMPTY_TABLES, turns)
    ensures RowsSound(Turned(EMPTY_TABLES, turns)) && AllAccounted(Turned(EMPTY_TABLES, turns), TimesOf(turns))
    decreases |turns|
  {
    EmptySound();
    if turns != [] {
      var front, last := turns[..|turns| - 1], turns[|turns| - 1];
      var t := Turned(EMPTY_TABLES, front);
      TurnsAccount(front);
      RunRowsSound(t, TurnSteps(last));
      forall id | id in Run(t, TurnSteps(last)).payments
        ensures Accounted(Run(t, TurnSteps(last)), id, TimesOf(turns))
      {
        TurnAccounts(t, last, id, TimesOf(front));
      }
    }
  }

  /** In every run from an empty database of headers, reconciles and any other writes, interleaved, with clocks
      in any order: a payment is up to date now, or the next header will refresh it, for every now that is not
      before the last refresh. Right after a header that refreshed it, if it was refreshable, it is up to date as of
      one of the run's refreshes, or untouched; and as of the header, if nothing was dated later. Up to date leaves
      out one thing: an expired payment's policy total. */
  lemma HeadersKeepStatuses(before: seq<Turn>, last: Turn, id: string)
    requires AllAllowed(EMPTY_TABLES, before + [last]) && id in Turned(EMPTY_TABLES, before + [last]).payments
    ensures var t, times := Turned(EMPTY_TABLES, before + [last]), TimesOf(before + [last]);
      && (forall now :: NoneAfter(times, now) ==> Kept(t, id, now))
      && (last.NewHeader? && Reached(Turned(EMPTY_TABLES, before), last, id) ==>
            && Standing(t, id, times)
            && (Punctual(last.writes, last.at, TimesOf(before)) ==> UpToDate(t, id, last.at)))
  {
    var turns := before + [last];
    assert turns[..|turns| - 1] == before && turns[|turns| - 1] == last;
    var t, times := Turned(EMPTY_TABLES, turns), TimesOf(turns);
    TurnsAccount(turns);
    forall now | NoneAfter(times, now)
      ensures Kept(t, id, now)
    {
      AccountedIsKept(t, id, times, now);
    }
    if last.NewHeader? && Reached(Turned(EMPTY_TABLES, before), last, id) {
      TurnsAccount(before);
      var u := Turned(EMPTY_TABLES, before);
      HeaderUnfolds(u, last);
      HeaderStands(u, last.height, last.hash, last.at, last.writes, id, TimesOf(before));
    }
  }

  /** The header refreshes the payment, if it makes it refreshable. */
  ghost predicate Reached(t: Tables, header: Turn, id: string)
    requires header.NewHeader?
  {
    Refreshable(t, id, header.at) ==> Refreshes(header.writes, id)
  }

  lemma HeaderUnfolds(t: Tables, turn: Turn)
    requires turn.NewHeader?
    ensures Run(t, TurnSteps(turn)) == Run(SetChainTip(t, turn.height, turn.hash, turn.at).tables, turn.writes)
    ensures RefreshTimes(TurnSteps(turn)) == RefreshTimes(turn.writes)
  {
    assert TurnSteps(turn)[1..] == turn.writes;
    TimesSplit(SetTip(turn.height, turn.hash, turn.at), turn.writes);
  }

  // ---------- The watcher's own turns ----------

  /** A header as the watcher applies it is such a turn: the tip, what others write before the listing, the
      listing, and the refreshes of the listed payments among more writes of others. A payment it makes
      refreshable is reached if the list has it or another process refreshed it before the listing; so all are
      reached if, when listed, no more of them were left than the list may hold. */
  lemma ListedHeader(t: Tables, height: int, hash: Option<string>, at: int, waiting: seq<Step>, bound: nat,
                     ids: seq<string>, refreshing: seq<Step>)
    requires height >= 0 && (forall s :: s in waiting ==> Aside(s)) && (forall s :: s in refreshing ==> Aside(s))
    requires ListsRefreshable(Run(SetChainTip(t, height, hash, at).tables, waiting), at, bound, ids)
    requires forall q :: q in ids ==> Refreshes(refreshing, q)
    ensures var u := Run(SetChainTip(t, height, hash, at).tables, waiting);
      var turn := NewHeader(height, hash, at, waiting + refreshing);
      && Allowed(t, turn)
      && (forall q :: q in ids || Refreshes(waiting, q) ==> Reached(t, turn, q))
      && (|AllRefreshable(u, at)| <= bound ==> forall q :: Reached(t, turn, q))
  {
    var tipped := SetChainTip(t, height, hash, at).tables;
    var u, turn := Run(tipped, waiting), NewHeader(height, hash, at, waiting + refreshing);
    assert tipped == t.(tip := tipped.tip);
    ListCovers(u, at, bound, ids);
    forall q | q in ids || Refreshes(waiting, q)
      ensures Reached(t, turn, q)
    {
      RefreshedEither(waiting, refreshing, q);
    }
    if |AllRefreshable(u, at)| <= bound {
      forall q | Refreshable(t, q, at)
        ensures Reached(t, turn, q)
      {
        if !Refreshes(waiting, q) {
          RunLeavesAlone(tipped, waiting, q);
          assert Refreshable(u, q, at);
        }
      }
    }
  }

  lemma RefreshedEither(a: seq<Step>, b: seq<Step>, id: string)
    ensures Refreshes(a + b, id) <==> Refreshes(a, id) || Refreshes(b, id)
  {
    if Refreshes(a, id) {
      var i :| 0 <= i < |a| && a[i].Refresh? && a[i].paymentId == id;
      assert (a + b)[i] == a[i];
    }
    if Refreshes(b, id) {
      var i :| 0 <= i < |b| && b[i].Refresh? && b[i].paymentId == id;
      assert (a + b)[|a| + i] == b[i];
    }
  }

  /** With nobody writing in between, a header reaches exactly the payments it lists and those it need not
      refresh, and so all of them exactly when there are no more refreshable payments than the list may hold. */
  lemma PlainHeader(t: Tables, height: int, hash: Option<string>, at: int, bound: nat, ids: seq<string>)
    requires height >= 0 && ListsRefreshable(SetChainTip(t, height, hash, at).tables, at, bound, ids)
    ensures var turn := NewHeader(height, hash, at, RefreshSteps(ids, at));
      && Allowed(t, turn)
      && (forall q :: Reached(t, turn, q) <==> q in ids || !Refreshable(t, q, at))
      && ((forall q :: Reached(t, turn, q)) <==> |AllRefreshable(t, at)| <= bound)
  {
    var tipped, turn := SetChainTip(t, height, hash, at).tables, NewHeader(height, hash, at, RefreshSteps(ids, at));
    assert tipped == t.(tip := tipped.tip);
    assert AllRefreshable(tipped, at) == AllRefreshable(t, at);
    ListCovers(tipped, at, bound, ids);
    forall q
      ensures Refreshes(RefreshSteps(ids, at), q) <==> q in ids
    {
      if q in ids {
        var i :| 0 <= i < |ids| && ids[i] == q;
        assert RefreshSteps(ids, at)[i] == Refresh(q, at);
      }
    }
    assert forall q :: Refreshable(tipped, q, at) <==> Refreshable(t, q, at);
    if !Covers(tipped, at, ids) {
      var q :| Refreshable(tipped, q, at) && q !in ids;
      assert !Reached(t, turn, q);
    }
  }

  /** So is a payment's reconcile, whatever its history and however long ago its clock was read. */
  lemma PlainReconcile(t: Tables, id: string, history: seq<HistoryEntry>, chain: Chain, at: int)
    requires id in t.payments
    ensures var r := Reads(t, id, history, chain);
      Allowed(t, Record(id, StepsOf(id, r, at), at))
      && TurnSteps(Record(id, StepsOf(id, r, at), at)) == PaymentSteps(t, id, history, chain, at)
  {
    ReconcileMakesChainSteps(id, Reads(t, id, history, chain), at);
  }
}
