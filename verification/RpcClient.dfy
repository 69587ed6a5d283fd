/**
 The ElectrumX subscription client (backend/app/electrumx/subscription_client.py): requests and one
 reader loop share a table of pending futures. Each stretch of code between two awaits is one atomic
 step; requests interleave freely with the reader, and one task at a time connects or closes.
 */
module RpcClient {
  import opened Wrappers

  datatype ClientError = Unavailable | ConnectionClosed | ResponseTooLarge | InvalidJson | InvalidResponse

  /** What a reply carries besides its id. */
  datatype Body = Result(value: string) | Error(data: string) | Empty

  datatype Future = Waiting | Answer(value: string) | Refused(data: string) | MissingResult | Broken(error: ClientError)
                  | Cancelled

  /** How far a call of `close` has got. */
  datatype Phase = Idle | AwaitingReader | ReaderGone | PendingFailed

  /** `pending` holds the ids in the client's table, `futures` every future ever created, `writerOpen` says
      there is a writer that is not closing, `readerTask` that the client holds its reader task. */
  datatype Client = Client(requestId: nat, pending: set<nat>, futures: map<nat, Future>, writerOpen: bool,
                           readerTask: bool, readerRunning: bool, closing: bool, closedEvent: bool, phase: Phase)

  const INITIAL := Client(0, {}, map[], false, false, false, false, false, Idle)

  // ---------- Specification ----------

  function Settle(body: Body): Future {
    match body
    case Result(v) => Answer(v)
    case Error(d) => Refused(d)
    case Empty => MissingResult
  }

  predicate Connected(c: Client) {
    c.writerOpen && c.readerTask && c.readerRunning
  }

  function FailAll(futures: map<nat, Future>, pending: set<nat>, e: ClientError): (r: map<nat, Future>)
    ensures r.Keys == futures.Keys
  {
    map id | id in futures :: if id in pending && futures[id] == Waiting then Broken(e) else futures[id]
  }

  function Opened(c: Client): Client {
    c.(writerOpen := true, readerTask := true, readerRunning := true, closing := false, closedEvent := false)
  }

  function Begun(c: Client): Client {
    var id := c.requestId + 1;
    c.(requestId := id, pending := c.pending + {id}, futures := c.futures[id := Waiting])
  }

  function Finished(c: Client, id: nat): Client {
    var futures := if id in c.futures && c.futures[id] == Waiting then c.futures[id := Cancelled] else c.futures;
    c.(pending := c.pending - {id}, futures := futures)
  }

  /** Only a pending request that has not been settled takes a reply. */
  function Replied(c: Client, id: int, body: Body): Client {
    if id in c.pending && id in c.futures && c.futures[id] == Waiting
    then c.(futures := c.futures[id := Settle(body)])
    else c
  }

  function ReaderEnded(c: Client, failure: Option<ClientError>): Client {
    var futures := if failure.Some? then FailAll(c.futures, c.pending, failure.value) else c.futures;
    c.(futures := futures, readerRunning := false, closedEvent := true)
  }

  function CloseBegun(c: Client, ownTask: bool): Client {
    c.(closing := true, readerTask := false, phase := if c.readerTask && !ownTask then AwaitingReader else ReaderGone)
  }

  function CloseFailed(c: Client): Client {
    c.(writerOpen := false, futures := FailAll(c.futures, c.pending, Unavailable), phase := PendingFailed)
  }

  function CloseEnded(c: Client): Client {
    c.(closedEvent := true, phase := Idle)
  }

  // ---------- The client ----------

  class SubscriptionClient {
    var requestId: nat
    var pending: set<nat>
    var futures: map<nat, Future>
    var writerOpen: bool
    var readerTask: bool
    var readerRunning: bool
    var closing: bool
    var closedEvent: bool
    ghost var phase: Phase

    ghost function View(): Client
      reads this
    {
      Client(requestId, pending, futures, writerOpen, readerTask, readerRunning, closing, closedEvent, phase)
    }

    constructor ()
      ensures View() == INITIAL
    {
      requestId, pending, futures := 0, {}, map[];
      writerOpen, readerTask, readerRunning, closing, closedEvent := false, false, false, false, false;
      phase := Idle;
    }

    /** `connect`, once the connection is open and the reader task has been created. */
    method Open()
      modifies this
      ensures View() == Opened(old(View()))
    {
      closing, closedEvent := false, false;
      writerOpen, readerTask, readerRunning := true, true, true;
    }

    /** `request` up to its first await: refused unless connected, or else a new pending id. */
    method BeginRequest() returns (id: Option<nat>)
      modifies this`requestId, this`pending, this`futures
      ensures if Connected(old(View())) then id == Some(old(requestId) + 1) && View() == Begun(old(View()))
              else id == None && View() == old(View())
    {
      if !(writerOpen && readerTask && readerRunning) {
        return None;
      }
      requestId := requestId + 1;
      futures := futures[requestId := Waiting];
      pending := pending + {requestId};
      return Some(requestId);
    }

    /** The end of a request: answered, failed, timed out or cancelled. */
    method FinishRequest(id: nat)
      modifies this`pending, this`futures
      ensures View() == Finished(old(View()), id)
    {
      pending := pending - {id};
      if id in futures && futures[id] == Waiting {
        futures := futures[id := Cancelled];
      }
    }

    /** The reader loop on a reply whose id converts to an integer. */
    method Dispatch(id: int, body: Body)
      modifies this`futures
      ensures View() == Replied(old(View()), id, body)
    {
      if id !in pending || id !in futures || futures[id] != Waiting {
        return;
      }
      match body {
        case Error(data) => futures := futures[id := Refused(data)];
        case Empty => futures := futures[id := MissingResult];
        case Result(value) => futures := futures[id := Answer(value)];
      }
    }

    method FailPending(e: ClientError)
      modifies this`futures
      ensures futures == FailAll(old(futures), pending, e)
    {
      var left := pending;
      while left != {}
        invariant left <= pending && futures == FailAll(old(futures), pending - left, e)
        decreases left
      {
        var id :| id in left;
        if id in futures && futures[id] == Waiting {
          futures := futures[id := Broken(e)];
        }
        left := left - {id};
        assert futures == FailAll(old(futures), pending - left, e);
      }
      assert pending - {} == pending;
    }

    /** The reader loop's way out: `error` is what stopped it, none when it was cancelled. */
    method EndReader(error: Option<ClientError>)
      modifies this`futures, this`readerRunning, this`closedEvent
      ensures var failure := if error.None? && !old(closing) then Some(ConnectionClosed) else error;
        View() == ReaderEnded(old(View()), failure)
    {
      var failure := error;
      if failure.None? && !closing {
        failure := Some(ConnectionClosed);
      }
      if failure.Some? {
        FailPending(failure.value);
      }
      readerRunning, closedEvent := false, true;
    }

    /** `close` up to awaiting the reader task, which it does unless it runs in that task itself. */
    method BeginClose(ownTask: bool)
      modifies this`closing, this`readerTask, this`phase
      ensures View() == CloseBegun(old(View()), ownTask)
    {
      phase := if readerTask && !ownTask then AwaitingReader else ReaderGone;
      closing := true;
      readerTask := false;
    }

    /** `close` once the reader task is done with. */
    method FailOnClose()
      modifies this`writerOpen, this`futures, this`phase
      ensures View() == CloseFailed(old(View()))
    {
      writerOpen := false;
      FailPending(Unavailable);
      phase := PendingFailed;
    }

    /** `close` after the writer has closed. */
    method EndClose()
      modifies this`closedEvent, this`phase
      ensures View() == CloseEnded(old(View()))
    {
      closedEvent := true;
      phase := Idle;
    }
  }

  // ---------- Runs ----------

  datatype Step =
    | Connect
    | Begin
    | Finish(id: nat)
    | Reply(replyId: int, body: Body)
    | TransportCloses
    | ReaderEnds(failure: Option<ClientError>)
    | CloseBegins(ownTask: bool)
    | CloseFails
    | CloseEnds

  /** When each step can happen: requests begin when connected and end once; the reader takes replies
      while it runs, and goes without an error only if `close` is under way or done; `close` waits for the
      reader before it fails what is pending; a connection is opened after `close` has returned. */
  predicate Enabled(c: Client, s: Step) {
    match s
    case Connect => c.phase == Idle && c.closing && !c.readerRunning
    case Begin => Connected(c)
    case Finish(id) => id in c.pending
    case Reply(_, _) => c.readerRunning
    case TransportCloses => true
    case ReaderEnds(failure) => c.readerRunning && (failure.None? ==> c.closing)
    case CloseBegins(_) => c.phase == Idle
    case CloseFails => c.phase == ReaderGone || (c.phase == AwaitingReader && !c.readerRunning)
    case CloseEnds => c.phase == PendingFailed
  }

  function Next(c: Client, s: Step): Client {
    match s
    case Connect => Opened(c)
    case Begin => Begun(c)
    case Finish(id) => Finished(c, id)
    case Reply(id, body) => Replied(c, id, body)
    case TransportCloses => c.(writerOpen := false)
    case ReaderEnds(failure) => ReaderEnded(c, failure)
    case CloseBegins(ownTask) => CloseBegun(c, ownTask)
    case CloseFails => CloseFailed(c)
    case CloseEnds => CloseEnded(c)
  }

  function Run(c: Client, steps: seq<Step>): Client
    decreases |steps|
  {
    if steps == [] then c else Run(Next(c, steps[0]), steps[1..])
  }

  predicate Legal(c: Client, steps: seq<Step>)
    decreases |steps|
  {
    steps == [] || (Enabled(c, steps[0]) && Legal(Next(c, steps[0]), steps[1..]))
  }

  // ---------- Invariant ----------

  /** No future is left unresolved. */
  ghost predicate AllSettled(c: Client) {
    forall id :: id in c.futures ==> c.futures[id] != Waiting
  }

  /** Someone will still settle what is waiting: the reader, or a `close` that has not failed it yet. */
  predicate Guarded(c: Client) {
    c.phase == AwaitingReader || c.phase == ReaderGone || (c.phase == Idle && !c.closing && c.readerRunning)
  }

  ghost predicate Good(c: Client) {
    && (forall id :: id in c.futures <==> 1 <= id <= c.requestId)
    && (forall id :: id in c.pending ==> id in c.futures)
    && (forall id :: id in c.futures && c.futures[id] == Waiting ==> id in c.pending)
    && (AllSettled(c) || Guarded(c))
    && (c.phase != Idle ==> c.closing)
    && (c.readerTask ==> !c.closing)
    && (c.closing && (c.phase == Idle || c.phase == PendingFailed) ==> !c.writerOpen)
  }

  lemma StepKeepsGood(c: Client, s: Step)
    requires Good(c) && Enabled(c, s)
    ensures Good(Next(c, s))
  {
    match s
    case ReaderEnds(failure) => FailingSettles(c, ConnectionClosed);
      if failure.Some? {
        FailingSettles(c, failure.value);
      }
    case CloseFails => FailingSettles(c, Unavailable);
    case _ =>
  }

  lemma FailingSettles(c: Client, e: ClientError)
    requires forall id :: id in c.futures && c.futures[id] == Waiting ==> id in c.pending
    ensures forall id :: id in c.futures ==> FailAll(c.futures, c.pending, e)[id] != Waiting
  {
  }

  lemma {:induction false} RunKeepsGood(c: Client, steps: seq<Step>)
    requires Good(c) && Legal(c, steps)
    ensures Good(Run(c, steps))
    decreases |steps|
  {
    if steps != [] {
      StepKeepsGood(c, steps[0]);
      RunKeepsGood(Next(c, steps[0]), steps[1..]);
    }
  }

  /** In every interleaving, nothing is left unresolved once the reader loop has ended outside `close`, nor
      from the moment `close` fails the pending requests until the next connection. */
  lemma NothingLeftWaiting(steps: seq<Step>)
    requires Legal(INITIAL, steps)
    ensures var c := Run(INITIAL, steps);
      && (c.phase == Idle && !c.readerRunning ==> AllSettled(c))
      && (c.phase == PendingFailed ==> AllSettled(c))
      && (c.phase == Idle && c.closing ==> AllSettled(c))
  {
    RunKeepsGood(INITIAL, steps);
  }

  // ---------- Correlation ----------

  /** The step settles the request: a reply with its id, its own end, or a failure of everything pending. */
  predicate Settling(s: Step, id: nat) {
    || (s.Reply? && s.replyId == id) || s == Finish(id) || (s.ReaderEnds? && s.failure.Some?) || s == CloseFails
  }

  /** Step `i` is the first that settles the request. */
  ghost predicate Settler(later: seq<Step>, id: nat, i: nat) {
    i < |later| && Settling(later[i], id) && forall j :: 0 <= j < i ==> !Settling(later[j], id)
  }

  /** What a future says of the step that settled it. */
  ghost predicate Reflects(f: Future, s: Step) {
    && (forall v :: f == Answer(v) <==> s.Reply? && s.body == Result(v))
    && (forall d :: f == Refused(d) <==> s.Reply? && s.body == Error(d))
    && (f == MissingResult <==> s.Reply? && s.body == Empty)
    && (f == Cancelled <==> s.Finish?)
    && (forall e :: f == Broken(e) <==> s == ReaderEnds(Some(e)) || (s == CloseFails && e == Unavailable))
    && f != Waiting
  }

  /** A settled future never changes again. */
  lemma {:induction false} SettledForGood(c: Client, steps: seq<Step>, id: nat)
    requires Good(c) && Legal(c, steps) && id in c.futures && c.futures[id] != Waiting
    ensures id in Run(c, steps).futures && Run(c, steps).futures[id] == c.futures[id]
    decreases |steps|
  {
    if steps != [] {
      StepKeepsGood(c, steps[0]);
      SettledForGood(Next(c, steps[0]), steps[1..], id);
    }
  }

  /** A waiting future is what the first settling step makes it, and waits if there is none. */
  ghost predicate Follows(f: Future, later: seq<Step>, id: nat) {
    && (f == Waiting <==> forall i :: 0 <= i < |later| ==> !Settling(later[i], id))
    && forall i: nat :: Settler(later, id, i) ==> Reflects(f, later[i])
  }

  lemma {:induction false} WaitingFollows(c: Client, steps: seq<Step>, id: nat)
    requires Good(c) && Legal(c, steps) && id in c.futures && c.futures[id] == Waiting
    ensures id in Run(c, steps).futures && Follows(Run(c, steps).futures[id], steps, id)
    decreases |steps|
  {
    if steps != [] {
      var c' := Next(c, steps[0]);
      StepKeepsGood(c, steps[0]);
      StepSettles(c, steps[0], id);
      if Settling(steps[0], id) {
        SettledForGood(c', steps[1..], id);
        assert Settler(steps, id, 0);
      } else {
        WaitingFollows(c', steps[1..], id);
        LaterFollows(Run(c, steps).futures[id], steps, id);
      }
    }
  }

  lemma StepSettles(c: Client, s: Step, id: nat)
    requires Good(c) && Enabled(c, s) && id in c.futures && c.futures[id] == Waiting
    ensures id in Next(c, s).futures
    ensures if Settling(s, id) then Reflects(Next(c, s).futures[id], s) else Next(c, s).futures[id] == Waiting
  {
  }

  lemma LaterFollows(f: Future, later: seq<Step>, id: nat)
    requires later != [] && !Settling(later[0], id) && Follows(f, later[1..], id)
    ensures Follows(f, later, id)
  {
    var rest := later[1..];
    assert forall i :: 0 <= i < |rest| ==> rest[i] == later[i + 1];
    forall i: nat | Settler(later, id, i)
      ensures Reflects(f, later[i])
    {
      assert Settler(rest, id, i - 1);
    }
  }

  /** The first settling step is this one. */
  ghost predicate SettledBy(later: seq<Step>, id: nat, s: Step) {
    exists i: nat :: Settler(later, id, i) && later[i] == s
  }

  /** The future holds a result, an error or the lack of both exactly if the first settling step is the reply with
      this id that carries it, and anything else only if that step ended the request or failed it. */
  ghost predicate SettledExactly(f: Future, later: seq<Step>, id: nat) {
    && (forall v :: f == Answer(v) <==> SettledBy(later, id, Reply(id, Result(v))))
    && (forall d :: f == Refused(d) <==> SettledBy(later, id, Reply(id, Error(d))))
    && (f == MissingResult <==> SettledBy(later, id, Reply(id, Empty)))
    && (f == Cancelled <==> SettledBy(later, id, Finish(id)))
    && (forall e :: f == Broken(e) <==> SettledBy(later, id, ReaderEnds(Some(e)))
                                        || (e == Unavailable && SettledBy(later, id, CloseFails)))
    && (f == Waiting <==> forall i :: 0 <= i < |later| ==> !Settling(later[i], id))
  }

  lemma {:induction false} FirstExists(later: seq<Step>, id: nat)
    requires exists i :: 0 <= i < |later| && Settling(later[i], id)
    ensures exists i: nat :: Settler(later, id, i)
    decreases |later|
  {
    if Settling(later[0], id) {
      assert Settler(later, id, 0);
    } else {
      var rest := later[1..];
      var i :| 0 <= i < |later| && Settling(later[i], id);
      assert rest[i - 1] == later[i];
      FirstExists(rest, id);
      var j: nat :| Settler(rest, id, j);
      assert Settler(later, id, j + 1);
    }
  }

  /** In every interleaving, a request's future is exactly what the first step that settles it says: the result, the
      error or the emptiness of the first reply with its id, unless it ended or everything pending failed before
      that; and no later step changes it. */
  lemma RepliesReachTheirRequests(before: seq<Step>, after: seq<Step>)
    requires Legal(INITIAL, before + [Begin] + after)
    ensures var id := Run(INITIAL, before).requestId + 1;
      && id !in Run(INITIAL, before).futures
      && id in Run(INITIAL, before + [Begin] + after).futures
      && SettledExactly(Run(INITIAL, before + [Begin] + after).futures[id], after, id)
  {
    assert before + ([Begin] + after) == before + [Begin] + after;
    LegalSplit(INITIAL, before, [Begin] + after);
    var c := Run(INITIAL, before);
    RunKeepsGood(INITIAL, before);
    StepKeepsGood(c, Begin);
    assert ([Begin] + after)[1..] == after;
    var id := c.requestId + 1;
    WaitingFollows(Begun(c), after, id);
    FollowsExactly(Run(INITIAL, before + [Begin] + after).futures[id], after, id);
  }

  lemma FollowsExactly(f: Future, later: seq<Step>, id: nat)
    requires Follows(f, later, id)
    ensures SettledExactly(f, later, id)
  {
    if f != Waiting {
      FirstExists(later, id);
      var i: nat :| Settler(later, id, i);
      assert Reflects(f, later[i]);
      assert forall j: nat :: Settler(later, id, j) ==> j == i;
    }
  }

  lemma {:induction false} LegalSplit(c: Client, a: seq<Step>, b: seq<Step>)
    requires Legal(c, a + b)
    ensures Legal(c, a) && Legal(Run(c, a), b) && Run(c, a + b) == Run(Run(c, a), b)
    decreases |a|
  {
    if a == [] {
      assert a + b == b;
    } else {
      assert (a + b)[1..] == a[1..] + b;
      LegalSplit(Next(c, a[0]), a[1..], b);
    }
  }

  /** Ids are never reused, over reconnections too: a later request always gets a higher id. */
  lemma IdsNeverReused(before: seq<Step>, between: seq<Step>)
    ensures Run(INITIAL, before).requestId + 1 < Run(INITIAL, before + [Begin] + between).requestId + 1
  {
    RunSplit(INITIAL, before, [Begin] + between);
    assert before + ([Begin] + between) == before + [Begin] + between;
    assert ([Begin] + between)[1..] == between;
    IdsGrow(Begun(Run(INITIAL, before)), between);
  }

  lemma {:induction false} RunSplit(c: Client, a: seq<Step>, b: seq<Step>)
    ensures Run(c, a + b) == Run(Run(c, a), b)
    decreases |a|
  {
    if a == [] {
      assert a + b == b;
    } else {
      assert (a + b)[1..] == a[1..] + b;
      RunSplit(Next(c, a[0]), a[1..], b);
    }
  }

  lemma {:induction false} IdsGrow(c: Client, steps: seq<Step>)
    ensures c.requestId <= Run(c, steps).requestId
    decreases |steps|
  {
    if steps != [] {
      IdsGrow(Next(c, steps[0]), steps[1..]);
    }
  }

  // ---------- What the client's state says ----------

  datatype Flag = WriterOpen | ReaderHeld | ReaderRunning | Closing | ClosedEvent

  predicate Sets(f: Flag, s: Step) {
    match f
    case WriterOpen => s == Connect
    case ReaderHeld => s == Connect
    case ReaderRunning => s == Connect
    case Closing => s.CloseBegins?
    case ClosedEvent => s.ReaderEnds? || s == CloseEnds
  }

  predicate Clears(f: Flag, s: Step) {
    match f
    case WriterOpen => s == TransportCloses || s == CloseFails
    case ReaderHeld => s.CloseBegins?
    case ReaderRunning => s.ReaderEnds?
    case Closing => s == Connect
    case ClosedEvent => s == Connect
  }

  /** Something set the flag, and nothing has cleared it since. */
  ghost predicate On(f: Flag, steps: seq<Step>) {
    exists i :: 0 <= i < |steps| && Sets(f, steps[i]) && forall j :: i < j < |steps| ==> !Clears(f, steps[j])
  }

  lemma OnAppend(f: Flag, steps: seq<Step>, s: Step)
    ensures On(f, steps + [s]) <==> Sets(f, s) || (On(f, steps) && !Clears(f, s))
  {
    var all := steps + [s];
    assert all[|steps|] == s;
    if On(f, steps) && !Clears(f, s) {
      var i :| 0 <= i < |steps| && Sets(f, steps[i]) && forall j :: i < j < |steps| ==> !Clears(f, steps[j]);
      assert Sets(f, all[i]);
    }
    if Sets(f, s) {
      assert Sets(f, all[|steps|]);
    }
    if On(f, all) && !Sets(f, s) {
      var i :| 0 <= i < |all| && Sets(f, all[i]) && forall j :: i < j < |all| ==> !Clears(f, all[j]);
      assert Sets(f, steps[i]) && forall j :: i < j < |steps| ==> steps[j] == all[j];
    }
  }

  /** Each flag of the client is on in a run exactly if something set it and nothing has cleared it since. A request
      begins exactly when the writer is open, the reader task is held and the reader runs. */
  lemma {:induction false} FlagMeaning(steps: seq<Step>)
    ensures var c := Run(INITIAL, steps);
      && (c.writerOpen <==> On(WriterOpen, steps)) && (c.readerTask <==> On(ReaderHeld, steps))
      && (c.readerRunning <==> On(ReaderRunning, steps)) && (c.closing <==> On(Closing, steps))
      && (c.closedEvent <==> On(ClosedEvent, steps))
      && (Enabled(c, Begin) <==> On(WriterOpen, steps) && On(ReaderHeld, steps) && On(ReaderRunning, steps))
    decreases |steps|
  {
    if steps != [] {
      var front, s := steps[..|steps| - 1], steps[|steps| - 1];
      assert steps == front + [s] && [s][1..] == [];
      FlagMeaning(front);
      RunSplit(INITIAL, front, [s]);
      OnAppend(WriterOpen, front, s);
      OnAppend(ReaderHeld, front, s);
      OnAppend(ReaderRunning, front, s);
      OnAppend(Closing, front, s);
      OnAppend(ClosedEvent, front, s);
      NextFlags(Run(INITIAL, front), s);
    }
  }

  lemma NextFlags(c: Client, s: Step)
    ensures var c' := Next(c, s);
      && (c'.writerOpen <==> Sets(WriterOpen, s) || (c.writerOpen && !Clears(WriterOpen, s)))
      && (c'.readerTask <==> Sets(ReaderHeld, s) || (c.readerTask && !Clears(ReaderHeld, s)))
      && (c'.readerRunning <==> Sets(ReaderRunning, s) || (c.readerRunning && !Clears(ReaderRunning, s)))
      && (c'.closing <==> Sets(Closing, s) || (c.closing && !Clears(Closing, s)))
      && (c'.closedEvent <==> Sets(ClosedEvent, s) || (c.closedEvent && !Clears(ClosedEvent, s)))
  {
  }

  /** A request is in the client's table from its beginning to its own end. */
  lemma InTableUntilEnd(before: seq<Step>, after: seq<Step>)
    ensures var id := Run(INITIAL, before).requestId + 1;
      id in Run(INITIAL, before + [Begin] + after).pending <==> Finish(id) !in after
  {
    RunSplit(INITIAL, before, [Begin] + after);
    assert before + ([Begin] + after) == before + [Begin] + after;
    assert ([Begin] + after)[1..] == after;
    var c := Run(INITIAL, before);
    TableFollows(Begun(c), after, c.requestId + 1);
  }

  lemma {:induction false} TableFollows(c: Client, steps: seq<Step>, id: nat)
    requires id <= c.requestId
    ensures id in Run(c, steps).pending <==> id in c.pending && Finish(id) !in steps
    decreases |steps|
  {
    if steps != [] {
      assert steps == [steps[0]] + steps[1..];
      TableFollows(Next(c, steps[0]), steps[1..], id);
    }
  }
}
