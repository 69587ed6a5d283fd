/**
 Deliveries over whole runs (backend/app/services/webhook_worker.py, payment_store.py): one worker's
 attempts interleaved with every other write. Attempts are bounded and spaced, final states are final.
 */
module DeliveryRuns {
  import opened Counting
  import opened Wrappers
  import opened PaymentState
  import opened PaymentTables
  import opened StoreInvariants
  import opened Creation
  import opened WebhookWorker

  /** A move of the system: another process's write, or one attempt by the worker. The batch holding the
      delivery was listed at `now`; the attempt itself happened at `at`. */
  datatype Move = Other(s: Step) | Try(id: DeliveryId, attempt: Attempt, now: int, at: int)

  /** Only the worker records attempts, and it attempts what it listed as due, no earlier than it listed it. */
  predicate Enabled(t: Tables, m: Move) {
    match m
    case Other(s) => !s.Succeed? && !s.Fail?
    case Try(id, _, now, at) =>
      id in t.deliveries && Open(t.deliveries[id]) && t.deliveries[id].nextAttemptAt <= now <= at
  }

  ghost function Make(cfg: Settings, t: Tables, m: Move): Tables {
    match m
    case Other(s) => Apply(t, s)
    case Try(id, attempt, _, at) =>
      if id in t.deliveries then Apply(t, AttemptStep(cfg, id, t.deliveries[id].attempts, attempt, at)) else t
  }

  ghost function Play(cfg: Settings, t: Tables, moves: seq<Move>): Tables
    decreases |moves|
  {
    if moves == [] then t else Play(cfg, Make(cfg, t, moves[0]), moves[1..])
  }

  ghost predicate Legal(cfg: Settings, t: Tables, moves: seq<Move>)
    decreases |moves|
  {
    moves == [] || (Enabled(t, moves[0]) && Legal(cfg, Make(cfg, t, moves[0]), moves[1..]))
  }

  // ---------- One move ----------

  /** Other writes leave stored deliveries alone and queue new ones unattempted. */
  ghost predicate OnlyQueues(t: Tables, t': Tables) {
    && (forall id :: id in t.deliveries ==> id in t'.deliveries && t'.deliveries[id] == t.deliveries[id])
    && (forall id :: id in t'.deliveries && id !in t.deliveries ==>
          t'.deliveries[id].status == Pending && t'.deliveries[id].attempts == 0)
  }

  lemma InsertEventQueues(t: Tables, id: string, p: Payment, eventType: EventType, at: int)
    ensures OnlyQueues(t, InsertEvent(t, id, p, eventType, at))
  {
    FanOutMembers(t.endpoints, EventId(id, p.version, eventType), p.merchantId, at);
  }

  lemma OtherQueues(t: Tables, s: Step)
    requires !s.Succeed? && !s.Fail?
    ensures OnlyQueues(t, Apply(t, s))
  {
    match s
    case Create(req) =>
      CreateAnatomy(t, req);
      var stored := t.(payments := t.payments[req.paymentId := NewPayment(req)],
                       baselines := t.baselines[req.paymentId := TxidSet(req.baseline)]);
      InsertEventQueues(stored, req.paymentId, NewPayment(req), Created, req.createdAt);
    case Refresh(id, at) =>
      RefreshAnatomy(t, id, at);
      if Apply(t, s) != t {
        var e := EvaluatePayment(t, id, at).value;
        var p' := Updated(t.payments[id], e, at);
        InsertEventQueues(t.(payments := t.payments[id := p']), id, p', Became(e.status), at);
      }
    case _ => OtherDeliveriesFrame(t, s);
  }

  lemma OtherDeliveriesFrame(t: Tables, s: Step)
    requires !s.Succeed? && !s.Fail? && !s.Create? && !s.Refresh?
    ensures Apply(t, s).deliveries == t.deliveries
  {
    match s
    case NewMerchant(_, _) =>
    case NewCredential(_, _, _) =>
    case NewEndpoint(_, _, _, _, _) =>
    case CloseEndpoint(_, _, _) =>
    case Upsert(id, o, at) => UpsertFrame(t, id, o, at);
    case DeleteNotIn(id, txids) => DeleteFrame(t, id, txids);
    case SetTip(height, hash, at) => TipFrame(t, height, hash, at);
  }

  // ---------- States and attempts ----------

  predicate Final(d: Delivery) {
    d.status == Delivered || d.status == Dead
  }

  /** What a status says of the number of attempts. */
  predicate WithinLimit(cfg: Settings, d: Delivery) {
    match d.status
    case Pending => d.attempts == 0
    case Retry => 1 <= d.attempts < cfg.Limit()
    case Delivered => 1 <= d.attempts <= cfg.Limit()
    case Dead => 1 <= d.attempts <= cfg.Limit()
  }

  ghost predicate AllWithinLimit(cfg: Settings, t: Tables) {
    forall id :: id in t.deliveries ==> WithinLimit(cfg, t.deliveries[id])
  }

  lemma MoveKeepsLimit(cfg: Settings, t: Tables, m: Move)
    requires AllWithinLimit(cfg, t) && Enabled(t, m)
    ensures AllWithinLimit(cfg, Make(cfg, t, m))
    ensures forall id :: id in t.deliveries ==> id in Make(cfg, t, m).deliveries
    ensures forall id :: id in t.deliveries && Final(t.deliveries[id]) ==>
              Make(cfg, t, m).deliveries[id] == t.deliveries[id]
  {
    match m
    case Other(s) => OtherQueues(t, s);
    case Try(id, attempt, now, at) => AttemptVerdict(cfg, t, id, attempt, at);
  }

  /** In every legal run, pending means unattempted, retry means attempts to spare, no delivery is
      attempted more than the limit, and a delivered or dead delivery never changes again. */
  lemma {:induction false} DeliveriesEnd(cfg: Settings, t: Tables, moves: seq<Move>)
    requires AllWithinLimit(cfg, t) && Legal(cfg, t, moves)
    ensures AllWithinLimit(cfg, Play(cfg, t, moves))
    ensures forall id :: id in t.deliveries ==> id in Play(cfg, t, moves).deliveries
    ensures forall id :: id in t.deliveries && Final(t.deliveries[id]) ==>
              Play(cfg, t, moves).deliveries[id] == t.deliveries[id]
    decreases |moves|
  {
    if moves != [] {
      MoveKeepsLimit(cfg, t, moves[0]);
      DeliveriesEnd(cfg, Make(cfg, t, moves[0]), moves[1..]);
    }
  }

  predicate AcceptedTry(m: Move, id: DeliveryId) {
    m.Try? && m.id == id && Accepted(m.attempt)
  }

  lemma DeliveredAtOnce(cfg: Settings, t: Tables, m: Move, id: DeliveryId)
    requires Enabled(t, m) && !(id in t.deliveries && t.deliveries[id].status == Delivered)
    requires id in Make(cfg, t, m).deliveries && Make(cfg, t, m).deliveries[id].status == Delivered
    ensures AcceptedTry(m, id)
  {
    match m
    case Other(s) =>
      OtherQueues(t, s);
      assert false;
    case Try(q, attempt, now, at) => AttemptVerdict(cfg, t, q, attempt, at);
  }

  /** A delivery that a run leaves delivered, and did not find so, was answered with a 2xx. */
  lemma {:induction false} DeliveredWasAccepted(cfg: Settings, t: Tables, moves: seq<Move>, id: DeliveryId)
    requires Legal(cfg, t, moves) && !(id in t.deliveries && t.deliveries[id].status == Delivered)
    requires id in Play(cfg, t, moves).deliveries && Play(cfg, t, moves).deliveries[id].status == Delivered
    ensures exists i :: 0 <= i < |moves| && AcceptedTry(moves[i], id)
    decreases |moves|
  {
    var u := Make(cfg, t, moves[0]);
    if id in u.deliveries && u.deliveries[id].status == Delivered {
      DeliveredAtOnce(cfg, t, moves[0], id);
    } else {
      DeliveredWasAccepted(cfg, u, moves[1..], id);
      var i :| 0 <= i < |moves[1..]| && AcceptedTry(moves[1..][i], id);
      assert AcceptedTry(moves[i + 1], id);
    }
  }

  /** The store's steps of a run. */
  ghost function PlaySteps(cfg: Settings, t: Tables, moves: seq<Move>): seq<Step>
    decreases |moves|
  {
    if moves == [] then
      []
    else
      (match moves[0]
       case Other(s) => [s]
       case Try(id, attempt, _, at) =>
         if id in t.deliveries then [AttemptStep(cfg, id, t.deliveries[id].attempts, attempt, at)] else [])
      + PlaySteps(cfg, Make(cfg, t, moves[0]), moves[1..])
  }

  lemma {:induction false} PlayIsRun(cfg: Settings, t: Tables, moves: seq<Move>)
    ensures Play(cfg, t, moves) == Run(t, PlaySteps(cfg, t, moves))
    decreases |moves|
  {
    if moves != [] {
      var rest := PlaySteps(cfg, Make(cfg, t, moves[0]), moves[1..]);
      PlayIsRun(cfg, Make(cfg, t, moves[0]), moves[1..]);
      if PlaySteps(cfg, t, moves) != rest {
        assert PlaySteps(cfg, t, moves)[1..] == rest;
      }
    }
  }

  // ---------- The work done ----------

  /** How much of its allowance a delivery has used: a final delivery has used all of it. */
  function Used(cfg: Settings, d: Delivery): int {
    if Final(d) then cfg.Limit() else d.attempts
  }

  ghost function WorkDone(cfg: Settings, deliveries: map<DeliveryId, Delivery>): int
    decreases |deliveries|
  {
    if deliveries == map[] then
      0
    else
      var id :| id in deliveries;
      Used(cfg, deliveries[id]) + WorkDone(cfg, deliveries - {id})
  }

  lemma {:induction false} WorkSplit(cfg: Settings, deliveries: map<DeliveryId, Delivery>, id: DeliveryId)
    requires id in deliveries
    ensures WorkDone(cfg, deliveries) == Used(cfg, deliveries[id]) + WorkDone(cfg, deliveries - {id})
    decreases |deliveries|
  {
    var pick :| pick in deliveries
                && WorkDone(cfg, deliveries) == Used(cfg, deliveries[pick]) + WorkDone(cfg, deliveries - {pick});
    if pick != id {
      WorkSplit(cfg, deliveries - {pick}, id);
      WorkSplit(cfg, deliveries - {id}, pick);
      assert deliveries - {pick} - {id} == deliveries - {id} - {pick};
    }
  }

  /** Queueing deliveries does no work. */
  lemma {:induction false} QueueingIsNoWork(cfg: Settings, m: map<DeliveryId, Delivery>,
                                            m': map<DeliveryId, Delivery>)
    requires forall id :: id in m ==> id in m' && m'[id] == m[id]
    requires forall id :: id in m' && id !in m ==> m'[id].status == Pending && m'[id].attempts == 0
    ensures WorkDone(cfg, m') == WorkDone(cfg, m)
    decreases |m'|
  {
    if exists id :: id in m' && id !in m {
      var id :| id in m' && id !in m;
      WorkSplit(cfg, m', id);
      QueueingIsNoWork(cfg, m, m' - {id});
    } else {
      assert m' == m;
    }
  }

  /** Every attempt does at least one unit of work. */
  lemma TryIsWork(cfg: Settings, t: Tables, m: Move)
    requires AllWithinLimit(cfg, t) && m.Try? && Enabled(t, m)
    ensures WorkDone(cfg, Make(cfg, t, m).deliveries) >= WorkDone(cfg, t.deliveries) + 1
  {
    AttemptVerdict(cfg, t, m.id, m.attempt, m.at);
    var d' := Make(cfg, t, m).deliveries[m.id];
    var m' := t.deliveries[m.id := d'];
    WorkSplit(cfg, t.deliveries, m.id);
    WorkSplit(cfg, m', m.id);
    assert m' - {m.id} == t.deliveries - {m.id};
  }

  /** No delivery holds more than its allowance. */
  lemma {:induction false} WorkBounded(cfg: Settings, deliveries: map<DeliveryId, Delivery>)
    requires forall id :: id in deliveries ==> WithinLimit(cfg, deliveries[id])
    ensures 0 <= WorkDone(cfg, deliveries) <= |deliveries| * cfg.Limit()
    decreases |deliveries|
  {
    if deliveries != map[] {
      var id :| id in deliveries;
      var rest := deliveries - {id};
      WorkSplit(cfg, deliveries, id);
      WorkBounded(cfg, rest);
      assert rest.Keys == deliveries.Keys - {id};
      OneMore(|rest|, |deliveries|, cfg.Limit());
    }
  }

  lemma OneMore(n: int, n': int, l: int)
    requires n' == n + 1
    ensures n' * l == n * l + l
  {
  }

  function Tries(moves: seq<Move>): nat {
    if moves == [] then 0 else (if moves[0].Try? then 1 else 0) + Tries(moves[1..])
  }

  /** Delivery terminates: the work done grows by at least one with every attempt, and is never more than
      the limit times the number of deliveries, so a run makes at most limit attempts per delivery. */
  lemma {:induction false} DeliveryTerminates(cfg: Settings, t: Tables, moves: seq<Move>)
    requires AllWithinLimit(cfg, t) && Legal(cfg, t, moves)
    ensures var t' := Play(cfg, t, moves);
      && WorkDone(cfg, t.deliveries) + Tries(moves) <= WorkDone(cfg, t'.deliveries)
      && 0 <= WorkDone(cfg, t.deliveries)
      && WorkDone(cfg, t'.deliveries) <= |t'.deliveries| * cfg.Limit()
    decreases |moves|
  {
    WorkBounded(cfg, t.deliveries);
    if moves != [] {
      MoveKeepsLimit(cfg, t, moves[0]);
      DeliveryTerminates(cfg, Make(cfg, t, moves[0]), moves[1..]);
      if moves[0].Try? {
        TryIsWork(cfg, t, moves[0]);
      } else {
        OtherQueues(t, moves[0].s);
        QueueingIsNoWork(cfg, t.deliveries, Make(cfg, t, moves[0]).deliveries);
      }
    }
  }

  // ---------- Spacing ----------

  /** When a run attempted one delivery, in order. */
  function Times(moves: seq<Move>, id: DeliveryId): seq<int> {
    if moves == [] then []
    else (if moves[0].Try? && moves[0].id == id then [moves[0].at] else []) + Times(moves[1..], id)
  }

  /** Successive attempts, the first being attempt number `from`, are at least the retry delay apart. */
  ghost predicate Spaced(cfg: Settings, times: seq<int>, from: int) {
    forall i :: 0 <= i < |times| - 1 ==> times[i] + RetryDelay(cfg, from + i) <= times[i + 1]
  }

  lemma SpacedCons(cfg: Settings, at: int, later: seq<int>, from: int)
    requires Spaced(cfg, later, from + 1) && (later != [] ==> at + RetryDelay(cfg, from) <= later[0])
    ensures Spaced(cfg, [at] + later, from)
  {
    var times := [at] + later;
    forall i | 0 <= i < |times| - 1
      ensures times[i] + RetryDelay(cfg, from + i) <= times[i + 1]
    {
      if i > 0 {
        assert times[i] == later[i - 1] && times[i + 1] == later[i];
        assert later[i - 1] + RetryDelay(cfg, from + 1 + (i - 1)) <= later[i - 1 + 1];
      }
    }
  }

  /** What a run may still do to a delivery found in state `d`. */
  ghost predicate Continues(cfg: Settings, d: Delivery, times: seq<int>, t': Tables, id: DeliveryId) {
    && id in t'.deliveries && t'.deliveries[id].attempts == d.attempts + |times|
    && (times == [] ==> t'.deliveries[id] == d)
    && (times != [] ==> Open(d) && d.nextAttemptAt <= times[0])
    && (times != [] && Open(t'.deliveries[id]) ==>
          t'.deliveries[id].nextAttemptAt == times[|times| - 1] + RetryDelay(cfg, t'.deliveries[id].attempts))
    && Spaced(cfg, times, d.attempts + 1)
  }

  lemma TryContinues(cfg: Settings, t: Tables, m: Move, id: DeliveryId, later: seq<int>, t': Tables)
    requires AllWithinLimit(cfg, t) && m.Try? && m.id == id && Enabled(t, m)
    requires id in Make(cfg, t, m).deliveries && Continues(cfg, Make(cfg, t, m).deliveries[id], later, t', id)
    ensures Continues(cfg, t.deliveries[id], [m.at] + later, t', id)
  {
    AttemptVerdict(cfg, t, id, m.attempt, m.at);
    SpacedCons(cfg, m.at, later, t.deliveries[id].attempts + 1);
  }

  /** A run that finds the delivery after some attempts tries it again no sooner than its next attempt
      time, spaces the tries by the growing delay, and counts each of them. */
  lemma {:induction false} SpacedFrom(cfg: Settings, t: Tables, moves: seq<Move>, id: DeliveryId)
    requires AllWithinLimit(cfg, t) && Legal(cfg, t, moves) && id in t.deliveries
    ensures Continues(cfg, t.deliveries[id], Times(moves, id), Play(cfg, t, moves), id)
    decreases |moves|
  {
    if moves != [] {
      var u, m := Make(cfg, t, moves[0]), moves[0];
      MoveKeepsLimit(cfg, t, m);
      SpacedFrom(cfg, u, moves[1..], id);
      if m.Try? && m.id == id {
        TryContinues(cfg, t, m, id, Times(moves[1..], id), Play(cfg, t, moves));
      } else {
        assert Times(moves, id) == Times(moves[1..], id);
        DeliveryUntouched(cfg, t, m, id);
      }
    }
  }

  lemma DeliveryUntouched(cfg: Settings, t: Tables, m: Move, id: DeliveryId)
    requires id in t.deliveries && Enabled(t, m) && !(m.Try? && m.id == id)
    ensures id in Make(cfg, t, m).deliveries && Make(cfg, t, m).deliveries[id] == t.deliveries[id]
  {
    if m.Try? {
      AttemptVerdict(cfg, t, m.id, m.attempt, m.at);
    } else {
      OtherQueues(t, m.s);
    }
  }

  /** From a delivery just queued: it is tried at most the limit of times, the stored count is the number
      of tries, and try number n is followed by at least the n-th retry delay. */
  lemma AttemptsSpaced(cfg: Settings, t: Tables, moves: seq<Move>, id: DeliveryId)
    requires AllWithinLimit(cfg, t) && Legal(cfg, t, moves)
    requires id in t.deliveries && t.deliveries[id].status == Pending
    ensures var times, t' := Times(moves, id), Play(cfg, t, moves);
      && id in t'.deliveries && |times| == t'.deliveries[id].attempts <= cfg.Limit()
      && Spaced(cfg, times, 1)
  {
    SpacedFrom(cfg, t, moves, id);
    DeliveriesEnd(cfg, t, moves);
    assert WithinLimit(cfg, t.deliveries[id]) && WithinLimit(cfg, Play(cfg, t, moves).deliveries[id]);
  }

  // ---------- The worker's own cycles ----------

  function TriesOf(moves: seq<Move>): seq<Move> {
    if moves == [] then [] else (if moves[0].Try? then [moves[0]] else []) + TriesOf(moves[1..])
  }

  /** A listed batch as attempts, in the order listed. */
  function BatchMoves(ids: seq<DeliveryId>, now: int, world: World): seq<Move> {
    seq(|ids|, i requires 0 <= i < |ids| => Try(ids[i], world(ids[i]).0, now, world(ids[i]).1))
  }

  predicate Quiet(s: Step) {
    !s.Succeed? && !s.Fail?
  }

  /** The moves of one cycle: the batch's attempts, none before it was listed, among other processes' writes. */
  ghost predicate PlaysBatch(moves: seq<Move>, ids: seq<DeliveryId>, now: int, world: World) {
    && TriesOf(moves) == BatchMoves(ids, now, world)
    && (forall i :: 0 <= i < |ids| ==> now <= world(ids[i]).1)
    && (forall i :: 0 <= i < |moves| && moves[i].Other? ==> Quiet(moves[i].s))
  }

  /** The writes of those moves: each attempt records what it found when the batch was listed, in `listed`. */
  function Writes(cfg: Settings, listed: map<DeliveryId, Delivery>, moves: seq<Move>): seq<Step>
    requires forall i :: 0 <= i < |moves| && moves[i].Try? ==> moves[i].id in listed
  {
    if moves == [] then
      []
    else
      [if moves[0].Other? then moves[0].s
       else AttemptStep(cfg, moves[0].id, listed[moves[0].id].attempts, moves[0].attempt, moves[0].at)]
      + Writes(cfg, listed, moves[1..])
  }

  /** The deliveries still to be attempted are as they were listed. */
  ghost predicate AsListed(listed: map<DeliveryId, Delivery>, t: Tables, ids: seq<DeliveryId>, now: int) {
    && (forall i :: 0 <= i < |ids| ==>
          && ids[i] in listed && ids[i] in t.deliveries && t.deliveries[ids[i]] == listed[ids[i]]
          && Open(listed[ids[i]]) && listed[ids[i]].nextAttemptAt <= now)
    && (forall i, j :: 0 <= i < j < |ids| ==> ids[i] != ids[j])
  }

  lemma {:induction false} TriesAreListed(moves: seq<Move>, ids: seq<DeliveryId>, now: int, world: World)
    requires TriesOf(moves) == BatchMoves(ids, now, world)
    ensures forall i :: 0 <= i < |moves| && moves[i].Try? ==> moves[i].id in ids
    decreases |moves|
  {
    if moves != [] {
      if moves[0].Try? {
        assert TriesOf(moves)[0] == moves[0] && TriesOf(moves)[1..] == TriesOf(moves[1..]);
        assert BatchMoves(ids, now, world)[1..] == BatchMoves(ids[1..], now, world);
        TriesAreListed(moves[1..], ids[1..], now, world);
      } else {
        TriesAreListed(moves[1..], ids, now, world);
      }
    }
  }

  lemma OtherKeepsListing(listed: map<DeliveryId, Delivery>, t: Tables, s: Step, ids: seq<DeliveryId>, now: int)
    requires AsListed(listed, t, ids, now) && Quiet(s)
    ensures AsListed(listed, Apply(t, s), ids, now)
  {
    OtherQueues(t, s);
  }

  lemma AttemptKeepsListing(cfg: Settings, listed: map<DeliveryId, Delivery>, t: Tables, ids: seq<DeliveryId>, now: int,
                            attempt: Attempt, at: int)
    requires ids != [] && AsListed(listed, t, ids, now)
    ensures AsListed(listed, Apply(t, AttemptStep(cfg, ids[0], listed[ids[0]].attempts, attempt, at)), ids[1..], now)
  {
    AttemptVerdict(cfg, t, ids[0], attempt, at);
  }

  /** One cycle is a legal play, and its play is its writes. */
  lemma {:induction false} CycleIsLegal(cfg: Settings, listed: map<DeliveryId, Delivery>, t: Tables, moves: seq<Move>,
                                        ids: seq<DeliveryId>, now: int, world: World)
    requires AsListed(listed, t, ids, now) && PlaysBatch(moves, ids, now, world)
    ensures Legal(cfg, t, moves)
    ensures forall i :: 0 <= i < |moves| && moves[i].Try? ==> moves[i].id in listed
    ensures Play(cfg, t, moves) == Run(t, Writes(cfg, listed, moves))
    decreases |moves|
  {
    TriesAreListed(moves, ids, now, world);
    if moves != [] {
      var m, rest := moves[0], moves[1..];
      if m.Other? {
        OtherKeepsListing(listed, t, m.s, ids, now);
        CycleIsLegal(cfg, listed, Apply(t, m.s), rest, ids, now, world);
      } else {
        FirstTry(moves, ids, now, world);
        AttemptKeepsListing(cfg, listed, t, ids, now, m.attempt, m.at);
        CycleIsLegal(cfg, listed, Make(cfg, t, m), rest, ids[1..], now, world);
      }
      assert Writes(cfg, listed, moves)[1..] == Writes(cfg, listed, rest);
    }
  }

  lemma FirstTry(moves: seq<Move>, ids: seq<DeliveryId>, now: int, world: World)
    requires moves != [] && moves[0].Try? && PlaysBatch(moves, ids, now, world)
    ensures ids != [] && moves[0] == Try(ids[0], world(ids[0]).0, now, world(ids[0]).1) && now <= moves[0].at
    ensures PlaysBatch(moves[1..], ids[1..], now, world)
  {
    assert TriesOf(moves)[0] == moves[0] && TriesOf(moves)[1..] == TriesOf(moves[1..]);
    assert BatchMoves(ids, now, world)[1..] == BatchMoves(ids[1..], now, world);
  }

  lemma ListedAsListed(t: Tables, now: int, bound: nat, ids: seq<DeliveryId>)
    requires ListsDue(t, now, bound, ids)
    ensures AsListed(t.deliveries, t, ids, now)
  {
  }

  /** What the worker's cycle writes when nobody writes between its attempts is a legal play: with the
      result of `RunOnce`, the store ends where that play ends. */
  lemma RunOnceIsLegal(cfg: Settings, t: Tables, now: int, bound: nat, ids: seq<DeliveryId>, world: World)
    requires ListsDue(t, now, bound, ids) && forall i :: 0 <= i < |ids| ==> now <= world(ids[i]).1
    ensures Legal(cfg, t, BatchMoves(ids, now, world))
    ensures Play(cfg, t, BatchMoves(ids, now, world)) == Run(t, BatchSteps(cfg, t, ids, world))
  {
    ListedAsListed(t, now, bound, ids);
    BatchTries(ids, now, world);
    CycleIsLegal(cfg, t.deliveries, t, BatchMoves(ids, now, world), ids, now, world);
    BatchWrites(cfg, t, ids, now, world);
  }

  lemma {:induction false} BatchTries(ids: seq<DeliveryId>, now: int, world: World)
    ensures TriesOf(BatchMoves(ids, now, world)) == BatchMoves(ids, now, world)
    decreases |ids|
  {
    if ids != [] {
      BatchTries(ids[1..], now, world);
      assert BatchMoves(ids, now, world)[1..] == BatchMoves(ids[1..], now, world);
    }
  }

  lemma {:induction false} BatchWrites(cfg: Settings, t: Tables, ids: seq<DeliveryId>, now: int, world: World)
    requires forall i :: 0 <= i < |ids| ==> ids[i] in t.deliveries
    ensures Writes(cfg, t.deliveries, BatchMoves(ids, now, world)) == BatchSteps(cfg, t, ids, world)
    decreases |ids|
  {
    if ids != [] {
      BatchWrites(cfg, t, ids[1..], now, world);
      assert BatchMoves(ids, now, world)[1..] == BatchMoves(ids[1..], now, world);
      assert BatchSteps(cfg, t, ids, world)[1..] == BatchSteps(cfg, t, ids[1..], world);
    }
  }

  /** One turn of the worker: other writes while it sleeps, the listing, and the moves of the batch. A cycle that
      is cut short attempts only the first `attempted` of what it listed. */
  datatype Cycle = Cycle(idle: seq<Step>, now: int, bound: nat, listed: seq<DeliveryId>, attempted: nat, world: World,
                         moves: seq<Move>)

  function Others(steps: seq<Step>): seq<Move> {
    seq(|steps|, i requires 0 <= i < |steps| => Other(steps[i]))
  }

  function MovesOf(cycles: seq<Cycle>): seq<Move> {
    if cycles == [] then [] else Others(cycles[0].idle) + cycles[0].moves + MovesOf(cycles[1..])
  }

  /** One cycle: quiet writes, a listing of what is then due, and the moves of what it attempts. */
  ghost predicate WorksOnce(t: Tables, c: Cycle) {
    var u := Run(t, c.idle);
    && (forall i :: 0 <= i < |c.idle| ==> Quiet(c.idle[i]))
    && ListsDue(u, c.now, c.bound, c.listed) && c.attempted <= |c.listed|
    && PlaysBatch(c.moves, c.listed[..c.attempted], c.now, c.world)
  }

  ghost function AfterCycle(cfg: Settings, t: Tables, c: Cycle): Tables {
    Play(cfg, Run(t, c.idle), c.moves)
  }

  /** Everything the system does while one worker runs its cycles. */
  ghost predicate Works(cfg: Settings, t: Tables, cycles: seq<Cycle>)
    decreases |cycles|
  {
    cycles == [] || (WorksOnce(t, cycles[0]) && Works(cfg, AfterCycle(cfg, t, cycles[0]), cycles[1..]))
  }

  lemma {:induction false} LegalConcat(cfg: Settings, t: Tables, a: seq<Move>, b: seq<Move>)
    requires Legal(cfg, t, a) && Legal(cfg, Play(cfg, t, a), b)
    ensures Legal(cfg, t, a + b) && Play(cfg, t, a + b) == Play(cfg, Play(cfg, t, a), b)
    decreases |a|
  {
    if a == [] {
      assert a + b == b;
    } else {
      assert (a + b)[0] == a[0] && (a + b)[1..] == a[1..] + b;
      LegalConcat(cfg, Make(cfg, t, a[0]), a[1..], b);
    }
  }

  lemma {:induction false} IdleIsLegal(cfg: Settings, t: Tables, steps: seq<Step>)
    requires forall i :: 0 <= i < |steps| ==> Quiet(steps[i])
    ensures Legal(cfg, t, Others(steps)) && Play(cfg, t, Others(steps)) == Run(t, steps)
    decreases |steps|
  {
    if steps != [] {
      IdleIsLegal(cfg, Apply(t, steps[0]), steps[1..]);
      assert Others(steps)[1..] == Others(steps[1..]);
    }
  }

  /** Whatever one worker does, interleaved with anything, is a legal play. */
  lemma {:induction false} WorkerIsLegal(cfg: Settings, t: Tables, cycles: seq<Cycle>)
    requires Works(cfg, t, cycles)
    ensures Legal(cfg, t, MovesOf(cycles))
    decreases |cycles|
  {
    if cycles != [] {
      var c, u := cycles[0], Run(t, cycles[0].idle);
      IdleIsLegal(cfg, t, c.idle);
      ListedAsListed(u, c.now, c.bound, c.listed);
      CycleIsLegal(cfg, u.deliveries, u, c.moves, c.listed[..c.attempted], c.now, c.world);
      WorkerIsLegal(cfg, Play(cfg, u, c.moves), cycles[1..]);
      LegalConcat(cfg, t, Others(c.idle), c.moves);
      LegalConcat(cfg, t, Others(c.idle) + c.moves, MovesOf(cycles[1..]));
    }
  }

  /** So a worker started on an empty database makes at most limit attempts per delivery ever queued, and every
      status says how many were made. */
  lemma WorkerTerminates(cfg: Settings, cycles: seq<Cycle>)
    requires Works(cfg, EMPTY_TABLES, cycles)
    ensures var t := Play(cfg, EMPTY_TABLES, MovesOf(cycles));
      && Tries(MovesOf(cycles)) <= |t.deliveries| * cfg.Limit()
      && AllWithinLimit(cfg, t)
  {
    WorkerIsLegal(cfg, EMPTY_TABLES, cycles);
    DeliveryTerminates(cfg, EMPTY_TABLES, MovesOf(cycles));
    DeliveriesEnd(cfg, EMPTY_TABLES, MovesOf(cycles));
  }

  // ---------- Attempts enough ----------

  /** The due deliveries that have waited at least as long as this one, itself among them. */
  ghost function DueAsLong(t: Tables, id: DeliveryId, now: int): set<DeliveryId>
    requires id in t.deliveries
  {
    set q | q in t.deliveries && Due(t, q, now) && t.deliveries[q].nextAttemptAt <= t.deliveries[id].nextAttemptAt
  }

  /** A due delivery is in the batch if no more than a batch's worth has been due as long. */
  lemma DueIsListed(t: Tables, now: int, bound: nat, ids: seq<DeliveryId>, id: DeliveryId)
    requires ListsDue(t, now, bound, ids) && Due(t, id, now) && |DueAsLong(t, id, now)| <= bound
    ensures id in ids
  {
    if id !in ids {
      DistinctCount(ids);
      assert SetOf(ids) <= DueAsLong(t, id, now);
      StrictlyLarger(SetOf(ids), DueAsLong(t, id, now), id);
    }
  }

  lemma {:induction false} AttemptedOnce(moves: seq<Move>, ids: seq<DeliveryId>, now: int, world: World, id: DeliveryId)
    requires TriesOf(moves) == BatchMoves(ids, now, world) && forall i, j :: 0 <= i < j < |ids| ==> ids[i] != ids[j]
    ensures Times(moves, id) == if id in ids then [world(id).1] else []
    decreases |moves|
  {
    if moves == [] {
      assert |BatchMoves(ids, now, world)| == |ids|;
    } else if moves[0].Try? {
      assert TriesOf(moves)[0] == moves[0] && TriesOf(moves)[1..] == TriesOf(moves[1..]);
      assert BatchMoves(ids, now, world)[1..] == BatchMoves(ids[1..], now, world);
      assert ids == [ids[0]] + ids[1..] && ids[0] !in ids[1..];
      AttemptedOnce(moves[1..], ids[1..], now, world, id);
    } else {
      AttemptedOnce(moves[1..], ids, now, world, id);
    }
  }

  lemma {:induction false} IdleLeaves(t: Tables, steps: seq<Step>, id: DeliveryId)
    requires id in t.deliveries && forall i :: 0 <= i < |steps| ==> Quiet(steps[i])
    ensures id in Run(t, steps).deliveries && Run(t, steps).deliveries[id] == t.deliveries[id]
    decreases |steps|
  {
    if steps != [] {
      OtherQueues(t, steps[0]);
      IdleLeaves(Apply(t, steps[0]), steps[1..], id);
    }
  }

  /** How many cycles find the delivery due when they list. */
  ghost function DueCycles(cfg: Settings, t: Tables, cycles: seq<Cycle>, id: DeliveryId): nat
    decreases |cycles|
  {
    if cycles == [] then
      0
    else
      var c, u := cycles[0], Run(t, cycles[0].idle);
      (if Due(u, id, c.now) then 1 else 0) + DueCycles(cfg, AfterCycle(cfg, t, c), cycles[1..], id)
  }

  /** The cycle has room for the delivery, and attempts all that it lists. */
  ghost predicate Serves(u: Tables, c: Cycle, id: DeliveryId) {
    id in u.deliveries && c.attempted == |c.listed| && |DueAsLong(u, id, c.now)| <= c.bound
  }

  /** Every cycle that finds the delivery due serves it. Nothing is asked of the others. */
  ghost predicate ServedWhenDue(cfg: Settings, t: Tables, cycles: seq<Cycle>, id: DeliveryId)
    decreases |cycles|
  {
    cycles == [] ||
    (var c, u := cycles[0], Run(t, cycles[0].idle);
     && (Due(u, id, c.now) ==> Serves(u, c, id))
     && ServedWhenDue(cfg, AfterCycle(cfg, t, c), cycles[1..], id))
  }

  /** A cycle changes nothing of a delivery before its listing, and then only by its attempts; it makes one if it
      finds the delivery due and serves it. */
  lemma OneCycle(cfg: Settings, t: Tables, c: Cycle, id: DeliveryId)
    requires AllWithinLimit(cfg, t) && id in t.deliveries && WorksOnce(t, c)
    ensures var u := Run(t, c.idle);
      && AllWithinLimit(cfg, u) && id in u.deliveries && u.deliveries[id] == t.deliveries[id]
      && AllWithinLimit(cfg, AfterCycle(cfg, t, c)) && Legal(cfg, u, c.moves)
      && Continues(cfg, u.deliveries[id], Times(c.moves, id), AfterCycle(cfg, t, c), id)
      && (Times(c.moves, id) == [] || Times(c.moves, id) == [c.world(id).1])
      && (Times(c.moves, id) != [] ==> id in c.listed && Due(u, id, c.now) && c.now <= c.world(id).1)
      && (Due(u, id, c.now) && Serves(u, c, id) ==> Times(c.moves, id) != [])
  {
    var u := Run(t, c.idle);
    IdleIsLegal(cfg, t, c.idle);
    DeliveriesEnd(cfg, t, Others(c.idle));
    IdleLeaves(t, c.idle, id);
    ListedAsListed(u, c.now, c.bound, c.listed);
    CycleIsLegal(cfg, u.deliveries, u, c.moves, c.listed[..c.attempted], c.now, c.world);
    DeliveriesEnd(cfg, u, c.moves);
    SpacedFrom(cfg, u, c.moves, id);
    AttemptedOnce(c.moves, c.listed[..c.attempted], c.now, c.world, id);
    if Due(u, id, c.now) && Serves(u, c, id) {
      DueIsListed(u, c.now, c.bound, c.listed, id);
      assert c.listed[..c.attempted] == c.listed;
    }
  }

  /** Every cycle that finds the delivery due makes an attempt, whatever the cycles between find. */
  lemma {:induction false} DueIsAttempted(cfg: Settings, t: Tables, cycles: seq<Cycle>, id: DeliveryId)
    requires AllWithinLimit(cfg, t) && Works(cfg, t, cycles) && id in t.deliveries && ServedWhenDue(cfg, t, cycles, id)
    ensures var v := Play(cfg, t, MovesOf(cycles));
      id in v.deliveries && v.deliveries[id].attempts >= t.deliveries[id].attempts + DueCycles(cfg, t, cycles, id)
    decreases |cycles|
  {
    if cycles != [] {
      var c := cycles[0];
      OneCycle(cfg, t, c, id);
      CycleThenRest(cfg, t, cycles);
      DueIsAttempted(cfg, AfterCycle(cfg, t, c), cycles[1..], id);
    }
  }

  /** So a delivery found due as often as it has attempts left is delivered or dead. */
  lemma EndsWhenDueEnough(cfg: Settings, t: Tables, cycles: seq<Cycle>, id: DeliveryId)
    requires AllWithinLimit(cfg, t) && Works(cfg, t, cycles) && id in t.deliveries && ServedWhenDue(cfg, t, cycles, id)
    requires t.deliveries[id].attempts + DueCycles(cfg, t, cycles, id) >= cfg.Limit()
    ensures var v := Play(cfg, t, MovesOf(cycles)); id in v.deliveries && Final(v.deliveries[id])
  {
    DueIsAttempted(cfg, t, cycles, id);
    WorkerIsLegal(cfg, t, cycles);
    DeliveriesEnd(cfg, t, MovesOf(cycles));
    assert WithinLimit(cfg, Play(cfg, t, MovesOf(cycles)).deliveries[id]);
  }

  lemma CycleThenRest(cfg: Settings, t: Tables, cycles: seq<Cycle>)
    requires cycles != [] && Works(cfg, t, cycles)
    ensures Play(cfg, t, MovesOf(cycles)) == Play(cfg, AfterCycle(cfg, t, cycles[0]), MovesOf(cycles[1..]))
  {
    var c, u := cycles[0], Run(t, cycles[0].idle);
    IdleIsLegal(cfg, t, c.idle);
    ListedAsListed(u, c.now, c.bound, c.listed);
    CycleIsLegal(cfg, u.deliveries, u, c.moves, c.listed[..c.attempted], c.now, c.world);
    WorkerIsLegal(cfg, Play(cfg, u, c.moves), cycles[1..]);
    LegalConcat(cfg, t, Others(c.idle), c.moves);
    LegalConcat(cfg, t, Others(c.idle) + c.moves, MovesOf(cycles[1..]));
  }

  // ---------- In time ----------

  /** The most time that passes from the attempt a delivery waits for to its last one, if the worker lists at least
      every `gap` and a cycle takes no longer. */
  function Rest(cfg: Settings, attempts: nat, gap: nat): (r: int)
    ensures r >= 0
    decreases cfg.Limit() - attempts
  {
    if attempts + 1 >= cfg.Limit() then
      0
    else
      RetryDelayDoubles(cfg, attempts + 1);
      2 * gap + RetryDelay(cfg, attempts + 1) + Rest(cfg, attempts + 1, gap)
  }

  function LastDue(cfg: Settings, d: Delivery, gap: nat): int
    requires d.attempts >= 0
  {
    d.nextAttemptAt + Rest(cfg, d.attempts, gap)
  }

  /** The worker's clock does not go back, it lists at least every `gap`, and it finishes a cycle within it. */
  ghost predicate Timely(cycles: seq<Cycle>, start: int, gap: nat)
    decreases |cycles|
  {
    cycles == [] ||
    (var c := cycles[0];
     && start <= c.now <= start + gap
     && (forall i :: 0 <= i < |c.listed| ==> c.world(c.listed[i]).1 <= c.now + gap)
     && Timely(cycles[1..], c.now, gap))
  }

  function LastListing(cycles: seq<Cycle>, start: int): int {
    if cycles == [] then start else cycles[|cycles| - 1].now
  }

  /** No listing finds the delivery's endpoint disabled. */
  ghost predicate StaysEnabled(cfg: Settings, t: Tables, cycles: seq<Cycle>, endpointId: string)
    decreases |cycles|
  {
    cycles == [] ||
    (var c, u := cycles[0], Run(t, cycles[0].idle);
     && endpointId in u.endpoints && u.endpoints[endpointId].enabled
     && StaysEnabled(cfg, AfterCycle(cfg, t, c), cycles[1..], endpointId))
  }

  lemma {:induction false} EventsStay(cfg: Settings, t: Tables, moves: seq<Move>, id: EventId)
    requires EventStored(t.events, id)
    ensures EventStored(Play(cfg, t, moves).events, id)
    decreases |moves|
  {
    if moves != [] {
      var m := moves[0];
      if m.Other? {
        StepPersists(t, m.s);
      } else if m.id in t.deliveries {
        AttemptVerdict(cfg, t, m.id, m.attempt, m.at);
      }
      EventsStay(cfg, Make(cfg, t, m), moves[1..], id);
    }
  }

  lemma IdleKeepsEvents(t: Tables, steps: seq<Step>, id: EventId)
    requires EventStored(t.events, id)
    ensures EventStored(Run(t, steps).events, id)
  {
    RunPersists(t, steps);
  }

  /** Open, not due before the last listing, and with its last attempt due by `end`. */
  predicate OnSchedule(cfg: Settings, d: Delivery, listing: int, end: int, gap: nat) {
    d.attempts >= 0 && (Final(d) || (listing <= d.nextAttemptAt && LastDue(cfg, d, gap) <= end))
  }

  lemma AttemptOnSchedule(cfg: Settings, d: Delivery, d': Delivery, start: int, now: int, at: int, end: int, gap: nat)
    requires Open(d) && OnSchedule(cfg, d, start, end, gap) && start <= now <= start + gap
    requires d.nextAttemptAt <= now <= at <= now + gap && d'.attempts == d.attempts + 1 && WithinLimit(cfg, d')
    requires Open(d') ==> d'.nextAttemptAt == at + RetryDelay(cfg, d'.attempts)
    ensures OnSchedule(cfg, d', now, end, gap)
  {
    if Open(d') {
      RetryDelayDoubles(cfg, d'.attempts);
    }
  }

  /** One cycle: the delivery is final, or not due yet, or attempted once within the gap. */
  lemma CycleAttempts(cfg: Settings, t: Tables, c: Cycle, id: DeliveryId, gap: nat)
    requires AllWithinLimit(cfg, t) && id in t.deliveries && WorksOnce(t, c)
    requires EventStored(Run(t, c.idle).events, id.eventId)
    requires forall i :: 0 <= i < |c.listed| ==> c.world(c.listed[i]).1 <= c.now + gap
    requires ServedWhenDue(cfg, t, [c], id) && StaysEnabled(cfg, t, [c], id.endpointId)
    ensures var v := AfterCycle(cfg, t, c);
      && AllWithinLimit(cfg, v) && id in v.deliveries
      && var d, d', at := t.deliveries[id], v.deliveries[id], c.world(id).1;
         if Final(d) || c.now < d.nextAttemptAt then
           d' == d
         else
           && Open(d) && c.now <= at <= c.now + gap && d'.attempts == d.attempts + 1
           && (Open(d') ==> d'.nextAttemptAt == at + RetryDelay(cfg, d'.attempts))
  {
    OneCycle(cfg, t, c, id);
    if Times(c.moves, id) != [] {
      var i :| 0 <= i < |c.listed| && c.listed[i] == id;
      assert c.world(c.listed[i]).1 <= c.now + gap;
    }
  }

  lemma CycleOnSchedule(cfg: Settings, t: Tables, c: Cycle, id: DeliveryId, start: int, end: int, gap: nat)
    requires AllWithinLimit(cfg, t) && id in t.deliveries && WorksOnce(t, c) && EventStored(t.events, id.eventId)
    requires OnSchedule(cfg, t.deliveries[id], start, end, gap) && Timely([c], start, gap)
    requires ServedWhenDue(cfg, t, [c], id) && StaysEnabled(cfg, t, [c], id.endpointId)
    ensures var v := AfterCycle(cfg, t, c);
      && AllWithinLimit(cfg, v) && id in v.deliveries && EventStored(v.events, id.eventId)
      && OnSchedule(cfg, v.deliveries[id], c.now, end, gap)
  {
    IdleKeepsEvents(t, c.idle, id.eventId);
    EventsStay(cfg, Run(t, c.idle), c.moves, id.eventId);
    CycleAttempts(cfg, t, c, id, gap);
    var d, d' := t.deliveries[id], AfterCycle(cfg, t, c).deliveries[id];
    if Open(d) && d.nextAttemptAt <= c.now {
      AttemptOnSchedule(cfg, d, d', start, c.now, c.world(id).1, end, gap);
    }
  }

  lemma {:induction false} DoneBy(cfg: Settings, t: Tables, cycles: seq<Cycle>, id: DeliveryId, start: int, end: int, gap: nat)
    requires AllWithinLimit(cfg, t) && Works(cfg, t, cycles) && id in t.deliveries && EventStored(t.events, id.eventId)
    requires OnSchedule(cfg, t.deliveries[id], start, end, gap) && Timely(cycles, start, gap)
    requires ServedWhenDue(cfg, t, cycles, id) && StaysEnabled(cfg, t, cycles, id.endpointId)
    requires LastListing(cycles, start) > end
    ensures var v := Play(cfg, t, MovesOf(cycles)); id in v.deliveries && Final(v.deliveries[id])
    decreases |cycles|
  {
    if cycles != [] {
      var c := cycles[0];
      assert [c][1..] == [];
      CycleOnSchedule(cfg, t, c, id, start, end, gap);
      CycleThenRest(cfg, t, cycles);
      assert cycles[1..] != [] ==> cycles[1..][|cycles| - 2] == cycles[|cycles| - 1];
      DoneBy(cfg, AfterCycle(cfg, t, c), cycles[1..], id, c.now, end, gap);
    }
  }

  /** An open delivery not due before `start`, whose endpoint stays enabled and which every cycle that finds it due
      serves, is delivered or dead by the first cycle to list after its last attempt is due at the latest. */
  lemma DoneInTime(cfg: Settings, t: Tables, cycles: seq<Cycle>, id: DeliveryId, start: int, gap: nat)
    requires AllWithinLimit(cfg, t) && Works(cfg, t, cycles) && Timely(cycles, start, gap)
    requires id in t.deliveries && EventStored(t.events, id.eventId) && StaysEnabled(cfg, t, cycles, id.endpointId)
    requires start <= t.deliveries[id].nextAttemptAt && ServedWhenDue(cfg, t, cycles, id)
    requires LastListing(cycles, start) > LastDue(cfg, t.deliveries[id], gap)
    ensures var v := Play(cfg, t, MovesOf(cycles)); id in v.deliveries && Final(v.deliveries[id])
  {
    DoneBy(cfg, t, cycles, id, start, LastDue(cfg, t.deliveries[id], gap), gap);
  }
}
