/**
 The webhook worker (backend/app/services/webhook_worker.py): one worker attempting due deliveries while
 other processes write the store, as a delivery state machine with bounded, spaced attempts.
 */
module WebhookWorker {
  import opened Wrappers
  import opened PaymentState
  import opened PaymentTables
  import opened StoreInvariants
  import opened PaymentStore

  datatype Settings = Settings(maxAttempts: int, retryBase: int, retryMax: int, batchSize: int) {
    /** The most attempts a delivery gets. */
    function Limit(): (n: int)
      ensures n >= 1 && n >= maxAttempts && (n == 1 || n == maxAttempts)
    {
      if maxAttempts < 1 then 1 else maxAttempts
    }

    function Base(): (n: int)
      ensures n >= 1 && n >= retryBase && (n == 1 || n == retryBase)
    {
      if retryBase < 1 then 1 else retryBase
    }

    function Maximum(): (n: int)
      ensures n >= Base() && n >= retryMax && (n == Base() || n == retryMax)
    {
      if retryMax < Base() then Base() else retryMax
    }
  }

  function Pow2(n: nat): int {
    if n == 0 then 1 else 2 * Pow2(n - 1)
  }

  function Min(a: int, b: int): int {
    if a <= b then a else b
  }

  function RetryDelay(cfg: Settings, attemptNumber: int): int {
    Min(cfg.Maximum(), cfg.Base() * Pow2(if attemptNumber < 1 then 0 else attemptNumber - 1))
  }

  lemma {:induction false} Pow2Positive(n: nat)
    ensures Pow2(n) >= 1
  {
    if n > 0 {
      Pow2Positive(n - 1);
    }
  }

  /** The delay starts at the base and doubles with every attempt until it stays at the maximum. */
  lemma RetryDelayDoubles(cfg: Settings, n: int)
    requires n >= 1
    ensures RetryDelay(cfg, 1) == cfg.Base()
    ensures RetryDelay(cfg, n + 1) == Min(cfg.Maximum(), 2 * RetryDelay(cfg, n))
    ensures 1 <= cfg.Base() <= RetryDelay(cfg, n) <= RetryDelay(cfg, n + 1) <= cfg.Maximum()
  {
    Pow2Positive(n - 1);
    var b, p := cfg.Base(), Pow2(n - 1);
    assert Pow2(n) == 2 * p;
    assert b * (2 * p) == 2 * (b * p);
    assert b * p >= b;
  }

  // ---------- One attempt ----------

  /** How the exchange with an endpoint ended. */
  datatype Attempt =
    | NoPayload
    | BadUrl(code: string)
    | NoSigningKey
    | DnsFailure
    | NetworkFailure
    | Response(status: int)

  predicate Retryable(status: int) {
    status in {408, 409, 425, 429} || 500 <= status <= 599
  }

  function Failed(cfg: Settings, id: DeliveryId, attempts: int, http: Option<int>, code: string, terminal: bool, at: int)
    : Step {
    Fail(id, http, code, at, at + RetryDelay(cfg, attempts + 1), terminal)
  }

  /** The one write an attempt makes, for a delivery read with `attempts` earlier attempts. */
  function AttemptStep(cfg: Settings, id: DeliveryId, attempts: int, attempt: Attempt, at: int): Step {
    var last := attempts + 1 >= cfg.Limit();
    match attempt
    case NoPayload => Failed(cfg, id, attempts, None, "invalid_event_payload", true, at)
    case BadUrl(code) => Failed(cfg, id, attempts, None, code, true, at)
    case NoSigningKey => Failed(cfg, id, attempts, None, "webhook_signing_unavailable", true, at)
    case DnsFailure => Failed(cfg, id, attempts, None, "webhook_dns_error", last, at)
    case NetworkFailure => Failed(cfg, id, attempts, None, "webhook_delivery_error", last, at)
    case Response(status) =>
      if 200 <= status < 300 then Succeed(id, status, at)
      else Failed(cfg, id, attempts, Some(status), "webhook_http_error", last || !Retryable(status), at)
  }

  /** The failures that may pass: no answer at all, or one of these status codes. */
  predicate MayPass(attempt: Attempt) {
    || attempt == DnsFailure || attempt == NetworkFailure
    || (attempt.Response?
        && (|| attempt.status == 408 || attempt.status == 409 || attempt.status == 425 || attempt.status == 429
            || 500 <= attempt.status <= 599))
  }

  predicate Accepted(attempt: Attempt) {
    attempt.Response? && 200 <= attempt.status <= 299
  }

  /** The error code recorded for an attempt that was not accepted. */
  predicate Blames(attempt: Attempt, code: Option<string>) {
    && (attempt == NoPayload ==> code == Some("invalid_event_payload"))
    && (attempt.BadUrl? ==> code == Some(attempt.code))
    && (attempt == NoSigningKey ==> code == Some("webhook_signing_unavailable"))
    && (attempt == DnsFailure ==> code == Some("webhook_dns_error"))
    && (attempt == NetworkFailure ==> code == Some("webhook_delivery_error"))
    && (attempt.Response? ==> code == Some("webhook_http_error"))
  }

  /** What an attempt does to a delivery: it is delivered exactly on a 2xx answer, left for a retry exactly on a
      failure that may pass with attempts to spare, and dead otherwise; and its row says what happened. */
  ghost predicate Attempted(cfg: Settings, d: Delivery, d': Delivery, attempt: Attempt, at: int) {
    && (d'.status == Delivered <==> Accepted(attempt))
    && (d'.status == Retry <==> MayPass(attempt) && d.attempts + 1 < cfg.Limit())
    && (d'.status == Dead <==> !Accepted(attempt) && !(MayPass(attempt) && d.attempts + 1 < cfg.Limit()))
    && d'.attempts == d.attempts + 1 && d'.lastAttemptAt == Some(at) && d'.updatedAt == at && d'.createdAt == d.createdAt
    && d'.httpStatus == (if attempt.Response? then Some(attempt.status) else None)
    && if Accepted(attempt) then
         d'.deliveredAt == Some(at) && d'.errorCode == None && d'.nextAttemptAt == d.nextAttemptAt
       else
         && d'.deliveredAt == d.deliveredAt && Blames(attempt, d'.errorCode)
         && d'.nextAttemptAt == at + RetryDelay(cfg, d.attempts + 1)
  }

  lemma AttemptVerdict(cfg: Settings, t: Tables, id: DeliveryId, attempt: Attempt, at: int)
    requires id in t.deliveries
    ensures var d, t' := t.deliveries[id], Apply(t, AttemptStep(cfg, id, t.deliveries[id].attempts, attempt, at));
      && id in t'.deliveries
      && t' == t.(deliveries := t.deliveries[id := t'.deliveries[id]])
      && Attempted(cfg, d, t'.deliveries[id], attempt, at)
  {
    var s := AttemptStep(cfg, id, t.deliveries[id].attempts, attempt, at);
    if s.Succeed? {
      SucceedEffect(t, id, s.http, at);
    } else {
      FailEffect(t, s);
    }
  }

  lemma SucceedEffect(t: Tables, id: DeliveryId, http: int, at: int)
    requires id in t.deliveries
    ensures var d := t.deliveries[id];
      Apply(t, Succeed(id, http, at))
      == t.(deliveries := t.deliveries[id := Delivery(Delivered, d.attempts + 1, d.nextAttemptAt, Some(at), Some(http), None,
                                                      Some(at), d.createdAt, at)])
  {
  }

  lemma FailEffect(t: Tables, s: Step)
    requires s.Fail? && s.id in t.deliveries
    ensures var d := t.deliveries[s.id];
      Apply(t, s)
      == t.(deliveries := t.deliveries[s.id := Delivery(if s.dead then Dead else Retry, d.attempts + 1, s.next, Some(s.at),
                                                        s.httpStatus, Some(s.errorCode), d.deliveredAt, d.createdAt, s.at)])
  {
  }

  // ---------- The worker ----------

  predicate Open(d: Delivery) {
    d.status == Pending || d.status == Retry
  }

  predicate Due(t: Tables, id: DeliveryId, now: int) {
    && id in t.deliveries && Open(t.deliveries[id]) && t.deliveries[id].nextAttemptAt <= now
    && EventStored(t.events, id.eventId)
    && id.endpointId in t.endpoints && t.endpoints[id.endpointId].enabled
  }

  /** At most `bound` due deliveries, each once, the longest due first to be kept. */
  ghost predicate ListsDue(t: Tables, now: int, bound: nat, ids: seq<DeliveryId>) {
    && |ids| <= bound
    && (forall i :: 0 <= i < |ids| ==> Due(t, ids[i], now))
    && (forall i, j :: 0 <= i < j < |ids| ==> ids[i] != ids[j])
    && (forall id :: Due(t, id, now) && id !in ids ==>
          |ids| == bound
          && forall i :: 0 <= i < |ids| ==> t.deliveries[ids[i]].nextAttemptAt <= t.deliveries[id].nextAttemptAt)
  }

  function Clamp(n: int, low: nat, high: nat): (r: nat)
    requires low <= high
    ensures low <= r <= high && (low <= n <= high ==> r == n) && (n < low ==> r == low) && (n > high ==> r == high)
  {
    if n < low then low else if n > high then high else n
  }

  /** What the network does with each delivery, and when. */
  type World = DeliveryId -> (Attempt, int)

  function BatchSteps(cfg: Settings, t: Tables, ids: seq<DeliveryId>, world: World): seq<Step>
    requires forall i :: 0 <= i < |ids| ==> ids[i] in t.deliveries
  {
    seq(|ids|, i requires 0 <= i < |ids| =>
      AttemptStep(cfg, ids[i], t.deliveries[ids[i]].attempts, world(ids[i]).0, world(ids[i]).1))
  }

  class WebhookWorker {
    const store: PaymentStore
    const cfg: Settings

    constructor (store: PaymentStore, cfg: Settings)
      ensures this.store == store && this.cfg == cfg
    {
      this.store, this.cfg := store, cfg;
    }

    method LongestDue(candidates: set<DeliveryId>) returns (best: DeliveryId)
      requires candidates != {} && candidates <= store.deliveries.Keys
      ensures best in candidates
      ensures forall id :: id in candidates ==> store.deliveries[best].nextAttemptAt <= store.deliveries[id].nextAttemptAt
    {
      best :| best in candidates;
      var left := candidates - {best};
      while left != {}
        invariant best in candidates && left <= candidates
        invariant forall id :: id in candidates - left ==>
                    store.deliveries[best].nextAttemptAt <= store.deliveries[id].nextAttemptAt
      {
        var id :| id in left;
        if store.deliveries[id].nextAttemptAt < store.deliveries[best].nextAttemptAt {
          best := id;
        }
        left := left - {id};
      }
    }

    method ListDue(now: int, limit: int) returns (ids: seq<DeliveryId>)
      ensures ListsDue(store.View(), now, Clamp(limit, 1, 100), ids)
    {
      ids := [];
      var bound := Clamp(limit, 1, 100);
      var all := set id | id in store.deliveries && Open(store.deliveries[id])
                          && store.deliveries[id].nextAttemptAt <= now && EventStored(store.events, id.eventId)
                          && id.endpointId in store.endpoints && store.endpoints[id.endpointId].enabled;
      assert forall id :: id in all <==> Due(store.View(), id, now);
      var left := all;
      while left != {} && |ids| < bound
        invariant left <= all && |ids| <= bound
        invariant forall i :: 0 <= i < |ids| ==> ids[i] in all && ids[i] !in left
        invariant forall i, j :: 0 <= i < j < |ids| ==> ids[i] != ids[j]
        invariant forall id :: id in all && id !in left ==> id in ids
        invariant forall id, i :: id in left && 0 <= i < |ids| ==>
                    store.deliveries[ids[i]].nextAttemptAt <= store.deliveries[id].nextAttemptAt
      {
        var id := LongestDue(left);
        ids := ids + [id];
        left := left - {id};
      }
    }

    method Fail(id: DeliveryId, attempts: int, code: string, http: Option<int>, terminal: bool, at: int)
      requires id in store.deliveries
      modifies store`deliveries
      ensures store.View() == Apply(old(store.View()), Failed(cfg, id, attempts, http, code, terminal, at))
    {
      var next := at + RetryDelay(cfg, attempts + 1);
      var marked := store.MarkWebhookDeliveryFailure(id, http, code, at, next, terminal);
    }

    /** Attempt one delivery, as it was listed, and record how it ended. */
    method Deliver(id: DeliveryId, attempts: int, attempt: Attempt, at: int)
      requires id in store.deliveries
      modifies store`deliveries
      ensures store.View() == Apply(old(store.View()), AttemptStep(cfg, id, attempts, attempt, at))
    {
      var last := attempts + 1 >= cfg.Limit();
      match attempt
      case NoPayload => Fail(id, attempts, "invalid_event_payload", None, true, at);
      case BadUrl(code) => Fail(id, attempts, code, None, true, at);
      case NoSigningKey => Fail(id, attempts, "webhook_signing_unavailable", None, true, at);
      case DnsFailure => Fail(id, attempts, "webhook_dns_error", None, last, at);
      case NetworkFailure => Fail(id, attempts, "webhook_delivery_error", None, last, at);
      case Response(status) =>
        if 200 <= status < 300 {
          var marked := store.MarkWebhookDeliverySuccess(id, status, at);
        } else {
          Fail(id, attempts, "webhook_http_error", Some(status), last || !Retryable(status), at);
        }
    }

    /** One polling cycle. `ids` is the batch, in the order attempted. */
    method RunOnce(now: int, world: World) returns (ids: seq<DeliveryId>)
      modifies store`deliveries
      ensures ListsDue(old(store.View()), now, Clamp(cfg.batchSize, 1, 100), ids)
      ensures store.View() == Run(old(store.View()), BatchSteps(cfg, old(store.View()), ids, world))
    {
      ghost var t := store.View();
      var listed := store.deliveries;
      ids := ListDue(now, cfg.batchSize);
      for i := 0 to |ids|
        invariant store.View() == Run(t, BatchSteps(cfg, t, ids[..i], world))
        invariant store.deliveries.Keys == listed.Keys
      {
        var (attempt, at) := world(ids[i]);
        BatchNext(cfg, t, ids, world, i);
        AttemptKeepsIds(cfg, store.View(), ids[i], listed[ids[i]].attempts, attempt, at);
        Deliver(ids[i], listed[ids[i]].attempts, attempt, at);
      }
      assert ids[..|ids|] == ids;
    }
  }

  lemma BatchNext(cfg: Settings, t: Tables, ids: seq<DeliveryId>, world: World, i: nat)
    requires i < |ids| && forall j :: 0 <= j < |ids| ==> ids[j] in t.deliveries
    ensures Run(t, BatchSteps(cfg, t, ids[..i + 1], world))
            == Apply(Run(t, BatchSteps(cfg, t, ids[..i], world)),
                     AttemptStep(cfg, ids[i], t.deliveries[ids[i]].attempts, world(ids[i]).0, world(ids[i]).1))
  {
    var s := AttemptStep(cfg, ids[i], t.deliveries[ids[i]].attempts, world(ids[i]).0, world(ids[i]).1);
    assert BatchSteps(cfg, t, ids[..i + 1], world) == BatchSteps(cfg, t, ids[..i], world) + [s];
    RunThen(t, BatchSteps(cfg, t, ids[..i], world), s);
  }

  lemma AttemptKeepsIds(cfg: Settings, t: Tables, id: DeliveryId, attempts: int, attempt: Attempt, at: int)
    requires id in t.deliveries
    ensures Apply(t, AttemptStep(cfg, id, attempts, attempt, at)).deliveries.Keys == t.deliveries.Keys
  {
    var s := AttemptStep(cfg, id, attempts, attempt, at);
    if s.Succeed? {
      SucceedEffect(t, id, s.http, at);
    } else {
      FailEffect(t, s);
    }
  }
}
