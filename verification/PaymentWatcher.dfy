/**
 Reconciliation with the chain (backend/app/services/payment_watcher.py): the watcher's programs of
 store steps, run against any tables and any interleaving, and the state they bring about.
 */
module PaymentWatcher {
  import opened Wrappers
  import opened PaymentState
  import opened PaymentTables
  import opened StoreInvariants
  import opened Creation
  import opened PaymentRows
  import opened PaymentStore

  /** One line of an address history. A height of zero or less is the mempool. */
  datatype HistoryEntry = HistoryEntry(txid: string, height: int)

  /** Verbose transactions, as a fixed function of the transaction id. */
  type Chain = string -> TxData

  function HistoryTxids(history: seq<HistoryEntry>): set<string> {
    set i | 0 <= i < |history| :: history[i].txid
  }

  // ---------- The reconcile program, as steps ----------

  function UpsertSteps(id: string, observations: seq<Observation>, at: int): seq<Step> {
    seq(|observations|, i requires 0 <= i < |observations| => Upsert(id, observations[i], at))
  }

  function EntrySteps(id: string, address: string, baseline: set<string>, entry: HistoryEntry, chain: Chain, at: int)
    : seq<Step> {
    if entry.txid in baseline then
      []
    else
      match MatchTransaction(chain(entry.txid), address, entry.height, entry.txid, Some(at))
      case Err(_) => []
      case Ok(observations) => UpsertSteps(id, observations, at)
  }

  function HistorySteps(id: string, address: string, baseline: set<string>, history: seq<HistoryEntry>, chain: Chain,
                        at: int): seq<Step> {
    if history == [] then
      []
    else
      var n := |history| - 1;
      HistorySteps(id, address, baseline, history[..n], chain, at)
      + EntrySteps(id, address, baseline, history[n], chain, at)
  }

  /** The steps that write the rows of one payment. */
  function RowSteps(id: string, address: string, baseline: set<string>, history: seq<HistoryEntry>, chain: Chain,
                    at: int): seq<Step> {
    HistorySteps(id, address, baseline, history, chain, at) + [DeleteNotIn(id, HistoryTxids(history))]
  }

  function PaymentSteps(t: Tables, id: string, history: seq<HistoryEntry>, chain: Chain, at: int): seq<Step>
    requires id in t.payments
  {
    RowSteps(id, t.payments[id].address, BaselineOf(t, id), history, chain, at) + [Refresh(id, at)]
  }

  function ReconcileSteps(t: Tables, ids: seq<string>, history: seq<HistoryEntry>, chain: Chain, at: int): seq<Step>
    requires forall i :: 0 <= i < |ids| ==> ids[i] in t.payments
  {
    if ids == [] then
      []
    else
      var n := |ids| - 1;
      ReconcileSteps(t, ids[..n], history, chain, at) + PaymentSteps(t, ids[n], history, chain, at)
  }

  // ---------- The reconcile program, as it runs ----------

  /** The payments of a script hash, each once. */
  ghost predicate ListsPayments(t: Tables, scripthash: string, ids: seq<string>) {
    && (forall i :: 0 <= i < |ids| ==> ids[i] in t.payments && t.payments[ids[i]].scripthash == scripthash)
    && (forall i, j :: 0 <= i < j < |ids| ==> ids[i] != ids[j])
    && (forall id :: id in t.payments && t.payments[id].scripthash == scripthash ==> id in ids)
  }

  // ---------- Refreshing on a new header ----------

  /** A header notification; `height` is `None` when it is missing or not a number. */
  datatype Header = Header(height: Option<int>, hash: Option<string>)

  /** Not yet expired, and either past the deadline or with recorded outputs. */
  predicate Refreshable(t: Tables, id: string, now: int) {
    && id in t.payments && t.payments[id].status != Expired
    && (t.payments[id].expiresAt <= now || RowsOf(t, id) != map[])
  }

  /** At most `bound` refreshable payments, each once, the most recently updated ones first to be kept. */
  ghost predicate ListsRefreshable(t: Tables, now: int, bound: nat, ids: seq<string>) {
    && |ids| <= bound
    && (forall i :: 0 <= i < |ids| ==> Refreshable(t, ids[i], now))
    && (forall i, j :: 0 <= i < j < |ids| ==> ids[i] != ids[j])
    && (forall id :: Refreshable(t, id, now) && id !in ids ==>
          |ids| == bound && forall i :: 0 <= i < |ids| ==> t.payments[id].updatedAt <= t.payments[ids[i]].updatedAt)
  }

  /** How many payments one header refreshes. */
  function HeaderLimit(maxSubscriptions: int): (n: nat)
    ensures n >= 1 && n >= 2 * maxSubscriptions && (n == 1 || n == 2 * maxSubscriptions)
  {
    if maxSubscriptions * 2 < 1 then 1 else maxSubscriptions * 2
  }

  function RefreshSteps(ids: seq<string>, now: int): seq<Step> {
    seq(|ids|, i requires 0 <= i < |ids| => Refresh(ids[i], now))
  }

  class PaymentWatcher {
    const store: PaymentStore

    constructor (store: PaymentStore)
      ensures this.store == store
    {
      this.store := store;
    }

    method PaymentsByScripthash(scripthash: string) returns (ids: seq<string>)
      ensures ListsPayments(store.View(), scripthash, ids)
    {
      ids := [];
      var left := set id | id in store.payments && store.payments[id].scripthash == scripthash;
      ghost var all := left;
      while left != {}
        invariant left <= all
        invariant forall i :: 0 <= i < |ids| ==> ids[i] in all - left
        invariant forall i, j :: 0 <= i < j < |ids| ==> ids[i] != ids[j]
        invariant forall id :: id in all - left ==> id in ids
      {
        var id :| id in left;
        ids := ids + [id];
        left := left - {id};
      }
    }

    method UpsertAll(id: string, observations: seq<Observation>, at: int) returns (r: Result<(), StoreError>)
      modifies store
      ensures Outcome(store.View(), r) == Execute(old(store.View()), UpsertSteps(id, observations, at))
    {
      ghost var t := store.View();
      for i := 0 to |observations|
        invariant Execute(t, UpsertSteps(id, observations[..i], at)) == Outcome(store.View(), Ok(()))
      {
        var s := Upsert(id, observations[i], at);
        assert UpsertSteps(id, observations[..i + 1], at) == UpsertSteps(id, observations[..i], at) + [s];
        ExecuteConcat(t, UpsertSteps(id, observations[..i], at), [s]);
        ExecuteOne(store.View(), s);
        var upserted := store.UpsertTransaction(id, observations[i], at);
        if upserted.Err? {
          ghost var rest := UpsertSteps(id, observations[i + 1..], at);
          assert UpsertSteps(id, observations, at) == UpsertSteps(id, observations[..i + 1], at) + rest;
          ExecuteConcat(t, UpsertSteps(id, observations[..i + 1], at), rest);
          return Err(upserted.error);
        }
      }
      assert observations[..|observations|] == observations;
      return Ok(());
    }

    method RecordEntry(id: string, address: string, baseline: set<string>, entry: HistoryEntry, chain: Chain,
                       verbose: map<string, TxData>, at: int)
      returns (r: Result<(), StoreError>, fetched: map<string, TxData>)
      requires forall x :: x in verbose ==> verbose[x] == chain(x)
      modifies store
      ensures forall x :: x in fetched ==> fetched[x] == chain(x)
      ensures Outcome(store.View(), r) == Execute(old(store.View()), EntrySteps(id, address, baseline, entry, chain, at))
    {
      fetched := verbose;
      if entry.txid in baseline {
        return Ok(()), fetched;
      }
      if entry.txid !in fetched {
        fetched := fetched[entry.txid := chain(entry.txid)];
      }
      var matched := MatchTransactionOutputs(fetched[entry.txid], address, entry.height, entry.txid, Some(at));
      if matched.Err? {
        return Ok(()), fetched;
      }
      r := UpsertAll(id, matched.value, at);
    }

    /** Record the outputs a history pays to one payment, fetching each transaction once. */
    method RecordHistory(id: string, address: string, baseline: set<string>, history: seq<HistoryEntry>, chain: Chain,
                         verbose: map<string, TxData>, at: int)
      returns (r: Result<(), StoreError>, fetched: map<string, TxData>)
      requires forall x :: x in verbose ==> verbose[x] == chain(x)
      modifies store
      ensures forall x :: x in fetched ==> fetched[x] == chain(x)
      ensures Outcome(store.View(), r) == Execute(old(store.View()), HistorySteps(id, address, baseline, history, chain, at))
    {
      ghost var t := store.View();
      r, fetched := Ok(()), verbose;
      for i := 0 to |history|
        invariant r.Ok?
        invariant forall x :: x in fetched ==> fetched[x] == chain(x)
        invariant Execute(t, HistorySteps(id, address, baseline, history[..i], chain, at)) == Outcome(store.View(), r)
      {
        HistoryNext(t, id, address, baseline, history, chain, at, i);
        r, fetched := RecordEntry(id, address, baseline, history[i], chain, fetched, at);
        if r.Err? {
          HistoryStopped(t, id, address, baseline, history, chain, at, i + 1);
          return;
        }
      }
      assert history[..|history|] == history;
    }

    method ReconcilePayment(id: string, history: seq<HistoryEntry>, chain: Chain, verbose: map<string, TxData>, at: int)
      returns (r: Result<(), StoreError>, fetched: map<string, TxData>)
      requires id in store.payments
      requires forall x :: x in verbose ==> verbose[x] == chain(x)
      modifies store
      ensures forall x :: x in fetched ==> fetched[x] == chain(x)
      ensures Outcome(store.View(), r) == Execute(old(store.View()), PaymentSteps(old(store.View()), id, history, chain, at))
    {
      ghost var t := store.View();
      var address := store.payments[id].address;
      var baseline := if id in store.baselines then store.baselines[id] else {};
      PaymentInThree(t, id, history, chain, at);
      r, fetched := RecordHistory(id, address, baseline, history, chain, verbose, at);
      if r.Err? {
        return;
      }
      store.DeleteTransactionsNotIn(id, HistoryTxids(history));
      var refreshed := store.RefreshPayment(id, at);
      r := if refreshed.Err? then Err(refreshed.error) else Ok(());
    }

    /** Reconcile every payment of a script hash with one reading of its history. `ids` is the order
        in which they were reconciled. */
    method ReconcileScripthash(scripthash: string, history: seq<HistoryEntry>, chain: Chain, at: int)
      returns (r: Result<(), StoreError>, ids: seq<string>)
      modifies store
      ensures ListsPayments(old(store.View()), scripthash, ids)
      ensures Outcome(store.View(), r)
              == Execute(old(store.View()), ReconcileSteps(old(store.View()), ids, history, chain, at))
    {
      ghost var t := store.View();
      ids := PaymentsByScripthash(scripthash);
      var verbose: map<string, TxData> := map[];
      r := Ok(());
      for i := 0 to |ids|
        invariant r.Ok?
        invariant forall x :: x in verbose ==> verbose[x] == chain(x)
        invariant Execute(t, ReconcileSteps(t, ids[..i], history, chain, at)) == Outcome(store.View(), r)
      {
        ReconcileNext(t, ids, history, chain, at, i);
        r, verbose := ReconcilePayment(ids[i], history, chain, verbose, at);
        if r.Err? {
          ReconcileStopped(t, ids, history, chain, at, i + 1);
          return;
        }
      }
      assert ids[..|ids|] == ids;
    }

    method MostRecentlyUpdated(candidates: set<string>) returns (best: string)
      requires candidates != {} && candidates <= store.payments.Keys
      ensures best in candidates
      ensures forall id :: id in candidates ==> store.payments[id].updatedAt <= store.payments[best].updatedAt
    {
      best :| best in candidates;
      var left := candidates - {best};
      while left != {}
        invariant best in candidates && left <= candidates
        invariant forall id :: id in candidates - left ==> store.payments[id].updatedAt <= store.payments[best].updatedAt
      {
        var id :| id in left;
        if store.payments[id].updatedAt > store.payments[best].updatedAt {
          best := id;
        }
        left := left - {id};
      }
    }

    method ListRefreshable(now: int, bound: nat) returns (ids: seq<string>)
      ensures ListsRefreshable(store.View(), now, bound, ids)
    {
      ids := [];
      var all := set id | id in store.payments && store.payments[id].status != Expired
                          && (store.payments[id].expiresAt <= now
                              || (id in store.transactions && store.transactions[id] != map[]));
      assert forall id :: id in all <==> Refreshable(store.View(), id, now);
      var left := all;
      while left != {} && |ids| < bound
        invariant left <= all && |ids| <= bound
        invariant forall i :: 0 <= i < |ids| ==> ids[i] in all && ids[i] !in left
        invariant forall i, j :: 0 <= i < j < |ids| ==> ids[i] != ids[j]
        invariant forall id :: id in all && id !in left ==> id in ids
        invariant forall id, i :: id in left && 0 <= i < |ids| ==>
                    store.payments[id].updatedAt <= store.payments[ids[i]].updatedAt
      {
        var id := MostRecentlyUpdated(left);
        ids := ids + [id];
        left := left - {id};
      }
    }

    /** Refresh payments in turn, stopping at the first that raises. */
    method RefreshListed(ids: seq<string>, now: int) returns (r: Result<(), StoreError>)
      modifies store
      ensures Outcome(store.View(), r) == Execute(old(store.View()), RefreshSteps(ids, now))
    {
      ghost var t := store.View();
      r := Ok(());
      for i := 0 to |ids|
        invariant r.Ok?
        invariant Execute(t, RefreshSteps(ids[..i], now)) == Outcome(store.View(), r)
      {
        RefreshNext(t, ids, now, i);
        ExecuteOne(store.View(), Refresh(ids[i], now));
        var refreshed := store.RefreshPayment(ids[i], now);
        if refreshed.Err? {
          RefreshStopped(t, ids, now, i + 1);
          return Err(refreshed.error);
        }
        r := Ok(());
      }
      assert ids[..|ids|] == ids;
    }

    /** Store the new tip, then refresh what it may have moved. A header without a usable height is
        ignored. */
    method ApplyHeader(header: Header, now: int, maxSubscriptions: int)
      returns (r: Result<(), StoreError>, ids: seq<string>)
      modifies store
      ensures header.height.None? || header.height.value < 0 ==>
                store.View() == old(store.View()) && r.Ok? && ids == []
      ensures header.height.Some? && header.height.value >= 0 ==>
                var tipped := SetChainTip(old(store.View()), header.height.value, header.hash, now).tables;
                && ListsRefreshable(tipped, now, HeaderLimit(maxSubscriptions), ids)
                && Outcome(store.View(), r) == Execute(tipped, RefreshSteps(ids, now))
    {
      if header.height.None? || header.height.value < 0 {
        return Ok(()), [];
      }
      r := store.UpdateChainTip(header.height.value, header.hash, now);
      ids := ListRefreshable(now, HeaderLimit(maxSubscriptions));
      r := RefreshListed(ids, now);
    }
  }

  /** A payment is reconciled in three parts: its history recorded, unlisted rows deleted, the row refreshed. */
  lemma PaymentInThree(t: Tables, id: string, history: seq<HistoryEntry>, chain: Chain, at: int)
    requires id in t.payments
    ensures var o := Execute(t, HistorySteps(id, t.payments[id].address, BaselineOf(t, id), history, chain, at));
      var whole := Execute(t, PaymentSteps(t, id, history, chain, at));
      if o.result.Err? then
        whole == o
      else
        var u := RefreshPayment(DeleteTransactionsNotIn(o.tables, id, HistoryTxids(history)).tables, id, at);
        whole == Outcome(u.tables, if u.result.Err? then Err(u.result.error) else Ok(()))
  {
    var reading := HistorySteps(id, t.payments[id].address, BaselineOf(t, id), history, chain, at);
    var last := [DeleteNotIn(id, HistoryTxids(history)), Refresh(id, at)];
    assert PaymentSteps(t, id, history, chain, at) == reading + last;
    ExecuteConcat(t, reading, last);
    if Execute(t, reading).result.Ok? {
      DeleteThenRefresh(Execute(t, reading).tables, id, HistoryTxids(history), at);
    }
  }

  lemma DeleteThenRefresh(t: Tables, id: string, txids: set<string>, at: int)
    ensures var u := RefreshPayment(DeleteTransactionsNotIn(t, id, txids).tables, id, at);
      Execute(t, [DeleteNotIn(id, txids), Refresh(id, at)])
      == Outcome(u.tables, if u.result.Err? then Err(u.result.error) else Ok(()))
  {
    var steps := [DeleteNotIn(id, txids), Refresh(id, at)];
    assert steps[1..] == [Refresh(id, at)];
    ExecuteOne(DeleteTransactionsNotIn(t, id, txids).tables, Refresh(id, at));
  }

  lemma RefreshNext(t: Tables, ids: seq<string>, now: int, i: nat)
    requires i < |ids|
    ensures var done := Execute(t, RefreshSteps(ids[..i], now));
      done.result.Ok? ==>
        Execute(t, RefreshSteps(ids[..i + 1], now)) == Execute(done.tables, [Refresh(ids[i], now)])
  {
    assert RefreshSteps(ids[..i + 1], now) == RefreshSteps(ids[..i], now) + [Refresh(ids[i], now)];
    ExecuteConcat(t, RefreshSteps(ids[..i], now), [Refresh(ids[i], now)]);
  }

  lemma RefreshStopped(t: Tables, ids: seq<string>, now: int, n: nat)
    requires n <= |ids| && Execute(t, RefreshSteps(ids[..n], now)).result.Err?
    ensures Execute(t, RefreshSteps(ids, now)) == Execute(t, RefreshSteps(ids[..n], now))
  {
    assert RefreshSteps(ids, now) == RefreshSteps(ids[..n], now) + RefreshSteps(ids[n..], now);
    ExecuteConcat(t, RefreshSteps(ids[..n], now), RefreshSteps(ids[n..], now));
  }

  lemma HistoryNext(t: Tables, id: string, address: string, baseline: set<string>, history: seq<HistoryEntry>, chain: Chain,
                    at: int, i: nat)
    requires i < |history|
    ensures var done := Execute(t, HistorySteps(id, address, baseline, history[..i], chain, at));
      done.result.Ok? ==>
        Execute(t, HistorySteps(id, address, baseline, history[..i + 1], chain, at))
        == Execute(done.tables, EntrySteps(id, address, baseline, history[i], chain, at))
  {
    assert history[..i + 1][..i] == history[..i];
    ExecuteConcat(t, HistorySteps(id, address, baseline, history[..i], chain, at),
                  EntrySteps(id, address, baseline, history[i], chain, at));
  }

  lemma ReconcileNext(t: Tables, ids: seq<string>, history: seq<HistoryEntry>, chain: Chain, at: int, i: nat)
    requires i < |ids| && forall j :: 0 <= j < |ids| ==> ids[j] in t.payments
    ensures var done := Execute(t, ReconcileSteps(t, ids[..i], history, chain, at));
      done.result.Ok? ==>
        && ids[i] in done.tables.payments
        && Execute(t, ReconcileSteps(t, ids[..i + 1], history, chain, at))
           == Execute(done.tables, PaymentSteps(done.tables, ids[i], history, chain, at))
  {
    var done := ReconcileSteps(t, ids[..i], history, chain, at);
    assert ids[..i + 1][..i] == ids[..i];
    ExecuteConcat(t, done, PaymentSteps(t, ids[i], history, chain, at));
    if Execute(t, done).result.Ok? {
      ExecuteIsRun(t, done);
      RunPersists(t, done);
    }
  }

  lemma {:induction false} HistoryStopped(t: Tables, id: string, address: string, baseline: set<string>,
                                          history: seq<HistoryEntry>, chain: Chain, at: int, n: nat)
    requires n <= |history|
    requires Execute(t, HistorySteps(id, address, baseline, history[..n], chain, at)).result.Err?
    ensures Execute(t, HistorySteps(id, address, baseline, history, chain, at))
            == Execute(t, HistorySteps(id, address, baseline, history[..n], chain, at))
    decreases |history| - n
  {
    if n == |history| {
      assert history[..n] == history;
    } else {
      assert history[..n + 1][..n] == history[..n];
      ExecuteConcat(t, HistorySteps(id, address, baseline, history[..n], chain, at),
                    EntrySteps(id, address, baseline, history[n], chain, at));
      HistoryStopped(t, id, address, baseline, history, chain, at, n + 1);
    }
  }

  lemma {:induction false} ReconcileStopped(t: Tables, ids: seq<string>, history: seq<HistoryEntry>, chain: Chain, at: int,
                                            n: nat)
    requires n <= |ids| && forall i :: 0 <= i < |ids| ==> ids[i] in t.payments
    requires Execute(t, ReconcileSteps(t, ids[..n], history, chain, at)).result.Err?
    ensures Execute(t, ReconcileSteps(t, ids, history, chain, at)) == Execute(t, ReconcileSteps(t, ids[..n], history, chain, at))
    decreases |ids| - n
  {
    if n == |ids| {
      assert ids[..n] == ids;
    } else {
      assert ids[..n + 1][..n] == ids[..n];
      ExecuteConcat(t, ReconcileSteps(t, ids[..n], history, chain, at), PaymentSteps(t, ids[n], history, chain, at));
      ReconcileStopped(t, ids, history, chain, at, n + 1);
    }
  }
}
