/**
 What a refresh stores (backend/app/services/payment_store.py, payment_state.py), told from the recorded rows
 alone: which rows are summed into each total, and which status the totals and the clock give.
 */
module StoredTotals {
  import opened Wrappers
  import opened PaymentState
  import opened PaymentTables
  import opened StoreInvariants
  import opened Creation
  import opened PaymentRows

  /** The value of some of the recorded outputs. */
  ghost function Worth(rows: Rows, ks: set<Outpoint>): int
    requires ks <= rows.Keys
    decreases ks
  {
    if ks == {} then
      0
    else
      var k :| k in ks;
      rows[k].value + Worth(rows, ks - {k})
  }

  lemma {:induction false} WorthSplit(rows: Rows, ks: set<Outpoint>, k: Outpoint)
    requires k in ks && ks <= rows.Keys
    ensures Worth(rows, ks) == rows[k].value + Worth(rows, ks - {k})
    decreases ks
  {
    var pick :| pick in ks && Worth(rows, ks) == rows[pick].value + Worth(rows, ks - {pick});
    if pick != k {
      WorthSplit(rows, ks - {pick}, k);
      WorthSplit(rows, ks - {k}, pick);
      assert ks - {pick} - {k} == ks - {k} - {pick};
    }
  }

  /** The recorded outputs that are the payment's: first seen between its creation and its deadline, and not in a
      block as old as the payment. */
  function Belonging(rows: Rows, p: Payment): set<Outpoint> {
    set k | k in rows && rows[k].firstSeen.Some? && p.createdAt <= rows[k].firstSeen.value <= p.expiresAt
            && !(0 < rows[k].height <= p.createdHeight)
  }

  /** Those in a block. */
  function InBlocks(rows: Rows, p: Payment): set<Outpoint> {
    set k | k in Belonging(rows, p) && rows[k].height > 0
  }

  /** Those as deep below the tip as the payment's policy asks. */
  function DeepEnough(rows: Rows, p: Payment, tip: int): set<Outpoint> {
    set k | k in Belonging(rows, p) && (p.required == 0 || (rows[k].height > 0 && tip - rows[k].height + 1 >= p.required))
  }

  /** A measured sum over the counted outputs is the worth of the rows it measures. */
  lemma {:induction false} TotalIsWorth(rows: Rows, m: map<Outpoint, Observation>, measure: Measure, ks: set<Outpoint>)
    requires forall k :: k in m ==> k in rows && m[k].value == rows[k].value
    requires forall k :: k in ks <==> k in m && Counts(m[k], measure)
    ensures ks <= rows.Keys && Total(m, measure) == Worth(rows, ks)
    decreases |m|
  {
    if m == map[] {
      assert ks == {};
    } else {
      var k :| k in m;
      TotalSplit(m, measure, k);
      TotalIsWorth(rows, m - {k}, measure, ks - {k});
      if k in ks {
        WorthSplit(rows, ks, k);
      } else {
        assert ks - {k} == ks;
      }
    }
  }

  lemma CountedRows(rows: Rows, p: Payment)
    ensures var m := Counted(rows, p.Window());
      && m.Keys == Belonging(rows, p)
      && forall k :: k in m ==> m[k].value == rows[k].value && m[k].height == rows[k].height
  {
  }

  /** The tip a payment is judged by: the stored one, or the height it was created at. */
  function JudgingTip(t: Tables, p: Payment): int {
    if t.tip == None then p.createdHeight else t.tip.value.height
  }

  ghost predicate TotalsOf(p': Payment, rows: Rows, p: Payment, tip: int) {
    && p'.received == Worth(rows, Belonging(rows, p))
    && p'.confirmed == Worth(rows, InBlocks(rows, p))
    && p'.policyConfirmed == Worth(rows, DeepEnough(rows, p, tip))
  }

  /** The status, by the totals, the amount and the clock. */
  predicate StatusOf(p: Payment, now: int) {
    && (p.status == Overpaid <==> p.received > p.amount)
    && (p.status == PaidConfirmed <==> p.received == p.amount && p.policyConfirmed == p.amount)
    && (p.status == PaidUnconfirmed <==> p.received == p.amount && p.policyConfirmed != p.amount)
    && (p.status == Expired <==> p.received < p.amount && now > p.expiresAt)
    && (p.status == Partial <==> 0 < p.received < p.amount && now <= p.expiresAt)
    && (p.status == Waiting <==> p.received == 0 && now <= p.expiresAt)
  }

  lemma EvaluatedTotals(t: Tables, id: string, now: int)
    requires RowsSound(t) && id in t.payments
    ensures var p, rows := t.payments[id], RowsOf(t, id);
      && EvaluatePayment(t, id, now).Ok?
      && var e := EvaluatePayment(t, id, now).value;
         && e.received == Worth(rows, Belonging(rows, p)) && e.confirmed == Worth(rows, InBlocks(rows, p))
         && e.policyConfirmed == Worth(rows, DeepEnough(rows, p, JudgingTip(t, p)))
  {
    var p, rows := t.payments[id], RowsOf(t, id);
    var m := Counted(rows, p.Window());
    RefreshSucceeds(t, id, now);
    CountedRows(rows, p);
    TotalIsWorth(rows, m, Received, Belonging(rows, p));
    TotalIsWorth(rows, m, Confirmed, InBlocks(rows, p));
    assert SoundPayment(p);
    TotalIsWorth(rows, m, Policy(p.required, TipFor(t, p)), DeepEnough(rows, p, JudgingTip(t, p)));
  }

  lemma EvaluatedStatus(t: Tables, id: string, now: int, p': Payment)
    requires RowsSound(t) && id in t.payments && EvaluatePayment(t, id, now).Ok? && SameTerms(t.payments[id], p')
    requires Agrees(p', EvaluatePayment(t, id, now).value)
    ensures StatusOf(p', now)
  {
    var p, m := t.payments[id], Counted(RowsOf(t, id), t.payments[id].Window());
    RefreshSucceeds(t, id, now);
    TotalMonotone(m, Policy(p.required, TipFor(t, p)), Received);
    TotalZero(m);
    StatusMeaning(m, p.amount, p.required, TipFor(t, p), Some(p.expiresAt), now);
  }

  /** A new version, dated now, with one event, exactly when the status or a total is another; and no other
      payment and no rows are changed. */
  ghost predicate Versioned(t: Tables, u: Tables, id: string, now: int)
    requires id in t.payments && id in u.payments
  {
    var p, p' := t.payments[id], u.payments[id];
    if p'.status == p.status && p'.received == p.received && p'.confirmed == p.confirmed
       && p'.policyConfirmed == p.policyConfirmed then
      u == t
    else
      && p'.version == p.version + 1 && p'.updatedAt == now
      && |u.events| == |t.events| + 1 && t.events <= u.events && Tells(u.events[|t.events|].payload, p')
      && u.payments == t.payments[id := p'] && Keeps(t.deliveries, u.deliveries)
      && u == t.(payments := u.payments, events := u.events, deliveries := u.deliveries)
  }

  /** Whatever was stored before, a refresh stores the totals that the payment's rows come to at the tip, and the
      status that these totals, the amount and the clock give, as a new version if anything is new. */
  lemma RefreshMeaning(t: Tables, id: string, now: int)
    requires RowsSound(t) && LogsSound(t) && id in t.payments
    ensures var u, p := RefreshPayment(t, id, now).tables, t.payments[id];
      && id in u.payments && RefreshPayment(t, id, now).result == Ok(u.payments[id])
      && var p' := u.payments[id];
         && SameTerms(p, p') && TotalsOf(p', RowsOf(t, id), p, JudgingTip(t, p)) && StatusOf(p', now)
         && Versioned(t, u, id, now)
  {
    EvaluatedTotals(t, id, now);
    RefreshStores(t, id, now);
    EvaluatedStatus(t, id, now, RefreshPayment(t, id, now).tables.payments[id]);
    RefreshMakesVersion(t, id, now);
  }

  lemma RefreshMakesVersion(t: Tables, id: string, now: int)
    requires LogsSound(t) && id in t.payments && EvaluatePayment(t, id, now).Ok?
    ensures var u, p, e := RefreshPayment(t, id, now).tables, t.payments[id], EvaluatePayment(t, id, now).value;
      && id in u.payments && RefreshPayment(t, id, now).result == Ok(u.payments[id])
      && var p' := u.payments[id];
         && p'.status == e.status && p'.received == e.received && p'.confirmed == e.confirmed
         && p'.policyConfirmed == e.policyConfirmed
         && Versioned(t, u, id, now)
  {
    var e, p := EvaluatePayment(t, id, now).value, t.payments[id];
    if !Agrees(p, e) {
      var p' := Updated(p, e, now);
      FreshVersion(t, id, p'.version, Became(e.status));
      FreshEventIsAdded(t.(payments := t.payments[id := p']), id, p', Became(e.status), now);
    }
  }
}
