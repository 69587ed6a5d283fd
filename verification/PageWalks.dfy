/**
 Walking a merchant's payments page by page (backend/app/services/payment_gateway_service.py,
 payment_store.py), each page asked for with the cursor the page before answered.
 */
module PageWalks {
  import opened Wrappers
  import opened PaymentState
  import opened PaymentTables
  import opened Creation
  import opened Pagination

  /** A merchant's rows whose keys the gateway accepts as cursors. */
  predicate Presentable(payments: map<string, Payment>, merchantId: string) {
    forall id :: id in payments && payments[id].merchantId == merchantId ==>
      payments[id].createdAt >= 0 && 8 <= |id| <= 96
  }

  function CreatedAtOf(cursor: Option<Key>): Option<int> {
    if cursor.Some? then Some(cursor.value.createdAt) else None
  }

  function IdOf(cursor: Option<Key>): Option<string> {
    if cursor.Some? then Some(cursor.value.id) else None
  }

  /** The next cursor lies below this page's cursor, so fewer rows are left. */
  lemma RowsRunOut(payments: map<string, Payment>, q: Query, limit: int, cursor: Option<Key>)
    requires List(payments, q, limit, CreatedAtOf(cursor), IdOf(cursor)).Ok?
    requires List(payments, q, limit, CreatedAtOf(cursor), IdOf(cursor)).value.hasMore
    ensures var page := List(payments, q, limit, CreatedAtOf(cursor), IdOf(cursor)).value;
      var keys := Keys(payments, q, cursor);
      && page.rows == Listing(keys)[..limit] && 0 < limit < |keys|
      && var next := Listing(keys)[limit - 1];
         && page.nextCreatedAt == Some(next.createdAt) && page.nextPaymentId == Some(next.id)
         && Listing(Keys(payments, q, Some(next))) == Listing(keys)[limit..]
         && |Keys(payments, q, Some(next))| == |keys| - limit
  {
    var keys := Keys(payments, q, cursor);
    var next := Listing(keys)[limit - 1];
    KeysBelow(payments, q, cursor, next);
    RestIsListing(keys, Keys(payments, q, Some(next)), limit);
  }

  lemma KeysBelow(payments: map<string, Payment>, q: Query, cursor: Option<Key>, next: Key)
    requires next in Listing(Keys(payments, q, cursor))
    ensures forall k :: k in Keys(payments, q, Some(next)) <==> k in Keys(payments, q, cursor) && Before(k, next)
  {
    ListingLists(Keys(payments, q, cursor));
    KeyMembers(payments, q, cursor, next);
    forall k
      ensures k in Keys(payments, q, Some(next)) <==> k in Keys(payments, q, cursor) && Before(k, next)
    {
      KeyMembers(payments, q, cursor, k);
      KeyMembers(payments, q, Some(next), k);
      if cursor.Some? && Before(k, next) {
        BeforeTransitive(k, next, cursor.value);
      }
    }
  }

  /** Ask for pages until one says there are no more. Between pages other processes make the steps of
      `gaps`, one group a page, and then fall silent. */
  ghost function Walk(t: Tables, q: Query, limit: int, cursor: Option<Key>, gaps: seq<seq<Step>>)
    : Result<seq<Key>, ListError>
    decreases |gaps|, |Keys(t.payments, q, cursor)|
  {
    match List(t.payments, q, limit, CreatedAtOf(cursor), IdOf(cursor))
    case Err(e) => Err(e)
    case Ok(page) =>
      if !page.hasMore then
        Ok(page.rows)
      else
        RowsRunOut(t.payments, q, limit, cursor);
        var next := Some(Key(page.nextCreatedAt.value, page.nextPaymentId.value));
        var rest := if gaps == [] then Walk(t, q, limit, next, [])
                    else Walk(Run(t, gaps[0]), q, limit, next, gaps[1..]);
        if rest.Err? then rest else Ok(page.rows + rest.value)
  }

  predicate Usable(cursor: Option<Key>) {
    ValidCursor(CreatedAtOf(cursor), IdOf(cursor))
  }

  lemma NextUsable(t: Tables, q: Query, cursor: Option<Key>, n: nat)
    requires Presentable(t.payments, q.merchantId) && 0 < n <= |Keys(t.payments, q, cursor)|
    ensures Usable(Some(Listing(Keys(t.payments, q, cursor))[n - 1]))
  {
    var k := Listing(Keys(t.payments, q, cursor))[n - 1];
    ListingLists(Keys(t.payments, q, cursor));
    assert k in Listing(Keys(t.payments, q, cursor));
    KeyMembers(t.payments, q, cursor, k);
  }

  /** The last row of a full page. */
  ghost function Next(t: Tables, q: Query, limit: nat, cursor: Option<Key>): Key
    requires 0 < limit < |Keys(t.payments, q, cursor)|
  {
    Listing(Keys(t.payments, q, cursor))[limit - 1]
  }

  ghost function Onward(t: Tables, q: Query, limit: nat, next: Key, gaps: seq<seq<Step>>): Result<seq<Key>, ListError> {
    if gaps == [] then Walk(t, q, limit, Some(next), []) else Walk(Run(t, gaps[0]), q, limit, Some(next), gaps[1..])
  }

  /** What a walk does after a page that says there are more. */
  lemma WalksOn(t: Tables, q: Query, limit: int, cursor: Option<Key>, gaps: seq<seq<Step>>, page: Response, next: Key)
    requires List(t.payments, q, limit, CreatedAtOf(cursor), IdOf(cursor)) == Ok(page) && page.hasMore
    requires page.nextCreatedAt == Some(next.createdAt) && page.nextPaymentId == Some(next.id) && limit >= 0
    ensures Onward(t, q, limit, next, gaps).Ok? ==>
              Walk(t, q, limit, cursor, gaps) == Ok(page.rows + Onward(t, q, limit, next, gaps).value)
  {
  }

  lemma FirstPage(t: Tables, q: Query, limit: int, cursor: Option<Key>, gaps: seq<seq<Step>>)
    requires 1 <= limit <= 100 && Usable(cursor) && |Keys(t.payments, q, cursor)| > limit
    ensures var keys, next := Keys(t.payments, q, cursor), Next(t, q, limit, cursor);
      && Listing(Keys(t.payments, q, Some(next))) == Listing(keys)[limit..]
      && |Keys(t.payments, q, Some(next))| < |keys|
      && (Onward(t, q, limit, next, gaps).Ok? ==>
            Walk(t, q, limit, cursor, gaps) == Ok(Listing(keys)[..limit] + Onward(t, q, limit, next, gaps).value))
  {
    RowsRunOut(t.payments, q, limit, cursor);
    WalksOn(t, q, limit, cursor, gaps, List(t.payments, q, limit, CreatedAtOf(cursor), IdOf(cursor)).value,
            Next(t, q, limit, cursor));
  }

  lemma OnlyPage(t: Tables, q: Query, limit: int, cursor: Option<Key>, gaps: seq<seq<Step>>)
    requires 1 <= limit <= 100 && Usable(cursor) && |Keys(t.payments, q, cursor)| <= limit
    ensures Walk(t, q, limit, cursor, gaps) == Ok(Listing(Keys(t.payments, q, cursor)))
  {
  }

  lemma Rejoin(all: seq<Key>, n: nat, rest: seq<Key>)
    requires n <= |all| && rest == all[n..]
    ensures all[..n] + rest == all
  {
  }

  /** With nobody writing, the pages are the merchant's whole list in order, whatever the filters. */
  lemma {:induction false} PagesConcatenate(t: Tables, q: Query, limit: int, cursor: Option<Key>)
    requires Presentable(t.payments, q.merchantId) && 1 <= limit <= 100 && Usable(cursor)
    ensures Walk(t, q, limit, cursor, []) == Ok(Listing(Keys(t.payments, q, cursor)))
    decreases |Keys(t.payments, q, cursor)|
  {
    var keys := Keys(t.payments, q, cursor);
    if |keys| > limit {
      var next := Next(t, q, limit, cursor);
      FirstPage(t, q, limit, cursor, []);
      NextUsable(t, q, cursor, limit);
      PagesConcatenate(t, q, limit, Some(next));
      Rejoin(Listing(keys), limit, Onward(t, q, limit, next, []).value);
    } else {
      OnlyPage(t, q, limit, cursor, []);
    }
  }

  // ---------- While others write ----------

  ghost function After(t: Tables, gaps: seq<seq<Step>>): Tables
    decreases |gaps|
  {
    if gaps == [] then t else After(Run(t, gaps[0]), gaps[1..])
  }

  lemma {:induction false} AfterPersists(t: Tables, gaps: seq<seq<Step>>)
    ensures forall id :: id in t.payments ==>
              id in After(t, gaps).payments && SameTerms(t.payments[id], After(t, gaps).payments[id])
    decreases |gaps|
  {
    if gaps != [] {
      RunPersists(t, gaps[0]);
      AfterPersists(Run(t, gaps[0]), gaps[1..]);
    }
  }

  /** Without a status filter a row once listed stays listed. */
  lemma KeysPersist(payments: map<string, Payment>, payments': map<string, Payment>, q: Query, cursor: Option<Key>)
    requires q.status.None?
    requires forall id :: id in payments ==> id in payments' && SameTerms(payments[id], payments'[id])
    ensures Keys(payments, q, cursor) <= Keys(payments', q, cursor)
  {
    forall k | k in Keys(payments, q, cursor)
      ensures k in Keys(payments', q, cursor)
    {
      KeyMembers(payments, q, cursor, k);
      KeyMembers(payments', q, cursor, k);
      assert SameTerms(payments[k.id], payments'[k.id]);
    }
  }

  /** What a walk must deliver: each row once, newest first, all below the cursor; every row of the merchant
      present when the walk began; and only rows of the merchant. */
  ghost predicate Complete(walked: seq<Key>, cursor: Option<Key>, first: set<Key>, last: set<Key>) {
    && Descending(walked)
    && (cursor.Some? ==> forall k :: k in walked ==> Before(k, cursor.value))
    && (forall k :: k in first ==> k in walked)
    && (forall k :: k in walked ==> k in last)
  }

  lemma OnePageComplete(keys: set<Key>, payments: map<string, Payment>, q: Query, cursor: Option<Key>, last: set<Key>)
    requires keys == Keys(payments, q, cursor) && keys <= last
    ensures Complete(Listing(keys), cursor, keys, last)
  {
    ListingLists(keys);
    forall k | k in Listing(keys) && cursor.Some?
      ensures Before(k, cursor.value)
    {
      KeyMembers(payments, q, cursor, k);
    }
  }

  /** A page joined to a complete walk below it is complete. */
  lemma JoinPages(all: seq<Key>, n: nat, rest: seq<Key>, cursor: Option<Key>, below: set<Key>, last: set<Key>,
                  keys: set<Key>)
    requires Complete(all, cursor, keys, last) && (forall k :: k in all ==> k in keys) && 0 < n <= |all|
    requires Complete(rest, Some(all[n - 1]), below, last) && (forall k :: k in all[n..] ==> k in below)
    ensures Complete(all[..n] + rest, cursor, keys, last)
  {
    var walked := all[..n] + rest;
    forall i, j | 0 <= i < j < |walked|
      ensures Before(walked[j], walked[i])
    {
      if j >= n {
        assert walked[j] == rest[j - n] && rest[j - n] in rest;
        if i < n - 1 {
          BeforeTransitive(walked[j], all[n - 1], all[i]);
        } else if i >= n {
          assert walked[i] == rest[i - n];
        }
      }
    }
    forall k | k in walked && cursor.Some?
      ensures Before(k, cursor.value)
    {
      if k in rest {
        assert all[n - 1] in all;
        BeforeTransitive(k, all[n - 1], cursor.value);
      } else {
        assert k in all[..n];
      }
    }
    forall k | k in keys
      ensures k in walked
    {
      var i :| 0 <= i < |all| && all[i] == k;
      if i >= n {
        assert all[n..][i - n] == k;
      } else {
        assert walked[i] == k;
      }
    }
    forall k | k in walked
      ensures k in last
    {
      assert k in all[..n] || k in rest;
    }
  }

  /** While other processes write whatever they like between pages, a walk without a status filter ends,
      repeats no payment, misses none that was there when it began, and shows only the merchant's own. */
  lemma {:induction false} WalkMissesNothing(t: Tables, q: Query, limit: int, cursor: Option<Key>, gaps: seq<seq<Step>>)
    requires q.status.None? && 1 <= limit <= 100 && Usable(cursor)
    requires Presentable(After(t, gaps).payments, q.merchantId)
    ensures var r := Walk(t, q, limit, cursor, gaps);
      r.Ok? && Complete(r.value, cursor, Keys(t.payments, q, cursor), Keys(After(t, gaps).payments, q, None))
    decreases |gaps|, |Keys(t.payments, q, cursor)|
  {
    StartsInside(t, q, cursor, gaps);
    if |Keys(t.payments, q, cursor)| <= limit {
      OnlyPage(t, q, limit, cursor, gaps);
      OnePageComplete(Keys(t.payments, q, cursor), t.payments, q, cursor, Keys(After(t, gaps).payments, q, None));
    } else {
      var next := Next(t, q, limit, cursor);
      FirstPage(t, q, limit, cursor, gaps);
      NextUsable(t, q, cursor, limit);
      if gaps == [] {
        WalkMissesNothing(t, q, limit, Some(next), []);
      } else {
        WalkMissesNothing(Run(t, gaps[0]), q, limit, Some(next), gaps[1..]);
        RunPersists(t, gaps[0]);
        KeysPersist(t.payments, Run(t, gaps[0]).payments, q, Some(next));
      }
      JoinWalk(t, q, limit, cursor, gaps, Onward(t, q, limit, next, gaps).value);
    }
  }

  lemma JoinWalk(t: Tables, q: Query, limit: int, cursor: Option<Key>, gaps: seq<seq<Step>>, rest: seq<Key>)
    requires 1 <= limit < |Keys(t.payments, q, cursor)|
    requires Keys(t.payments, q, cursor) <= Keys(After(t, gaps).payments, q, None)
    requires var next := Next(t, q, limit, cursor);
      && Listing(Keys(t.payments, q, Some(next))) == Listing(Keys(t.payments, q, cursor))[limit..]
      && Complete(rest, Some(next), Keys(t.payments, q, Some(next)), Keys(After(t, gaps).payments, q, None))
    ensures Complete(Listing(Keys(t.payments, q, cursor))[..limit] + rest, cursor, Keys(t.payments, q, cursor),
                     Keys(After(t, gaps).payments, q, None))
  {
    var keys, below := Keys(t.payments, q, cursor), Keys(t.payments, q, Some(Next(t, q, limit, cursor)));
    var last := Keys(After(t, gaps).payments, q, None);
    OnePageComplete(keys, t.payments, q, cursor, last);
    ListingLists(keys);
    ListingLists(below);
    JoinPages(Listing(keys), limit, rest, cursor, below, last, keys);
  }

  lemma StartsInside(t: Tables, q: Query, cursor: Option<Key>, gaps: seq<seq<Step>>)
    requires q.status.None? && Presentable(After(t, gaps).payments, q.merchantId)
    ensures Keys(t.payments, q, cursor) <= Keys(After(t, gaps).payments, q, None)
    ensures Presentable(t.payments, q.merchantId)
  {
    AfterPersists(t, gaps);
    KeysPersist(t.payments, After(t, gaps).payments, q, None);
    forall k | k in Keys(t.payments, q, cursor)
      ensures k in Keys(t.payments, q, None)
    {
      KeyMembers(t.payments, q, cursor, k);
      KeyMembers(t.payments, q, None, k);
    }
    forall id | id in t.payments && t.payments[id].merchantId == q.merchantId
      ensures t.payments[id].createdAt >= 0 && 8 <= |id| <= 96
    {
      assert SameTerms(t.payments[id], After(t, gaps).payments[id]);
    }
  }
}
