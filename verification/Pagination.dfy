/**
 Keyset pagination of a merchant's payments (backend/app/services/payment_store.py,
 payment_gateway_service.py): pages in strictly descending (created_at, payment_id) order, each one
 continuing below the last row of the one before, while other processes go on writing.
 */
module Pagination {
  import opened Text
  import opened Wrappers
  import opened PaymentState
  import opened PaymentTables
  import opened Creation

  // ---------- The order of rows ----------

  datatype Key = Key(createdAt: int, id: string)

  /** Strings compare character by character, a prefix before its extensions. */
  predicate Less(a: string, b: string) {
    b != "" && (a == "" || a[0] < b[0] || (a[0] == b[0] && Less(a[1..], b[1..])))
  }

  predicate Before(a: Key, b: Key) {
    a.createdAt < b.createdAt || (a.createdAt == b.createdAt && Less(a.id, b.id))
  }

  lemma {:induction false} LessIsTotal(a: string, b: string)
    ensures !Less(a, a)
    ensures !(Less(a, b) && Less(b, a))
    ensures Less(a, b) || a == b || Less(b, a)
    decreases |a|
  {
    if a != "" {
      LessIsTotal(a[1..], if b != "" then b[1..] else "");
      if b != "" && a[0] == b[0] && a[1..] == b[1..] {
        assert a == [a[0]] + a[1..] && b == [b[0]] + b[1..];
      }
    }
  }

  lemma {:induction false} LessTransitive(a: string, b: string, c: string)
    requires Less(a, b) && Less(b, c)
    ensures Less(a, c)
    decreases |a|
  {
    if a != "" && a[0] == b[0] && b[0] == c[0] {
      LessTransitive(a[1..], b[1..], c[1..]);
    }
  }

  lemma BeforeIsTotal(a: Key, b: Key)
    ensures !Before(a, a)
    ensures !(Before(a, b) && Before(b, a))
    ensures Before(a, b) || a == b || Before(b, a)
  {
    LessIsTotal(a.id, b.id);
    LessIsTotal(a.id, a.id);
  }

  lemma BeforeTransitive(a: Key, b: Key, c: Key)
    requires Before(a, b) && Before(b, c)
    ensures Before(a, c)
  {
    if a.createdAt == b.createdAt == c.createdAt {
      LessTransitive(a.id, b.id, c.id);
    }
  }

  ghost predicate Descending(s: seq<Key>) {
    forall i, j :: 0 <= i < j < |s| ==> Before(s[j], s[i])
  }

  /** `s` lists exactly `keys`, newest first. */
  ghost predicate Lists(s: seq<Key>, keys: set<Key>) {
    Descending(s) && forall k :: k in s <==> k in keys
  }

  ghost predicate IsLast(k: Key, keys: set<Key>) {
    k in keys && forall o :: o in keys && o != k ==> Before(o, k)
  }

  lemma {:induction false} LastExists(keys: set<Key>)
    requires keys != {}
    ensures exists k :: IsLast(k, keys)
    decreases keys
  {
    var k :| k in keys;
    var rest := keys - {k};
    if rest == {} {
      assert keys == {k} && IsLast(k, keys);
    } else {
      LastExists(rest);
      var last :| IsLast(last, rest);
      BeforeIsTotal(k, last);
      if Before(k, last) {
        assert IsLast(last, keys);
      } else {
        LastOfMore(k, last, rest);
        assert keys == rest + {k};
      }
    }
  }

  lemma LastOfMore(k: Key, last: Key, rest: set<Key>)
    requires IsLast(last, rest) && Before(last, k)
    ensures IsLast(k, rest + {k})
  {
    forall o | o in rest && o != k
      ensures Before(o, k)
    {
      if o != last {
        BeforeTransitive(o, last, k);
      }
    }
  }

  /** The rows of a query in their order. */
  ghost function Listing(keys: set<Key>): (s: seq<Key>)
    ensures |s| == |keys|
  {
    if keys == {} then
      []
    else
      LastExists(keys);
      var last :| IsLast(last, keys);
      [last] + Listing(keys - {last})
  }

  lemma ConsLists(last: Key, tail: seq<Key>, keys: set<Key>)
    requires IsLast(last, keys) && Lists(tail, keys - {last})
    ensures Lists([last] + tail, keys)
  {
    var s := [last] + tail;
    forall i, j | 0 <= i < j < |s|
      ensures Before(s[j], s[i])
    {
      assert s[j] == tail[j - 1] && tail[j - 1] in tail;
      assert i > 0 ==> s[i] == tail[i - 1];
    }
    forall k
      ensures k in s <==> k in keys
    {
      assert k in s <==> k == last || k in tail;
    }
  }

  lemma {:induction false} ListingLists(keys: set<Key>)
    ensures Lists(Listing(keys), keys)
    decreases keys
  {
    if keys != {} {
      LastExists(keys);
      var last :| IsLast(last, keys) && Listing(keys) == [last] + Listing(keys - {last});
      ListingLists(keys - {last});
      ConsLists(last, Listing(keys - {last}), keys);
    }
  }

  /** Only one sequence lists a set. */
  lemma {:induction false} ListsOnce(a: seq<Key>, b: seq<Key>, keys: set<Key>)
    requires Lists(a, keys) && Lists(b, keys)
    ensures a == b
    decreases |a|
  {
    EmptyLists(a, keys);
    EmptyLists(b, keys);
    if a != [] {
      assert a[0] in a && a[0] in b && b[0] in b && b[0] in a;
      SameHead(a, b, keys);
      TailLists(a, keys);
      TailLists(b, keys);
      ListsOnce(a[1..], b[1..], keys - {a[0]});
      assert a == [a[0]] + a[1..] && b == [b[0]] + b[1..];
    }
  }

  lemma EmptyLists(s: seq<Key>, keys: set<Key>)
    requires Lists(s, keys)
    ensures s == [] <==> keys == {}
  {
    if s != [] {
      assert s[0] in s;
    }
  }

  lemma SameHead(a: seq<Key>, b: seq<Key>, keys: set<Key>)
    requires Lists(a, keys) && Lists(b, keys) && a != [] && b != []
    requires a[0] in b && b[0] in a
    ensures a[0] == b[0]
  {
    BeforeIsTotal(a[0], b[0]);
  }

  lemma TailLists(s: seq<Key>, keys: set<Key>)
    requires Lists(s, keys) && s != []
    ensures Lists(s[1..], keys - {s[0]})
  {
    BeforeIsTotal(s[0], s[0]);
    forall k
      ensures k in s[1..] <==> k in keys - {s[0]}
    {
      if k in s[1..] {
        var i :| 0 <= i < |s[1..]| && s[1..][i] == k;
        assert s[i + 1] == k;
        assert Before(s[i + 1], s[0]);
      }
    }
  }

  /** The listing below row `n - 1` is the rest of the listing. */
  lemma RestIsListing(keys: set<Key>, below: set<Key>, n: nat)
    requires 0 < n <= |keys|
    requires forall k :: k in below <==> k in keys && Before(k, Listing(keys)[n - 1])
    ensures Listing(below) == Listing(keys)[n..]
  {
    var s := Listing(keys);
    ListingLists(keys);
    ListingLists(below);
    forall k
      ensures k in s[n..] <==> k in below
    {
      InRest(s, keys, n, k);
    }
    ListsOnce(Listing(below), s[n..], below);
  }

  lemma InRest(s: seq<Key>, keys: set<Key>, n: nat, k: Key)
    requires Lists(s, keys) && 0 < n <= |s|
    ensures k in s[n..] <==> k in keys && Before(k, s[n - 1])
  {
    if k in s[n..] {
      var i :| 0 <= i < |s[n..]| && s[n..][i] == k;
      assert s[i + n] == k;
    }
    if k in keys && Before(k, s[n - 1]) {
      assert k in s;
      var i :| 0 <= i < |s| && s[i] == k;
      BeforeIsTotal(k, s[n - 1]);
      if i >= n {
        assert s[n..][i - n] == k;
      }
    }
  }

  /** The strings are the same up to `n`, where the first ends or has the lower character. */
  predicate Parts(a: string, b: string, n: nat) {
    n <= |a| && n < |b| && a[..n] == b[..n] && (n == |a| || a[n] < b[n])
  }

  /** One string is before another when it is a proper prefix of it or has the lower character where they first
      differ. */
  lemma LessMeaning(a: string, b: string)
    ensures Less(a, b) <==> exists n: nat :: Parts(a, b, n)
  {
    if Less(a, b) {
      var n := LessParts(a, b);
    }
    if n: nat :| Parts(a, b, n) {
      PartsIsLess(a, b, n);
    }
  }

  lemma {:induction false} LessParts(a: string, b: string) returns (n: nat)
    requires Less(a, b)
    ensures Parts(a, b, n)
    decreases |a|
  {
    if a == "" || a[0] < b[0] {
      n := 0;
    } else {
      var m := LessParts(a[1..], b[1..]);
      n := m + 1;
      assert a[..n] == [a[0]] + a[1..][..m] && b[..n] == [b[0]] + b[1..][..m];
    }
  }

  lemma {:induction false} PartsIsLess(a: string, b: string, n: nat)
    requires Parts(a, b, n)
    ensures Less(a, b)
    decreases n
  {
    if n > 0 {
      assert a[..n][0] == a[0] && b[..n][0] == b[0];
      assert a[1..][..n - 1] == a[..n][1..] && b[1..][..n - 1] == b[..n][1..];
      PartsIsLess(a[1..], b[1..], n - 1);
    }
  }

  /** Rows come newest first and, of one second, in falling order of their ids. */
  lemma ListingOrder(keys: set<Key>, i: nat, j: nat)
    requires i < j < |Listing(keys)|
    ensures var a, b := Listing(keys)[i], Listing(keys)[j];
      && a.createdAt >= b.createdAt
      && (a.createdAt == b.createdAt ==> exists n: nat :: Parts(b.id, a.id, n))
  {
    ListingLists(keys);
    LessMeaning(Listing(keys)[j].id, Listing(keys)[i].id);
  }

  // ---------- Queries ----------

  datatype Query = Query(merchantId: string, status: Option<Status>, reference: Option<string>)
  {
    predicate Matches(p: Payment) {
      && p.merchantId == merchantId
      && (status.Some? ==> p.status == status.value)
      && (reference.Some? ==> p.reference == reference)
    }
  }

  function Keys(payments: map<string, Payment>, q: Query, cursor: Option<Key>): set<Key> {
    set id | id in payments && q.Matches(payments[id])
             && (cursor.Some? ==> Before(Key(payments[id].createdAt, id), cursor.value))
      :: Key(payments[id].createdAt, id)
  }

  /** A query's rows are the merchant's payments with the status and the reference asked for, if any, that come
      after the cursor, if any. */
  lemma KeyMembers(payments: map<string, Payment>, q: Query, cursor: Option<Key>, k: Key)
    ensures k in Keys(payments, q, cursor) <==>
              && k.id in payments && payments[k.id].createdAt == k.createdAt
              && payments[k.id].merchantId == q.merchantId
              && (q.status == None || q.status == Some(payments[k.id].status))
              && (q.reference == None || payments[k.id].reference == q.reference)
              && (cursor.Some? ==> Before(k, cursor.value))
  {
    if k.id in payments && payments[k.id].createdAt == k.createdAt {
      assert k == Key(payments[k.id].createdAt, k.id);
    }
  }

  function Bounded(limit: int): (n: nat)
    ensures 1 <= n <= 100 && (1 <= limit <= 100 ==> n == limit)
  {
    if limit < 1 then 1 else if limit > 100 then 100 else limit
  }

  ghost function Page(payments: map<string, Payment>, q: Query, limit: int, cursor: Option<Key>): (seq<Key>, bool) {
    var all, n := Listing(Keys(payments, q, cursor)), Bounded(limit);
    (if |all| > n then all[..n] else all, |all| > n)
  }

  method LastKey(keys: set<Key>) returns (last: Key)
    requires keys != {}
    ensures IsLast(last, keys)
  {
    last :| last in keys;
    var rest := keys - {last};
    while rest != {}
      invariant last in keys && rest <= keys
      invariant forall o :: o in keys - rest && o != last ==> Before(o, last)
      decreases rest
    {
      var k :| k in rest;
      BeforeIsTotal(k, last);
      if Before(last, k) {
        forall o | o in keys - rest && o != k
          ensures Before(o, k)
        {
          if o != last {
            BeforeTransitive(o, last, k);
          }
        }
        last := k;
      }
      rest := rest - {k};
    }
  }

  /** The first rows of a query, taken one by one in its order. */
  method FirstRows(keys: set<Key>, n: nat) returns (rows: seq<Key>)
    ensures rows == if |Listing(keys)| > n then Listing(keys)[..n] else Listing(keys)
  {
    var left := keys;
    rows := [];
    while left != {} && |rows| < n
      invariant |rows| <= n && Listing(keys) == rows + Listing(left)
      decreases left
    {
      var last := LastKey(left);
      HeadIsLast(left, last);
      assert rows + ([last] + Listing(left - {last})) == rows + [last] + Listing(left - {last});
      rows, left := rows + [last], left - {last};
    }
  }

  /** One more row than asked for is read, to see whether there are more. */
  method ListPayments(payments: map<string, Payment>, q: Query, limit: int, cursor: Option<Key>)
    returns (rows: seq<Key>, hasMore: bool)
    ensures (rows, hasMore) == Page(payments, q, limit, cursor)
  {
    var n := Bounded(limit);
    rows := FirstRows(Keys(payments, q, cursor), n + 1);
    hasMore := |rows| > n;
    if hasMore {
      assert rows[..n] == Listing(Keys(payments, q, cursor))[..n];
      rows := rows[..n];
    }
  }

  lemma HeadIsLast(keys: set<Key>, last: Key)
    requires IsLast(last, keys)
    ensures Listing(keys) == [last] + Listing(keys - {last})
  {
    ListingLists(keys);
    ListingLists(keys - {last});
    ConsLists(last, Listing(keys - {last}), keys);
    ListsOnce(Listing(keys), [last] + Listing(keys - {last}), keys);
  }

  // ---------- The gateway ----------

  datatype Response = Response(rows: seq<Key>, hasMore: bool, nextCreatedAt: Option<int>, nextPaymentId: Option<string>)

  datatype ListError = MalformedReference | UnsupportedStatus | InvalidLimit | InvalidCursor

  predicate ValidCursor(createdAt: Option<int>, id: Option<string>) {
    && createdAt.Some? == id.Some?
    && (createdAt.Some? ==> createdAt.value >= 0)
    && (id.Some? ==> 8 <= |id.value| <= 96)
  }

  function CursorOf(createdAt: Option<int>, id: Option<string>): Option<Key> {
    if createdAt.Some? && id.Some? then Some(Key(createdAt.value, id.value)) else None
  }

  ghost function List(payments: map<string, Payment>, q: Query, limit: int, createdAt: Option<int>, id: Option<string>)
    : Result<Response, ListError>
  {
    if limit < 1 || limit > 100 then Err(InvalidLimit)
    else if !ValidCursor(createdAt, id) then Err(InvalidCursor)
    else
      var (rows, hasMore) := Page(payments, q, limit, CursorOf(createdAt, id));
      var next := if hasMore && rows != [] then Some(rows[|rows| - 1]) else None;
      Ok(Response(rows, hasMore, if next.Some? then Some(next.value.createdAt) else None,
                  if next.Some? then Some(next.value.id) else None))
  }

  /** The statuses a list may be filtered by, by name. */
  function StatusNamed(name: string): Option<Status> {
    match name
    case "waiting" => Some(Waiting)
    case "partial" => Some(Partial)
    case "paid_unconfirmed" => Some(PaidUnconfirmed)
    case "paid_confirmed" => Some(PaidConfirmed)
    case "overpaid" => Some(Overpaid)
    case "expired" => Some(Expired)
    case _ => None
  }

  /** Each name is its status's own; any other name is refused. Only the status that no evaluation gives has none. */
  lemma StatusNames(name: string)
    ensures StatusNamed(name) == Some(Waiting) <==> name == "waiting"
    ensures StatusNamed(name) == Some(Partial) <==> name == "partial"
    ensures StatusNamed(name) == Some(PaidUnconfirmed) <==> name == "paid_unconfirmed"
    ensures StatusNamed(name) == Some(PaidConfirmed) <==> name == "paid_confirmed"
    ensures StatusNamed(name) == Some(Overpaid) <==> name == "overpaid"
    ensures StatusNamed(name) == Some(Expired) <==> name == "expired"
    ensures StatusNamed(name) != Some(SeenInMempool)
  {
  }

  /** The call as the gateway gets it: reference and status are checked before the rest. */
  ghost function ListNamed(payments: map<string, Payment>, merchantId: string, status: Option<string>,
                           reference: Option<string>, limit: int, createdAt: Option<int>, id: Option<string>)
    : Result<Response, ListError>
  {
    if reference.Some? && !ValidReference(reference.value) then Err(MalformedReference)
    else if status.Some? && StatusNamed(status.value).None? then Err(UnsupportedStatus)
    else
      List(payments, Query(merchantId, if status.Some? then StatusNamed(status.value) else None, reference), limit,
           createdAt, id)
  }

  /** What the call answers to a query: an error for a limit outside 1 to 100, then for a cursor that is half given,
      negative or of an improper id; or else the first rows of the query, and the last of them as the next cursor
      exactly when there are more. */
  lemma ListAnswers(payments: map<string, Payment>, q: Query, limit: int, createdAt: Option<int>, id: Option<string>)
    ensures var r := List(payments, q, limit, createdAt, id);
      if limit <= 0 || limit >= 101 then r == Err(InvalidLimit)
      else if (createdAt == None) != (id == None) || (createdAt.Some? && createdAt.value < 0)
              || (id.Some? && (|id.value| <= 7 || |id.value| >= 97)) then r == Err(InvalidCursor)
      else
        var all := Listing(Keys(payments, q, if id.Some? then Some(Key(createdAt.value, id.value)) else None));
        r.Ok? && IsPage(r.value, all, limit)
  {
  }

  /** A malformed reference is refused first, then an unknown status. */
  lemma NamedRefuses(payments: map<string, Payment>, merchantId: string, status: Option<string>,
                     reference: Option<string>, limit: int, createdAt: Option<int>, id: Option<string>)
    ensures var r := ListNamed(payments, merchantId, status, reference, limit, createdAt, id);
      && (reference.Some? && !ValidReference(reference.value) ==> r == Err(MalformedReference))
      && ((reference.Some? ==> ValidReference(reference.value)) && status.Some? && StatusNamed(status.value) == None ==>
            r == Err(UnsupportedStatus))
      && ((reference.Some? ==> ValidReference(reference.value)) && (status.Some? ==> StatusNamed(status.value).Some?) ==>
            r == List(payments, Query(merchantId, if status.Some? then StatusNamed(status.value) else None, reference), limit,
                      createdAt, id))
  {
  }

  ghost predicate IsPage(page: Response, all: seq<Key>, limit: nat)
    requires limit > 0
  {
    if |all| <= limit then
      page.rows == all && !page.hasMore && page.nextCreatedAt == None && page.nextPaymentId == None
    else
      && page.rows == all[..limit] && page.hasMore
      && page.nextCreatedAt == Some(all[limit - 1].createdAt) && page.nextPaymentId == Some(all[limit - 1].id)
  }

  method ListPersistedPayments(payments: map<string, Payment>, merchantId: string, status: Option<string>,
                               reference: Option<string>, limit: int, createdAt: Option<int>, id: Option<string>)
    returns (r: Result<Response, ListError>)
    ensures r == ListNamed(payments, merchantId, status, reference, limit, createdAt, id)
  {
    if reference.Some? && !ValidReference(reference.value) {
      return Err(MalformedReference);
    }
    var wanted: Option<Status> := None;
    if status.Some? {
      wanted := StatusNamed(status.value);
      if wanted.None? {
        return Err(UnsupportedStatus);
      }
    }
    if limit < 1 || limit > 100 {
      return Err(InvalidLimit);
    }
    if createdAt.None? != id.None? {
      return Err(InvalidCursor);
    }
    if createdAt.Some? && createdAt.value < 0 {
      return Err(InvalidCursor);
    }
    if id.Some? && (|id.value| < 8 || |id.value| > 96) {
      return Err(InvalidCursor);
    }
    var rows, hasMore := ListPayments(payments, Query(merchantId, wanted, reference), limit, CursorOf(createdAt, id));
    var nextCreatedAt: Option<int>, nextPaymentId: Option<string> := None, None;
    if hasMore && rows != [] {
      nextCreatedAt, nextPaymentId := Some(rows[|rows| - 1].createdAt), Some(rows[|rows| - 1].id);
    }
    return Ok(Response(rows, hasMore, nextCreatedAt, nextPaymentId));
  }
}
