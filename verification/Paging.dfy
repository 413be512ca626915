/**
 * Keyset pagination: what a client gets that follows the cursors to the end, for handlers that take
 * the cursor from the last row they return and for handlers that take it one row too far.
 */
module Paging {
  import opened Prelude

  datatype Row = Row(created: int, id: int)

  type Order = (Row, Row) -> bool

  ghost predicate Total(lt: Order) {
    && (forall a :: !lt(a, a))
    && (forall a, b, c :: lt(a, b) && lt(b, c) ==> lt(a, c))
    && (forall a, b :: a != b ==> lt(a, b) || lt(b, a))
  }

  /** Newest first, ties on the time broken by id. */
  const NEWEST: Order := (a: Row, b: Row) => a.created > b.created || (a.created == b.created && a.id > b.id)

  lemma NewestIsTotal()
    ensures Total(NEWEST)
  {
  }

  // ---- The query ----

  ghost predicate First(s: set<Row>, lt: Order, m: Row) {
    m in s && forall x :: x in s && x != m ==> lt(m, x)
  }

  lemma {:induction false} FirstExists(s: set<Row>, lt: Order)
    requires s != {} && Total(lt)
    ensures exists m :: First(s, lt, m)
    decreases |s|
  {
    var x :| x in s;
    if s - {x} == {} {
      assert s == {x};
      assert First(s, lt, x);
    } else {
      FirstExists(s - {x}, lt);
      var m :| First(s - {x}, lt, m);
      assert First(s, lt, if lt(m, x) then m else x);
    }
  }

  ghost predicate StrictlySorted(s: seq<Row>, lt: Order) {
    forall i, j :: 0 <= i < j < |s| ==> lt(s[i], s[j])
  }

  ghost function OrderBy(s: set<Row>, lt: Order): (sorted: seq<Row>)
    requires Total(lt)
    ensures StrictlySorted(sorted, lt) && Elements(sorted) == s && |sorted| == |s|
    decreases |s|
  {
    if s == {} then []
    else
      FirstExists(s, lt);
      var m :| First(s, lt, m);
      var rest := OrderBy(s - {m}, lt);
      FirstThenRest(s, lt, m, rest);
      [m] + rest
  }

  lemma FirstThenRest(s: set<Row>, lt: Order, m: Row, rest: seq<Row>)
    requires First(s, lt, m) && StrictlySorted(rest, lt) && Elements(rest) == s - {m} && |rest| == |s| - 1
    ensures StrictlySorted([m] + rest, lt) && Elements([m] + rest) == s && |[m] + rest| == |s|
  {
    assert forall i :: 0 <= i < |rest| ==> rest[i] in Elements(rest);
    assert Elements([m] + rest) == {m} + Elements(rest);
  }

  /** The rows strictly after the cursor. */
  ghost function After(table: set<Row>, lt: Order, cursor: Option<Row>): set<Row> {
    set r | r in table && (cursor.Some? ==> lt(cursor.value, r))
  }

  ghost function Take<T>(s: seq<T>, n: nat): seq<T> {
    if |s| <= n then s else s[..n]
  }

  /** A page query: filter, order, and one row more than the page. */
  ghost predicate Queried(table: set<Row>, lt: Order, cursor: Option<Row>, limit: nat, rows: seq<Row>) {
    Total(lt) && rows == Take(OrderBy(After(table, lt, cursor), lt), limit + 1)
  }

  // ---- The handlers ----

  /** How a handler takes its cursor: event log, commit list, or before slicing off the extra row. */
  datatype Handler = Events | Commits | Early

  datatype Page = Page(items: seq<Row>, next: Option<Row>)

  /** What a handler makes of its query's rows; a negative limit or a missing last row is an error. */
  ghost function Cut(h: Handler, rows: seq<Row>, limit: int): Result<Page> {
    if limit < 0 then Err
    else if |rows| != limit + 1 then Ok(Page(rows, None))
    else
      match h
      case Events => Ok(Page(rows[..limit], Some(if limit == 0 then rows[0] else rows[limit - 1])))
      case Commits => if limit == 0 then Err else Ok(Page(rows[..limit], Some(rows[limit - 1])))
      case Early => Ok(Page(rows[..limit], Some(rows[limit])))
  }

  /** The page a request gets that comes with this cursor. */
  ghost function PageAfter(h: Handler, table: set<Row>, lt: Order, cursor: Option<Row>, limit: nat)
    : (page: Result<Page>)
    requires Total(lt)
    ensures page.Ok? && page.value.next.Some? ==>
      |After(table, lt, page.value.next)| < |After(table, lt, cursor)|
  {
    var rows := Take(OrderBy(After(table, lt, cursor), lt), limit + 1);
    CursorShrinks(h, table, lt, cursor, limit, rows);
    Cut(h, rows, limit)
  }

  lemma CursorShrinks(h: Handler, table: set<Row>, lt: Order, cursor: Option<Row>, limit: nat, rows: seq<Row>)
    requires Total(lt) && rows == Take(OrderBy(After(table, lt, cursor), lt), limit + 1)
    ensures var page := Cut(h, rows, limit);
      page.Ok? && page.value.next.Some? ==> |After(table, lt, page.value.next)| < |After(table, lt, cursor)|
  {
    hide Total, After, OrderBy, Elements, StrictlySorted;
    var page := Cut(h, rows, limit);
    if page.Ok? && page.value.next.Some? {
      NextIsSmaller(table, lt, cursor, page.value.next.value);
    }
  }

  /** Follow the cursors until a page has none. */
  ghost function Collect(h: Handler, table: set<Row>, lt: Order, cursor: Option<Row>, limit: int): Result<seq<Row>>
    requires Total(lt)
    decreases |After(table, lt, cursor)|
  {
    if limit < 0 then Err
    else
      var page := PageAfter(h, table, lt, cursor, limit);
      if page.Err? then Err
      else if page.value.next.None? then Ok(page.value.items)
      else
        var rest := Collect(h, table, lt, page.value.next, limit);
        if rest.Err? then Err else Ok(page.value.items + rest.value)
  }

  lemma NextIsSmaller(table: set<Row>, lt: Order, cursor: Option<Row>, next: Row)
    requires Total(lt) && next in OrderBy(After(table, lt, cursor), lt)
    ensures |After(table, lt, Some(next))| < |After(table, lt, cursor)|
  {
    var before, after := After(table, lt, cursor), After(table, lt, Some(next));
    assert next in Elements(OrderBy(before, lt));
    assert after <= before - {next};
    SubsetCardinality(after, before - {next});
  }

  lemma EmptyElements(s: seq<Row>)
    ensures s == [] <==> Elements(s) == {}
  {
    if s != [] { assert s[0] in Elements(s); }
  }

  lemma {:induction false} SortedIsUnique(a: seq<Row>, b: seq<Row>, lt: Order)
    requires Total(lt) && StrictlySorted(a, lt) && StrictlySorted(b, lt) && Elements(a) == Elements(b)
    ensures a == b
    decreases |a|
  {
    EmptyElements(a);
    EmptyElements(b);
    if a != [] {
      assert a[0] in Elements(a);
      assert b[0] in Elements(b);
      assert a[0] == b[0];
      TailElements(a, lt);
      TailElements(b, lt);
      SortedIsUnique(a[1..], b[1..], lt);
    }
  }

  lemma TailElements(s: seq<Row>, lt: Order)
    requires Total(lt) && StrictlySorted(s, lt) && s != []
    ensures Elements(s[1..]) == Elements(s) - {s[0]} && StrictlySorted(s[1..], lt)
  {
    assert s == [s[0]] + s[1..];
  }

  /** The rows after one of the listing are those that the listing has after it. */
  lemma AfterInListing(table: set<Row>, lt: Order, cursor: Option<Row>, l: seq<Row>, k: nat)
    requires Total(lt) && StrictlySorted(l, lt) && Elements(l) == After(table, lt, cursor) && k < |l|
    ensures After(table, lt, Some(l[k])) == Elements(l[k + 1..]) && StrictlySorted(l[k + 1..], lt)
  {
    var after := After(table, lt, Some(l[k]));
    assert l[k] in Elements(l);
    forall r | r in after ensures r in Elements(l[k + 1..]) {
      assert r in Elements(l);
      var i :| 0 <= i < |l| && l[i] == r;
      assert i > k;
      assert l[k + 1..][i - k - 1] == r;
    }
    forall r | r in Elements(l[k + 1..]) ensures r in after {
      var i :| 0 <= i < |l[k + 1..]| && l[k + 1..][i] == r;
      assert l[k + 1 + i] == r && r in Elements(l);
    }
  }

  /** Filtering past a row of the listing leaves exactly what follows that row. */
  lemma RestAfter(table: set<Row>, lt: Order, cursor: Option<Row>, k: nat)
    requires Total(lt) && k < |OrderBy(After(table, lt, cursor), lt)|
    ensures var l := OrderBy(After(table, lt, cursor), lt);
            OrderBy(After(table, lt, Some(l[k])), lt) == l[k + 1..]
  {
    var l := OrderBy(After(table, lt, cursor), lt);
    AfterInListing(table, lt, cursor, l, k);
    var rest := OrderBy(After(table, lt, Some(l[k])), lt);
    hide StrictlySorted, Total, OrderBy, Elements, After;
    SortedIsUnique(rest, l[k + 1..], lt);
  }

  /** Following the cursors, said of the listing alone: a page, then what follows its cursor. */
  ghost function Follow(h: Handler, l: seq<Row>, limit: int): Result<seq<Row>>
    decreases |l|
  {
    if limit < 0 || (h == Commits && limit == 0 && l != []) then Err
    else if |l| <= limit then Ok(l)
    else
      var k := CursorIndex(h, limit);
      var rest := Follow(h, l[k + 1..], limit);
      if rest.Err? then Err else Ok(l[..limit] + rest.value)
  }

  ghost function CursorIndex(h: Handler, limit: nat): nat {
    if h == Early || limit == 0 then limit else limit - 1
  }

  lemma CutTaken(h: Handler, l: seq<Row>, limit: nat)
    ensures |l| <= limit ==> Cut(h, Take(l, limit + 1), limit) == Ok(Page(l, None))
    ensures |l| > limit && (h != Commits || limit > 0) ==>
      Cut(h, Take(l, limit + 1), limit) == Ok(Page(l[..limit], Some(l[CursorIndex(h, limit)])))
    ensures |l| > limit && h == Commits && limit == 0 ==> Cut(h, Take(l, limit + 1), limit).Err?
  {
    if |l| > limit { assert Take(l, limit + 1)[..limit] == l[..limit]; }
  }

  /** One request: everything, an error, or a page and what is collected behind its cursor. */
  lemma CollectOnce(h: Handler, table: set<Row>, lt: Order, cursor: Option<Row>, limit: nat, l: seq<Row>)
    requires Total(lt) && l == OrderBy(After(table, lt, cursor), lt)
    ensures |l| <= limit ==> Collect(h, table, lt, cursor, limit) == Ok(l)
    ensures |l| > limit && h == Commits && limit == 0 ==> Collect(h, table, lt, cursor, limit).Err?
    ensures |l| > limit && (h != Commits || limit > 0) ==>
      var rest := Collect(h, table, lt, Some(l[CursorIndex(h, limit)]), limit);
      Collect(h, table, lt, cursor, limit) == if rest.Err? then Err else Ok(l[..limit] + rest.value)
  {
    CutTaken(h, l, limit);
    hide Total, After, OrderBy, Cut, Take, CursorIndex, StrictlySorted, Elements;
  }

  lemma FollowOnce(h: Handler, l: seq<Row>, limit: nat)
    ensures |l| <= limit ==> Follow(h, l, limit) == Ok(l)
    ensures |l| > limit && h == Commits && limit == 0 ==> Follow(h, l, limit).Err?
    ensures |l| > limit && (h != Commits || limit > 0) ==>
      var rest := Follow(h, l[CursorIndex(h, limit) + 1..], limit);
      Follow(h, l, limit) == if rest.Err? then Err else Ok(l[..limit] + rest.value)
  {
    if |l| > limit && (h != Commits || limit > 0) {
      var rest := Follow(h, l[CursorIndex(h, limit) + 1..], limit);
      assert Follow(h, l, limit) == if rest.Err? then Err else Ok(l[..limit] + rest.value);
    }
  }

  /** Requests against the table see the listing shrink exactly so. */
  lemma {:induction false} CollectIsFollow(h: Handler, table: set<Row>, lt: Order, cursor: Option<Row>, limit: int)
    requires Total(lt)
    ensures Collect(h, table, lt, cursor, limit) == Follow(h, OrderBy(After(table, lt, cursor), lt), limit)
    decreases |After(table, lt, cursor)|
  {
    hide Total, After, OrderBy, StrictlySorted, Elements;
    if limit >= 0 {
      var l := OrderBy(After(table, lt, cursor), lt);
      CollectOnce(h, table, lt, cursor, limit, l);
      FollowOnce(h, l, limit);
      hide Collect, Follow;
      if |l| > limit && (h != Commits || limit > 0) {
        var k := CursorIndex(h, limit);
        assert l[k] in l;
        NextIsSmaller(table, lt, cursor, l[k]);
        RestAfter(table, lt, cursor, k);
        CollectIsFollow(h, table, lt, Some(l[k]), limit);
      }
    }
  }

  /** Handlers that take the cursor from the last row they return give the listing exactly once. */
  lemma {:induction false} LastRowCursorCovers(h: Handler, l: seq<Row>, limit: int)
    requires limit >= 1 && h != Early
    ensures Follow(h, l, limit) == Ok(l)
    decreases |l|
  {
    if |l| > limit {
      LastRowCursorCovers(h, l[limit..], limit);
      assert l == l[..limit] + l[limit..];
    }
  }

  /** What is left of a listing when every page boundary swallows a row. */
  ghost function DropAtBoundaries(l: seq<Row>, limit: nat): (kept: seq<Row>)
    ensures |kept| <= |l| && (|kept| == |l| <==> |l| <= limit)
    decreases |l|
  {
    if |l| <= limit then l else l[..limit] + DropAtBoundaries(l[limit + 1..], limit)
  }

  lemma {:induction false} EarlyCursorDrops(l: seq<Row>, limit: nat)
    ensures Follow(Early, l, limit) == Ok(DropAtBoundaries(l, limit))
    decreases |l|
  {
    if |l| > limit { EarlyCursorDrops(l[limit + 1..], limit); }
  }

  lemma {:induction false} EmptyPagesGiveNothing(l: seq<Row>)
    ensures Follow(Events, l, 0) == Ok([])
    decreases |l|
  {
    if l != [] {
      EmptyPagesGiveNothing(l[1..]);
      assert l[..0] + [] == [];
    }
  }

  /**
   * When a client that follows the cursors gets the whole listing, once and in order: for the
   * event log and the commit list whenever the limit is positive (or a zero limit meets an empty
   * table), for the other handlers only when the listing fits one page.
   */
  lemma CompleteIff(h: Handler, table: set<Row>, lt: Order, limit: int)
    requires Total(lt)
    ensures Collect(h, table, lt, None, limit) == Ok(OrderBy(table, lt))
       <==> limit >= 0 && (|table| <= limit || (h != Early && limit >= 1))
  {
    assert After(table, lt, None) == table;
    var l := OrderBy(table, lt);
    CollectIsFollow(h, table, lt, None, limit);
    hide Collect, OrderBy, After, Total, Elements, StrictlySorted;
    if limit >= 0 {
      if h == Early {
        EarlyCursorDrops(l, limit);
      } else if limit >= 1 {
        LastRowCursorCovers(h, l, limit);
      } else if h == Events {
        EmptyPagesGiveNothing(l);
      }
    }
  }

  /** What the other handlers do give: the listing less one row at each page boundary. */
  lemma EarlyCursorGives(table: set<Row>, lt: Order, limit: nat)
    requires Total(lt)
    ensures Collect(Early, table, lt, None, limit) == Ok(DropAtBoundaries(OrderBy(table, lt), limit))
  {
    assert After(table, lt, None) == table;
    CollectIsFollow(Early, table, lt, None, limit);
    EarlyCursorDrops(OrderBy(table, lt), limit);
  }

  /** The event log and the commit list, newest first: equal times lose and repeat nothing. */
  lemma NewestFirstComplete(h: Handler, table: set<Row>, limit: int)
    requires h != Early && limit >= 1
    ensures Total(NEWEST) && Collect(h, table, NEWEST, None, limit) == Ok(OrderBy(table, NEWEST))
    ensures var listed := OrderBy(table, NEWEST);
      && (forall r :: r in listed <==> r in table)
      && forall i, j :: 0 <= i < j < |listed| ==>
           || listed[i].created > listed[j].created
           || (listed[i].created == listed[j].created && listed[i].id > listed[j].id)
  {
    NewestIsTotal();
    assert Elements(OrderBy(table, NEWEST)) == table;
    assert forall r :: r in OrderBy(table, NEWEST) <==> r in Elements(OrderBy(table, NEWEST));
    CompleteIff(h, table, NEWEST, limit);
  }

  /** One request. */
  method ListPage(h: Handler, rows: seq<Row>, ghost table: set<Row>, ghost lt: Order, ghost cursor: Option<Row>,
                  limit: int)
    returns (page: Result<Page>)
    requires limit >= 0 ==> Queried(table, lt, cursor, limit, rows)
    ensures page == Cut(h, rows, limit)
    ensures page.Ok? ==>
      && |page.value.items| <= limit
      && (page.value.next.None? <==> |After(table, lt, cursor)| <= limit)
  {
    if limit < 0 { return Err; }
    var items, next := rows, None;
    if |items| == limit + 1 {
      match h
      case Events =>
        next := Some(items[if limit == 0 then |items| - 1 else limit - 1]);
        items := items[..limit];
      case Commits =>
        items := items[..limit];
        if |items| == 0 { return Err; }
        next := Some(items[|items| - 1]);
      case Early =>
        next := Some(items[|items| - 1]);
        items := items[..limit];
    }
    page := Ok(Page(items, next));
  }
}
