// Keyset paging of the query explorer (src/analytics_service/store.py, query_records in its default
// order): pages of one snapshot, and pages taken while snapshots are being replaced.
module QueryPages {
  import opened Sorting
  import opened TextOrder
  import opened Wrappers

  datatype Key = Key(createdAt: string, requestId: string)
  datatype Record = Record(key: Key, body: string)

  // records.created_at < ? OR (records.created_at = ? AND records.request_id < ?)
  predicate Below(a: Key, b: Key) {
    Before(a.createdAt, b.createdAt) || (a.createdAt == b.createdAt && Before(a.requestId, b.requestId))
  }

  function Newest(): (Record, Record) -> bool { (x: Record, y: Record) => Below(y.key, x.key) }

  // The text next_cursor carries; decoding refuses a blank field.
  datatype Cursor = Cursor(key: Key)

  predicate Blank(k: Key) { k.createdAt == "" || k.requestId == "" }

  function Decode(c: Cursor): Result<Key> { if Blank(c.key) then Error("Invalid analytics query cursor") else Ok(c.key) }

  // The matching rows from a key on, newest first.
  function Found(snapshot: seq<Record>, wanted: Record -> bool, from: Option<Key>): seq<Record> {
    Sort(Filter(snapshot, r => wanted(r) && (from.Some? ==> Below(r.key, from.value))), Newest())
  }

  datatype Page = Page(items: seq<Record>, next: Option<Cursor>)

  // LIMIT limit + 1, of which `limit` are shown.
  function Cut(found: seq<Record>, limit: nat): Page {
    var rows := if |found| > limit + 1 then found[..limit + 1] else found;
    var hasMore := |rows| > limit;
    var visible := if hasMore then rows[..limit] else rows;
    Page(visible, if hasMore && visible != [] then Some(Cursor(visible[|visible| - 1].key)) else None)
  }

  function Query(snapshot: seq<Record>, wanted: Record -> bool, cursor: Option<Cursor>, limit: nat): Result<Page> {
    if cursor.None? then Ok(Cut(Found(snapshot, wanted, None), limit))
    else
      match Decode(cursor.value)
      case Error(e) => Error(e)
      case Ok(key) => Ok(Cut(Found(snapshot, wanted, Some(key)), limit))
  }

  // A page is refused exactly for a cursor with a blank field; otherwise it shows the first matching
  // rows below the cursor, `limit` of them while there are as many, and its own cursor is the last
  // row shown, when a row is left.
  lemma PageIs(snapshot: seq<Record>, wanted: Record -> bool, cursor: Option<Cursor>, limit: Positive)
    ensures var page := Query(snapshot, wanted, cursor, limit);
            var f := Found(snapshot, wanted, if cursor.None? then None else Some(cursor.value.key));
            && (page.Error? <==> cursor.Some? && (cursor.value.key.createdAt == "" || cursor.value.key.requestId == ""))
            && (page.Ok? ==>
                  && page.value.items == (if |f| <= limit then f else f[..limit])
                  && page.value.next == (if |f| <= limit then None else Some(Cursor(f[limit - 1].key))))
  {
    hide Found;
    var f := Found(snapshot, wanted, if cursor.None? then None else Some(cursor.value.key));
    if |f| > limit { assert f[..limit + 1][..limit] == f[..limit]; }
  }

  // ---- Following next_cursor, on the snapshot each visit finds ----

  datatype Visit = Visit(snapshot: seq<Record>, limit: Positive)
  datatype Outcome = Finished | Refused | Unfinished

  function Walk(visits: seq<Visit>, wanted: Record -> bool, cursor: Option<Cursor>): (seq<Record>, Outcome)
    decreases |visits|
  {
    if visits == [] then ([], Unfinished)
    else
      match Query(visits[0].snapshot, wanted, cursor, visits[0].limit)
      case Error(_) => ([], Refused)
      case Ok(page) =>
        if page.next.None? then (page.items, Finished)
        else
          var (rest, outcome) := Walk(visits[1..], wanted, page.next);
          (page.items + rest, outcome)
  }

  function Still(snapshot: seq<Record>, limits: seq<Positive>): seq<Visit> {
    if limits == [] then [] else [Visit(snapshot, limits[0])] + Still(snapshot, limits[1..])
  }

  // ---- The order ----

  ghost predicate Descending(s: seq<Record>) {
    forall i, j :: 0 <= i < j < |s| ==> Below(s[j].key, s[i].key)
  }

  lemma BelowOrder(a: Key, b: Key)
    ensures !Below(a, a)
    ensures Below(a, b) || a == b || Below(b, a)
    ensures !(Below(a, b) && Below(b, a))
  {
    hide Before;
    NotBeforeItself(a.createdAt);
    NotBeforeItself(a.requestId);
    BeforeTotal(a.createdAt, b.createdAt);
    BeforeTotal(a.requestId, b.requestId);
  }

  lemma BelowTrans(a: Key, b: Key, c: Key)
    requires Below(a, b) && Below(b, c)
    ensures Below(a, c)
  {
    hide Before;
    NotBeforeItself(a.createdAt);
    if Before(a.createdAt, b.createdAt) && Before(b.createdAt, c.createdAt) {
      BeforeTrans(a.createdAt, b.createdAt, c.createdAt);
    }
    if a.createdAt == b.createdAt == c.createdAt { BeforeTrans(a.requestId, b.requestId, c.requestId); }
  }

  lemma NewestOrder()
    ensures StrictWeak(Newest())
  {
    hide Below;
    var before := Newest();
    forall x: Record ensures !before(x, x) { BelowOrder(x.key, x.key); }
    forall x: Record, y: Record, z: Record | before(x, y) && before(y, z) ensures before(x, z) {
      BelowTrans(z.key, y.key, x.key);
    }
    forall x: Record, y: Record, z: Record | !before(x, y) && !before(y, z) ensures !before(x, z) {
      BelowOrder(y.key, x.key);
      BelowOrder(z.key, y.key);
      if Below(z.key, x.key) {
        if Below(x.key, y.key) { BelowTrans(z.key, x.key, y.key); }
        if Below(y.key, z.key) && x.key == y.key { BelowOrder(x.key, z.key); }
      }
    }
  }

  // ---- Snapshots hold each request once: the primary key of the table ----

  ghost predicate OnePerRequest(s: seq<Record>) {
    forall i, j :: 0 <= i < j < |s| ==> s[i].key.requestId != s[j].key.requestId
  }

  // The same as a property of the multiset of rows, which sorting and filtering keep.
  ghost predicate Single(s: seq<Record>) {
    && (forall r :: multiset(s)[r] <= 1)
    && (forall x, y :: x in s && y in s && x.key.requestId == y.key.requestId ==> x == y)
  }

  lemma {:induction false} DistinctIsSingle(s: seq<Record>)
    requires OnePerRequest(s)
    ensures Single(s)
  {
    if s != [] {
      DistinctIsSingle(s[1..]);
      assert s == [s[0]] + s[1..];
      assert s[0] !in s[1..];
    }
  }

  lemma {:induction false} FilterSingle(s: seq<Record>, p: Record -> bool, r: Record)
    ensures multiset(Filter(s, p))[r] <= multiset(s)[r]
  {
    if s != [] {
      FilterSingle(s[1..], p, r);
      assert s == [s[0]] + s[1..];
      assert Filter(s, p) == (if p(s[0]) then [s[0]] else []) + Filter(s[1..], p);
    }
  }

  lemma TwiceCounts(s: seq<Record>, i: nat, j: nat)
    requires i < j < |s| && s[i] == s[j]
    ensures multiset(s)[s[i]] > 1
  {
    assert s == s[..j] + [s[j]] + s[j + 1..];
    assert s[i] in s[..j];
  }

  lemma FoundMembers(snapshot: seq<Record>, wanted: Record -> bool, from: Option<Key>, r: Record)
    ensures r in Found(snapshot, wanted, from) <==>
              r in snapshot && wanted(r) && (from.Some? ==> Below(r.key, from.value))
  {
    hide Sort, Filter, Below;
    var p := (r: Record) => wanted(r) && (from.Some? ==> Below(r.key, from.value));
    FilterMembers(snapshot, p, r);
    var f := Found(snapshot, wanted, from);
    assert r in f <==> r in multiset(f);
    assert r in Filter(snapshot, p) <==> r in multiset(Filter(snapshot, p));
  }

  lemma FoundDescends(snapshot: seq<Record>, wanted: Record -> bool, from: Option<Key>)
    requires OnePerRequest(snapshot)
    ensures Descending(Found(snapshot, wanted, from))
  {
    hide Sort, Filter, Below, OnePerRequest;
    var p := (r: Record) => wanted(r) && (from.Some? ==> Below(r.key, from.value));
    var f := Found(snapshot, wanted, from);
    NewestOrder();
    SortSorted(Filter(snapshot, p), Newest());
    DistinctIsSingle(snapshot);
    forall i, j | 0 <= i < j < |f| ensures Below(f[j].key, f[i].key) {
      BelowOrder(f[i].key, f[j].key);
      FoundMembers(snapshot, wanted, from, f[i]);
      FoundMembers(snapshot, wanted, from, f[j]);
      if f[i].key == f[j].key {
        TwiceCounts(f, i, j);
        FilterSingle(snapshot, p, f[i]);
        assert false;
      }
    }
  }

  lemma {:induction false} DescendingUnique(a: seq<Record>, b: seq<Record>)
    requires Descending(a) && Descending(b) && forall r :: r in a <==> r in b
    ensures a == b
  {
    hide Below;
    Inhabited(a);
    Inhabited(b);
    if a != [] {
      assert a[0] in a && b[0] in b;
      SameHead(a, b);
      forall r ensures r in a[1..] <==> r in b[1..] {
        NotInTail(a, r);
        NotInTail(b, r);
      }
      DescendingUnique(a[1..], b[1..]);
    }
  }

  lemma Inhabited(s: seq<Record>)
    ensures s != [] ==> exists r :: r in s
  {
    if s != [] { assert s[0] in s; }
  }

  lemma SameHead(a: seq<Record>, b: seq<Record>)
    requires a != [] && b != [] && Descending(a) && Descending(b) && a[0] in b && b[0] in a
    ensures a[0] == b[0]
  {
    hide Below;
    var i :| 0 <= i < |b| && b[i] == a[0];
    var j :| 0 <= j < |a| && a[j] == b[0];
    BelowOrder(a[0].key, b[0].key);
  }

  lemma NotInTail(a: seq<Record>, r: Record)
    requires a != [] && Descending(a)
    ensures r in a[1..] <==> r in a && r != a[0]
  {
    hide Below;
    assert a == [a[0]] + a[1..];
    BelowOrder(a[0].key, a[0].key);
    if r in a[1..] {
      var i :| 0 <= i < |a| - 1 && a[1..][i] == r;
      assert a[i + 1] == r;
    }
  }

  // Reading on from a row gives what follows that row.
  lemma FoundFromRow(snapshot: seq<Record>, wanted: Record -> bool, from: Option<Key>, i: nat)
    requires OnePerRequest(snapshot) && i < |Found(snapshot, wanted, from)|
    ensures var f := Found(snapshot, wanted, from);
            Found(snapshot, wanted, Some(f[i].key)) == f[i + 1..]
  {
    hide Found, Below, OnePerRequest;
    var f := Found(snapshot, wanted, from);
    var g := Found(snapshot, wanted, Some(f[i].key));
    FoundDescends(snapshot, wanted, from);
    FoundDescends(snapshot, wanted, Some(f[i].key));
    forall r ensures r in g <==> r in f[i + 1..] {
      FoundMembers(snapshot, wanted, from, r);
      FoundMembers(snapshot, wanted, from, f[i]);
      FoundMembers(snapshot, wanted, Some(f[i].key), r);
      TailFrom(f, i, r);
      if from.Some? && Below(r.key, f[i].key) { BelowTrans(r.key, f[i].key, from.value); }
    }
    DescendingUnique(g, f[i + 1..]);
  }

  lemma TailFrom(f: seq<Record>, i: nat, r: Record)
    requires Descending(f) && i < |f|
    ensures r in f[i + 1..] <==> r in f && Below(r.key, f[i].key)
  {
    hide Below;
    if r in f {
      var j :| 0 <= j < |f| && f[j] == r;
      BelowOrder(r.key, f[i].key);
      BelowOrder(f[i].key, f[i].key);
      if j > i { assert f[i + 1..][j - i - 1] == r; }
    }
    if r in f[i + 1..] {
      var j :| 0 <= j < |f| - i - 1 && f[i + 1..][j] == r;
      assert f[i + 1 + j] == r;
    }
  }

  // ---- One snapshot ----

  function From(cursor: Option<Cursor>): Option<Key> { if cursor.None? then None else Some(cursor.value.key) }

  predicate AllReadable(f: seq<Record>) { forall i :: 0 <= i < |f| - 1 ==> !Blank(f[i].key) }

  lemma WalkStep(snapshot: seq<Record>, wanted: Record -> bool, cursor: Option<Cursor>, limits: seq<Positive>)
    requires limits != [] && (cursor.Some? ==> !Blank(cursor.value.key))
    ensures var f, n := Found(snapshot, wanted, From(cursor)), limits[0];
            Walk(Still(snapshot, limits), wanted, cursor)
            == if |f| <= n then (f, Finished)
               else var (rest, outcome) := Walk(Still(snapshot, limits[1..]), wanted, Some(Cursor(f[n - 1].key)));
                    (f[..n] + rest, outcome)
  {
    hide Found, Blank;
    var f, n := Found(snapshot, wanted, From(cursor)), limits[0];
    assert Still(snapshot, limits)[1..] == Still(snapshot, limits[1..]);
    if |f| > n { assert f[..n + 1][..n] == f[..n]; }
  }

  lemma BlankRefused(snapshot: seq<Record>, wanted: Record -> bool, cursor: Cursor, limits: seq<Positive>)
    requires Blank(cursor.key)
    ensures Walk(Still(snapshot, limits), wanted, Some(cursor)) == ([], if limits == [] then Unfinished else Refused)
  {}

  lemma WalkNowhere(snapshot: seq<Record>, wanted: Record -> bool, cursor: Option<Cursor>)
    ensures Walk(Still(snapshot, []), wanted, cursor) == ([], Unfinished)
  {}

  // A walk shows the matching records in order from the start; it ends when all were shown, or at
  // a record with a blank field, or when its visits run out.
  lemma {:induction false} WalkShowsPrefix(snapshot: seq<Record>, wanted: Record -> bool, cursor: Option<Cursor>,
                                           limits: seq<Positive>)
    requires OnePerRequest(snapshot) && (cursor.Some? ==> !Blank(cursor.value.key))
    ensures var f := Found(snapshot, wanted, From(cursor));
            var (items, outcome) := Walk(Still(snapshot, limits), wanted, cursor);
            && items <= f
            && (outcome.Finished? ==> items == f)
            && (outcome.Refused? ==> 0 < |items| < |f| && Blank(items[|items| - 1].key))
            && (outcome.Unfinished? ==> |items| >= |limits| && if limits == [] then items == [] else |items| < |f|)
    decreases |limits|
  {
    hide Found, OnePerRequest, Blank, Below, Walk, Still;
    if limits == [] {
      WalkNowhere(snapshot, wanted, cursor);
    } else {
      var f := Found(snapshot, wanted, From(cursor));
      var n: nat := limits[0];
      WalkStep(snapshot, wanted, cursor, limits);
      if |f| > n {
        FoundFromRow(snapshot, wanted, From(cursor), n - 1);
        var next := Cursor(f[n - 1].key);
        if Blank(next.key) {
          BlankRefused(snapshot, wanted, next, limits[1..]);
          assert f[..n] + [] == f[..n];
        } else {
          WalkShowsPrefix(snapshot, wanted, Some(next), limits[1..]);
          assert f[..n] + f[n..] == f;
        }
      }
    }
  }

  // With enough visits every walk shows every matching record exactly once and ends, whatever the
  // page sizes, if and only if no matching record but the last has a blank created_at or request_id.
  lemma WalksComplete(snapshot: seq<Record>, wanted: Record -> bool)
    requires OnePerRequest(snapshot)
    ensures var f := Found(snapshot, wanted, None);
            AllReadable(f) <==>
              forall limits: seq<Positive> :: |limits| > |f| ==> Walk(Still(snapshot, limits), wanted, None) == (f, Finished)
  {
    hide Found, OnePerRequest, Blank, Below, Walk, Still;
    var f := Found(snapshot, wanted, None);
    forall limits: seq<Positive> | |limits| > |f| && AllReadable(f)
      ensures Walk(Still(snapshot, limits), wanted, None) == (f, Finished)
    {
      WalkShowsPrefix(snapshot, wanted, None, limits);
    }
    if i :| 0 <= i < |f| - 1 && Blank(f[i].key) {
      var limits := [i + 1] + Ones(|f|);
      WalkStep(snapshot, wanted, None, limits);
      assert limits[1..] == Ones(|f|);
      BlankRefused(snapshot, wanted, Cursor(f[i].key), Ones(|f|));
      assert Walk(Still(snapshot, limits), wanted, None).1 == Refused;
    }
  }

  function Ones(n: nat): (r: seq<Positive>)
    ensures |r| == n
  {
    if n == 0 then [] else [1] + Ones(n - 1)
  }

  // Two records without created_at, which publication accepts, end a walk in pages of one at the first.
  lemma BlankStopsWalk()
    ensures var first, second := Record(Key("", "b"), ""), Record(Key("", "a"), "");
            && OnePerRequest([first, second])
            && Walk(Still([first, second], [1, 1, 1]), _ => true, None) == ([first], Refused)
  {
    hide Sort, Filter, Walk, Still;
    var first, second := Record(Key("", "b"), ""), Record(Key("", "a"), "");
    var snapshot := [first, second];
    var wanted := (_: Record) => true;
    var f := Found(snapshot, wanted, None);
    BlankOrder(first, second);
    FoundDescends(snapshot, wanted, None);
    forall r ensures r in f <==> r in snapshot { FoundMembers(snapshot, wanted, None, r); }
    DescendingUnique(f, snapshot);
    WalkStep(snapshot, wanted, None, [1, 1, 1]);
    assert [1, 1, 1][1..] == [1, 1] && f[..1] + [] == [first];
    BlankRefused(snapshot, wanted, Cursor(first.key), [1, 1]);
  }

  lemma BlankOrder(first: Record, second: Record)
    requires first.key == Key("", "b") && second.key == Key("", "a")
    ensures Descending([first, second])
  {
    assert Before("a", "b") && !Before("", "");
  }

  // ---- Snapshots replaced mid-walk ----

  ghost predicate AllSingle(visits: seq<Visit>) {
    forall i :: 0 <= i < |visits| ==> OnePerRequest(visits[i].snapshot)
  }

  // What every page of any snapshot shows lies below the cursor, in strictly descending order.
  lemma PageDescends(visit: Visit, wanted: Record -> bool, cursor: Option<Cursor>)
    requires OnePerRequest(visit.snapshot) && Query(visit.snapshot, wanted, cursor, visit.limit).Ok?
    ensures var page := Query(visit.snapshot, wanted, cursor, visit.limit).value;
            && Descending(page.items)
            && (forall i :: 0 <= i < |page.items| && cursor.Some? ==> Below(page.items[i].key, cursor.value.key))
            && (page.next.Some? ==> page.items != [] && page.next.value.key == page.items[|page.items| - 1].key)
  {
    hide Found, OnePerRequest, Blank, Below;
    var f := Found(visit.snapshot, wanted, From(cursor));
    FoundDescends(visit.snapshot, wanted, From(cursor));
    var items := Query(visit.snapshot, wanted, cursor, visit.limit).value.items;
    assert items <= f;
    forall i | 0 <= i < |items| && cursor.Some? ensures Below(items[i].key, cursor.value.key) {
      FoundMembers(visit.snapshot, wanted, From(cursor), f[i]);
    }
  }

  // Whatever is published between pages, the keys still strictly descend, so none repeats.
  lemma {:induction false} MovingWalkDescends(visits: seq<Visit>, wanted: Record -> bool, cursor: Option<Cursor>)
    requires AllSingle(visits)
    ensures var items := Walk(visits, wanted, cursor).0;
            && Descending(items)
            && (forall i :: 0 <= i < |items| && cursor.Some? ==> Below(items[i].key, cursor.value.key))
    decreases |visits|
  {
    hide Found, OnePerRequest, Blank, Below, Query;
    if visits != [] && Query(visits[0].snapshot, wanted, cursor, visits[0].limit).Ok? {
      var page := Query(visits[0].snapshot, wanted, cursor, visits[0].limit).value;
      PageDescends(visits[0], wanted, cursor);
      if page.next.Some? {
        MovingWalkDescends(visits[1..], wanted, page.next);
        Joined(page.items, Walk(visits[1..], wanted, page.next).0, cursor);
      }
    }
  }

  lemma Joined(a: seq<Record>, b: seq<Record>, cursor: Option<Cursor>)
    requires a != [] && Descending(a) && Descending(b)
    requires forall i :: 0 <= i < |b| ==> Below(b[i].key, a[|a| - 1].key)
    requires forall i :: 0 <= i < |a| && cursor.Some? ==> Below(a[i].key, cursor.value.key)
    ensures Descending(a + b)
    ensures forall i :: 0 <= i < |a + b| && cursor.Some? ==> Below((a + b)[i].key, cursor.value.key)
  {
    hide Below;
    var n := |a|;
    forall i | 0 <= i < |b| ensures cursor.Some? ==> Below(b[i].key, cursor.value.key) {
      if cursor.Some? { BelowTrans(b[i].key, a[n - 1].key, cursor.value.key); }
    }
    forall i, j | 0 <= i < j < |a + b| ensures Below((a + b)[j].key, (a + b)[i].key) {
      if i < n - 1 && j >= n { BelowTrans(b[j - n].key, a[n - 1].key, a[i].key); }
    }
  }
}
