// The catalogue tail and its product ids: related_tail_product_ids and extract_product_ids of
// src/search/retrieval.py.
module RelatedTail {
  import opened Sorting
  import opened Wrappers

  // A product id as a store returns it: an integer (here by its decimal text) or a text. str() of
  // it is its identity.
  datatype Raw = Number(text: string) | Text(text: string)

  datatype Row = Row(docId: string, product: Raw)
  datatype Candidate = Candidate(docId: string, product: Option<Raw>)

  function Take<T>(s: seq<T>, n: int): seq<T> { if n <= 0 then [] else if n < |s| then s[..n] else s }

  // Some element up to position `n` has this identity.
  predicate Among(s: seq<Raw>, identity: string) { exists i :: 0 <= i < |s| && s[i].text == identity }

  // ================ Distinct ids in order ================

  // The first id of every identity.
  function FirstOfIdentity(ids: seq<Raw>): seq<Raw> {
    if ids == [] then []
    else
      var n := |ids| - 1;
      FirstOfIdentity(ids[..n]) + if Among(ids[..n], ids[n].text) then [] else [ids[n]]
  }

  // dict.fromkeys: the first of every value.
  function FirstOfValue(ids: seq<Raw>): seq<Raw> {
    if ids == [] then []
    else
      var n := |ids| - 1;
      FirstOfValue(ids[..n]) + if ids[n] in ids[..n] then [] else [ids[n]]
  }

  predicate DistinctIdentities(s: seq<Raw>) { forall i, j :: 0 <= i < j < |s| ==> s[i].text != s[j].text }
  predicate DistinctValues(s: seq<Raw>) { forall i, j :: 0 <= i < j < |s| ==> s[i] != s[j] }

  lemma {:induction false} FirstOfIdentityDistinct(ids: seq<Raw>)
    ensures var r := FirstOfIdentity(ids);
            && DistinctIdentities(r) && |r| <= |ids|
            && (forall t :: Among(r, t) <==> Among(ids, t))
            && (forall x :: x in r ==> x in ids)
  {
    hide Among;
    if ids == [] {
      NothingAmong();
    } else {
      var n := |ids| - 1;
      var r := FirstOfIdentity(ids[..n]);
      FirstOfIdentityDistinct(ids[..n]);
      AmongAppend(ids[..n], ids[n]);
      AmongAppend(r, ids[n]);
      assert ids == ids[..n] + [ids[n]] && r + [] == r;
      if !Among(ids[..n], ids[n].text) { NotAmong(r, ids[n].text); }
    }
  }

  lemma NotAmong(s: seq<Raw>, identity: string)
    requires !Among(s, identity)
    ensures forall i :: 0 <= i < |s| ==> s[i].text != identity
  {}

  lemma AmongAppend(s: seq<Raw>, x: Raw)
    ensures forall t :: Among(s + [x], t) <==> Among(s, t) || t == x.text
  {
    assert (s + [x])[|s|] == x;
    forall t | Among(s, t) ensures Among(s + [x], t) {
      var i :| 0 <= i < |s| && s[i].text == t;
      assert (s + [x])[i].text == t;
    }
  }

  lemma {:induction false} FirstOfValueDistinct(ids: seq<Raw>)
    ensures var r := FirstOfValue(ids);
            DistinctValues(r) && |r| <= |ids| && forall x :: x in r <==> x in ids
  {
    if ids != [] {
      var n := |ids| - 1;
      FirstOfValueDistinct(ids[..n]);
      assert ids == ids[..n] + [ids[n]];
    }
  }

  // A part that already holds every value once is kept in front.
  lemma {:induction false} FirstOfValueStarts(a: seq<Raw>, b: seq<Raw>)
    requires DistinctValues(a)
    ensures a <= FirstOfValue(a + b)
  {
    var all := a + b;
    if b == [] {
      assert all == a;
      KeepsDistinct(a);
    } else {
      var n := |all| - 1;
      assert all[..n] == a + b[..|b| - 1];
      FirstOfValueStarts(a, b[..|b| - 1]);
    }
  }

  lemma {:induction false} KeepsDistinct(a: seq<Raw>)
    requires DistinctValues(a)
    ensures FirstOfValue(a) == a
  {
    if a != [] {
      var n := |a| - 1;
      KeepsDistinct(a[..n]);
      assert a == a[..n] + [a[n]];
    }
  }

  // ---- Which ids those are, position by position ----

  ghost function FirstPlaces(ids: seq<Raw>): set<nat> {
    set k: nat | k < |ids| && (forall i :: 0 <= i < k ==> ids[i].text != ids[k].text)
  }

  ghost function NewPlaces(ids: seq<Raw>): set<nat> { set k: nat | k < |ids| && ids[k] !in ids[..k] }

  // An id is kept exactly where no earlier one has its identity, and what is kept stays in order.
  lemma {:induction false} FirstOfIdentityPicks(ids: seq<Raw>, n: nat)
    requires n <= |ids|
    ensures Picked(ids[..n], FirstPlaces(ids), FirstOfIdentity(ids[..n]))
  {
    var chosen := FirstPlaces(ids);
    hide Picked;
    if n == 0 {
      PickedNone(ids, chosen);
    } else {
      FirstOfIdentityPicks(ids, n - 1);
      PickedNext(ids, chosen, n - 1, FirstOfIdentity(ids[..n - 1]));
      IdentityNext(ids[..n - 1], ids[n - 1]);
      assert ids[..n] == ids[..n - 1] + [ids[n - 1]];
      assert FirstOfIdentity(ids[..n - 1]) + [] == FirstOfIdentity(ids[..n - 1]);
    }
  }

  // The same for dict.fromkeys, by value.
  lemma {:induction false} FirstOfValuePicks(ids: seq<Raw>, n: nat)
    requires n <= |ids|
    ensures Picked(ids[..n], NewPlaces(ids), FirstOfValue(ids[..n]))
  {
    var chosen := NewPlaces(ids);
    hide Picked;
    if n == 0 {
      PickedNone(ids, chosen);
    } else {
      FirstOfValuePicks(ids, n - 1);
      PickedNext(ids, chosen, n - 1, FirstOfValue(ids[..n - 1]));
      assert ids[..n][..n - 1] == ids[..n - 1];
      assert FirstOfValue(ids[..n - 1]) + [] == FirstOfValue(ids[..n - 1]);
    }
  }

  // ---- extract_product_ids ----

  // The products of a list of candidates are those of its parts in turn, and of one candidate its own.
  lemma {:induction false} ProductsInOrder(a: seq<Candidate>, b: seq<Candidate>)
    ensures ProductsOf(a + b) == ProductsOf(a) + ProductsOf(b)
    ensures |b| == 1 ==> ProductsOf(b) == if b[0].product.Some? then [b[0].product.value] else []
  {
    hide ProductsOf;
    NoProducts();
    if b == [] {
      assert a + b == a && ProductsOf(a) + [] == ProductsOf(a);
    } else {
      var n := |b| - 1;
      var front, last := b[..n], b[n];
      assert b == front + [last] && a + b == (a + front) + [last];
      ProductsInOrder(a, front);
      ProductsNext(a + front, last);
      ProductsNext(front, last);
    }
  }

  lemma NoProducts()
    ensures ProductsOf([]) == []
  {}

  lemma ProductsNext(candidates: seq<Candidate>, c: Candidate)
    ensures ProductsOf(candidates + [c]) == ProductsOf(candidates) + if c.product.Some? then [c.product.value] else []
  {
    assert (candidates + [c])[..|candidates|] == candidates;
  }

  function ProductsOf(candidates: seq<Candidate>): seq<Raw> {
    if candidates == [] then []
    else
      var n := |candidates| - 1;
      ProductsOf(candidates[..n]) + if candidates[n].product.None? then [] else [candidates[n].product.value]
  }

  method ExtractProductIds(candidates: seq<Candidate>) returns (ids: seq<Raw>)
    ensures ids == FirstOfIdentity(ProductsOf(candidates))
  {
    hide FirstOfIdentity, Among;
    ids := [];
    var seen: set<string> := {};
    var i := 0;
    NothingAmong();
    while i < |candidates|
      invariant i <= |candidates| && ids == FirstOfIdentity(ProductsOf(candidates[..i]))
      invariant forall t :: t in seen <==> Among(ProductsOf(candidates[..i]), t)
    {
      assert candidates[..i + 1][..i] == candidates[..i];
      var product := candidates[i].product;
      ghost var done := ProductsOf(candidates[..i]);
      assert done + [] == done;
      if product.Some? {
        IdentityNext(done, product.value);
        AmongAppend(done, product.value);
        if product.value.text !in seen {
          seen := seen + {product.value.text};
          ids := ids + [product.value];
        }
      }
      i := i + 1;
    }
    assert candidates[..i] == candidates;
  }

  lemma IdentityNext(ids: seq<Raw>, x: Raw)
    ensures FirstOfIdentity(ids + [x]) == FirstOfIdentity(ids) + if Among(ids, x.text) then [] else [x]
  {
    assert (ids + [x])[..|ids|] == ids;
  }

  lemma NothingAmong()
    ensures FirstOfIdentity([]) == [] && forall t :: !Among([], t)
  {}

  // ================ related_tail_product_ids ================

  datatype Eligibility = Eligibility(excluded: set<string>, types: string -> Option<string>, expected: set<string>)

  predicate Allowed(e: Eligibility, x: Raw) {
    x.text !in e.excluded && e.types(x.text).Some? && e.types(x.text).value in e.expected
  }

  function Products(rows: seq<Row>): (r: seq<Raw>)
    ensures |r| == |rows| && forall i :: 0 <= i < |r| ==> r[i] == rows[i].product
  {
    seq(|rows|, i requires 0 <= i < |rows| => rows[i].product)
  }

  // The one-line filter: every product once, without excluded or ineligible ones.
  function Eligible(e: Eligibility, rows: seq<Row>): seq<Raw> {
    if rows == [] then []
    else
      var n := |rows| - 1;
      var x := rows[n].product;
      Eligible(e, rows[..n]) + if Allowed(e, x) && !Among(Products(rows[..n]), x.text) then [x] else []
  }

  lemma {:induction false} EligibleIsDistinct(e: Eligibility, rows: seq<Row>)
    ensures var r := Eligible(e, rows);
            && DistinctIdentities(r)
            && (forall i :: 0 <= i < |r| ==> Allowed(e, r[i]) && Among(Products(rows), r[i].text))
            && (forall i :: 0 <= i < |rows| && Allowed(e, rows[i].product) ==> Among(r, rows[i].product.text))
  {
    hide Allowed, Among;
    if rows == [] {
      NothingAmong();
    } else {
      var n := |rows| - 1;
      var x, was := rows[n].product, Eligible(e, rows[..n]);
      EligibleIsDistinct(e, rows[..n]);
      assert Products(rows) == Products(rows[..n]) + [x] && was + [] == was;
      AmongAppend(Products(rows[..n]), x);
      AmongAppend(was, x);
      assert forall i :: 0 <= i < n ==> rows[..n][i] == rows[i];
      SameIdentityAllowed(e, rows, n);
      if !Among(Products(rows[..n]), x.text) {
        forall i | 0 <= i < |was| ensures was[i].text != x.text { assert Among(Products(rows[..n]), was[i].text); }
      }
    }
  }

  ghost function EligiblePlaces(e: Eligibility, rows: seq<Row>): set<nat> {
    set k: nat | k < |rows| && rows[k].product.text !in e.excluded
                 && e.types(rows[k].product.text).Some? && e.types(rows[k].product.text).value in e.expected
                 && (forall i :: 0 <= i < k ==> rows[i].product.text != rows[k].product.text)
  }

  // And they stand in browse order: the product of a row is kept exactly where it is allowed and no
  // earlier row names it.
  lemma {:induction false} EligiblePicks(e: Eligibility, rows: seq<Row>, n: nat)
    requires n <= |rows|
    ensures Picked(Products(rows)[..n], EligiblePlaces(e, rows), Eligible(e, rows[..n]))
  {
    hide Picked;
    var chosen := EligiblePlaces(e, rows);
    if n == 0 {
      PickedNone(Products(rows), chosen);
    } else {
      EligiblePicks(e, rows, n - 1);
      PickedNext(Products(rows), chosen, n - 1, Eligible(e, rows[..n - 1]));
      assert rows[..n][..n - 1] == rows[..n - 1];
      AmongProducts(rows, n - 1);
      assert Eligible(e, rows[..n - 1]) + [] == Eligible(e, rows[..n - 1]);
    }
  }

  lemma AmongProducts(rows: seq<Row>, k: nat)
    requires k < |rows|
    ensures Among(Products(rows[..k]), rows[k].product.text) <==> exists i :: 0 <= i < k && rows[i].product.text == rows[k].product.text
  {
    if i :| 0 <= i < k && rows[i].product.text == rows[k].product.text {
      assert Products(rows[..k])[i] == rows[i].product;
    }
  }

  // Whether a product is allowed depends on its identity alone.
  lemma SameIdentityAllowed(e: Eligibility, rows: seq<Row>, n: nat)
    requires n < |rows|
    requires forall i :: 0 <= i < n && Allowed(e, rows[i].product) ==> Among(Eligible(e, rows[..n]), rows[i].product.text)
    ensures Allowed(e, rows[n].product) && Among(Products(rows[..n]), rows[n].product.text) ==>
              Among(Eligible(e, rows[..n]), rows[n].product.text)
  {
    if Allowed(e, rows[n].product) && Among(Products(rows[..n]), rows[n].product.text) {
      var i :| 0 <= i < n && Products(rows[..n])[i].text == rows[n].product.text;
      assert Allowed(e, rows[i].product);
    }
  }

  // LIMIT count OFFSET offset over the browse order.
  function Browse(order: seq<Row>, count: nat, offset: nat): seq<Row>
    requires offset <= |order|
  {
    Take(order[offset..], count)
  }

  function PageSize(limit: nat): (size: Positive)
    ensures 100 <= size <= 500
  {
    var wanted := if limit * 3 < 500 then limit * 3 else 500;
    if wanted > 100 then wanted else 100
  }

  // The paged loop, for any page size: the first `limit` eligible products of the whole order.
  method PagedTail(order: seq<Row>, e: Eligibility, limit: nat, pageSize: Positive) returns (ids: seq<Raw>)
    ensures ids == Take(Eligible(e, order), limit)
  {
    ids := [];
    var seen := e.excluded;
    var offset := 0;
    hide Allowed, Eligible, Among;
    TailStart(e, order);
    while |ids| < limit
      invariant offset <= |order| && |ids| <= limit
      invariant |ids| < limit ==> Caught(e, order, offset, ids, seen)
      invariant |ids| == limit ==> ids == Take(Eligible(e, order), limit)
      decreases |order| - offset, limit - |ids|
    {
      var rows := Browse(order, pageSize, offset);
      if rows == [] { break; }
      assert forall k :: 0 <= k < |rows| ==> rows[k] == order[offset + k];
      var i := 0;
      while i < |rows|
        invariant i <= |rows| && |ids| < limit && Caught(e, order, offset + i, ids, seen)
      {
        var x := rows[i].product;
        i := i + 1;
        CatchNext(e, order, offset + i - 1, ids, seen);
        if x.text in seen { continue; }
        seen := seen + {x.text};
        if e.types(x.text).None? || e.types(x.text).value !in e.expected { continue; }
        ids := ids + [x];
        if |ids| >= limit {
          CaughtEnough(e, order, offset + i, ids, seen);
          break;
        }
      }
      offset := offset + |rows|;
      if |rows| < pageSize { break; }
    }
    if |ids| < limit {
      assert offset == |order|;
      CaughtAll(e, order, ids, seen);
    }
  }

  // After the first `n` rows: what was kept, and every identity met or excluded.
  ghost predicate Caught(e: Eligibility, order: seq<Row>, n: nat, ids: seq<Raw>, seen: set<string>) {
    && n <= |order| && ids == Eligible(e, order[..n])
    && forall t :: t in seen <==> t in e.excluded || Among(Products(order[..n]), t)
  }

  lemma TailStart(e: Eligibility, order: seq<Row>)
    ensures Caught(e, order, 0, [], e.excluded)
  {}

  lemma CatchNext(e: Eligibility, order: seq<Row>, n: nat, ids: seq<Raw>, seen: set<string>)
    requires Caught(e, order, n, ids, seen) && n < |order|
    ensures var x := order[n].product;
            if x.text in seen then Caught(e, order, n + 1, ids, seen)
            else if e.types(x.text).None? || e.types(x.text).value !in e.expected
            then Caught(e, order, n + 1, ids, seen + {x.text})
            else Caught(e, order, n + 1, ids + [x], seen + {x.text})
  {
    hide Among;
    assert order[..n + 1][..n] == order[..n];
    assert Products(order[..n + 1]) == Products(order[..n]) + [order[n].product];
    AmongAppend(Products(order[..n]), order[n].product);
  }

  lemma {:induction false} EligiblePrefix(e: Eligibility, order: seq<Row>, n: nat)
    requires n <= |order|
    ensures Eligible(e, order[..n]) <= Eligible(e, order)
    decreases |order| - n
  {
    hide Allowed, Among;
    if n < |order| {
      assert order[..n + 1][..n] == order[..n];
      EligiblePrefix(e, order, n + 1);
    } else {
      assert order[..n] == order;
    }
  }

  lemma CaughtEnough(e: Eligibility, order: seq<Row>, n: nat, ids: seq<Raw>, seen: set<string>)
    requires Caught(e, order, n, ids, seen)
    ensures ids == Take(Eligible(e, order), |ids|)
  {
    EligiblePrefix(e, order, n);
  }

  lemma CaughtAll(e: Eligibility, order: seq<Row>, ids: seq<Raw>, seen: set<string>)
    requires Caught(e, order, |order|, ids, seen)
    ensures forall limit: nat :: limit > |ids| ==> ids == Take(Eligible(e, order), limit)
  {
    assert order[..|order|] == order;
  }
}
