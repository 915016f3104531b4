// How search composes its result ids (src/search/engine.py): ranked ids first, then the rest of the
// hybrid pool, then the catalogue tail, within the limit.
module SearchTail {
  import opened RelatedTail
  import opened Wrappers

  // What planning and retrieval decided. `matches` is the category-anchor test on a candidate;
  // `catalogue` is the browse order under the filters; limit None is the default search.
  datatype Setting = Setting(limit: Option<Positive>, allowed: bool, anchored: bool, matches: Candidate -> bool,
                             window: seq<Candidate>, pool: seq<Candidate>, catalogue: seq<Row>,
                             types: string -> Option<string>, expected: set<string>)

  function Identities(ids: seq<Raw>): set<string> { set i | 0 <= i < |ids| :: ids[i].text }

  // Pool ids outside the ranked ones, on one side of the anchor test, in pool order.
  function Side(s: Setting, primary: set<string>, pool: seq<Candidate>, anchored: bool): seq<Raw> {
    if pool == [] then []
    else
      var n := |pool| - 1;
      var c := pool[n];
      Side(s, primary, pool[..n], anchored)
      + if c.product.Some? && c.product.value.text !in primary && (s.anchored && s.matches(c)) == anchored
        then [c.product.value] else []
  }

  function Documents(candidates: seq<Candidate>): set<string> { set i | 0 <= i < |candidates| :: candidates[i].docId }

  function Outside(rows: seq<Row>, documents: set<string>): seq<Row> {
    if rows == [] then []
    else (if rows[0].docId in documents then [] else [rows[0]]) + Outside(rows[1..], documents)
  }

  datatype Parts = Parts(primary: seq<Raw>, hybrid: seq<Raw>, related: seq<Raw>, late: seq<Raw>)

  function TailLimit(s: Setting, primary: seq<Raw>): nat {
    if s.limit.Some? && s.limit.value > |primary| then s.limit.value - |primary| else 0
  }

  function PartsOf(s: Setting, results: seq<Candidate>): Parts {
    var primary := FirstOfIdentity(ProductsOf(results));
    var room := TailLimit(s, primary);
    if !s.allowed || room == 0 then Parts(primary, [], [], [])
    else
      var hybrid := Take(Side(s, Identities(primary), s.pool, s.anchored), room);
      if !s.anchored then Parts(primary, hybrid, [], [])
      else
        var rows := Outside(s.catalogue, Documents(s.window + s.pool));
        var e := Eligibility(Identities(primary + hybrid), s.types, s.expected);
        var related := Take(Eligible(e, rows), room - |hybrid|);
        Parts(primary, hybrid, related, Take(Side(s, Identities(primary), s.pool, false), room - |hybrid| - |related|))
  }

  function Composed(s: Setting, results: seq<Candidate>): seq<Raw> {
    var p := PartsOf(s, results);
    FirstOfValue(p.primary + p.hybrid + p.related + p.late)
  }

  method Compose(s: Setting, results: seq<Candidate>) returns (ids: seq<Raw>)
    ensures ids == Composed(s, results)
  {
    hide Eligible, FirstOfIdentity, FirstOfValue, Outside, ProductsOf;
    var primary := ExtractProductIds(results);
    var tailLimit := if s.limit.Some? && s.limit.value > |primary| then s.limit.value - |primary| else 0;
    var hybrid, related, late, unanchored := [], [], [], [];
    if s.allowed && tailLimit > 0 {
      var anchored;
      anchored, unanchored := SplitPool(s, Identities(primary));
      if s.anchored {
        hybrid := Take(anchored, tailLimit);
      } else {
        hybrid := Take(unanchored, tailLimit);
        unanchored := [];
      }
    }
    var catalogueLimit := if tailLimit > |hybrid| then tailLimit - |hybrid| else 0;
    if s.allowed && s.anchored && catalogueLimit > 0 {
      var e := Eligibility(Identities(primary + hybrid), s.types, s.expected);
      related := PagedTail(Outside(s.catalogue, Documents(s.window + s.pool)), e, catalogueLimit, PageSize(catalogueLimit));
    }
    var remaining := if tailLimit > |hybrid| + |related| then tailLimit - |hybrid| - |related| else 0;
    if remaining > 0 && unanchored != [] { late := Take(unanchored, remaining); }
    assert Parts(primary, hybrid, related, late) == PartsOf(s, results);
    ids := FirstOfValue(primary + hybrid + related + late);
  }

  method SplitPool(s: Setting, primary: set<string>) returns (anchored: seq<Raw>, unanchored: seq<Raw>)
    ensures anchored == Side(s, primary, s.pool, true) && unanchored == Side(s, primary, s.pool, false)
  {
    anchored, unanchored := [], [];
    var i := 0;
    while i < |s.pool|
      invariant i <= |s.pool|
      invariant anchored == Side(s, primary, s.pool[..i], true) && unanchored == Side(s, primary, s.pool[..i], false)
    {
      var candidate := s.pool[i];
      assert s.pool[..i + 1][..i] == s.pool[..i];
      i := i + 1;
      if candidate.product.None? || candidate.product.value.text in primary { continue; }
      if s.anchored && s.matches(candidate) {
        anchored := anchored + [candidate.product.value];
      } else {
        unanchored := unanchored + [candidate.product.value];
      }
    }
    assert s.pool[..i] == s.pool;
  }

  // ---- What every composition is ----

  lemma {:induction false} SideMembers(s: Setting, primary: set<string>, pool: seq<Candidate>, anchored: bool)
    ensures forall x :: x in Side(s, primary, pool, anchored) ==> x.text !in primary && x in ProductsOf(pool)
    ensures |Side(s, primary, pool, anchored)| <= |pool|
  {
    if pool != [] { SideMembers(s, primary, pool[..|pool| - 1], anchored); }
  }

  lemma DistinctBothWays(a: seq<Raw>)
    requires DistinctIdentities(a)
    ensures DistinctValues(a)
  {}

  // Ranked ids first, no value twice, never more than the limit, and nothing else without a limit.
  lemma ComposedShape(s: Setting, results: seq<Candidate>)
    requires s.limit.Some? ==> |results| <= s.limit.value
    ensures var out := Composed(s, results);
            && FirstOfIdentity(ProductsOf(results)) <= out
            && DistinctIdentities(FirstOfIdentity(ProductsOf(results))) && DistinctValues(out)
            && (s.limit.Some? ==> |out| <= s.limit.value)
            && (s.limit.None? ==> out == FirstOfIdentity(ProductsOf(results)))
  {
    hide Eligible, FirstOfIdentity, FirstOfValue, Outside, ProductsOf, Side;
    var p := PartsOf(s, results);
    var tail := p.hybrid + p.related + p.late;
    assert p.primary + p.hybrid + p.related + p.late == p.primary + tail;
    FirstOfIdentityDistinct(ProductsOf(results));
    DistinctBothWays(p.primary);
    FirstOfValueStarts(p.primary, tail);
    FirstOfValueDistinct(p.primary + tail);
    ProductsFewer(results);
    if s.limit.None? {
      assert p.primary + tail == p.primary;
      KeepsDistinct(p.primary);
    }
  }

  lemma {:induction false} ProductsFewer(candidates: seq<Candidate>)
    ensures |ProductsOf(candidates)| <= |candidates|
  {
    if candidates != [] { ProductsFewer(candidates[..|candidates| - 1]); }
  }

  // ---- In which order ----

  // One side of a pool is that side of its parts in turn; of one candidate it is the product, unless it
  // has none, a ranked one, or is on the other side.
  lemma {:induction false} SideInOrder(s: Setting, primary: set<string>, a: seq<Candidate>, b: seq<Candidate>, anchored: bool)
    ensures Side(s, primary, a + b, anchored) == Side(s, primary, a, anchored) + Side(s, primary, b, anchored)
    ensures |b| == 1 ==>
              Side(s, primary, b, anchored) ==
                if b[0].product.Some? && b[0].product.value.text !in primary
                   && (if anchored then s.anchored && s.matches(b[0]) else !(s.anchored && s.matches(b[0])))
                then [b[0].product.value] else []
  {
    if b == [] {
      assert a + b == a;
    } else {
      var n := |b| - 1;
      assert (a + b)[..|a| + n] == a + b[..n];
      SideInOrder(s, primary, a, b[..n], anchored);
    }
  }

  // The catalogue rows left are those of its parts in turn; one row is left unless its document is known.
  lemma {:induction false} OutsideInOrder(a: seq<Row>, b: seq<Row>, documents: set<string>)
    ensures Outside(a + b, documents) == Outside(a, documents) + Outside(b, documents)
    ensures |b| == 1 ==> Outside(b, documents) == if b[0].docId in documents then [] else b
  {
    hide Outside;
    if a == [] {
      assert a + b == b;
      NoneOutside(documents);
    } else {
      assert a == [a[0]] + a[1..] && a + b == [a[0]] + (a[1..] + b);
      OutsideInOrder(a[1..], b, documents);
      OutsideCons(a[0], a[1..], documents);
      OutsideCons(a[0], a[1..] + b, documents);
    }
    if |b| == 1 {
      assert b == [b[0]] + [];
      NoneOutside(documents);
      OutsideCons(b[0], [], documents);
    }
  }

  lemma OutsideCons(row: Row, rows: seq<Row>, documents: set<string>)
    ensures Outside([row] + rows, documents) == (if row.docId in documents then [] else [row]) + Outside(rows, documents)
  {
    assert ([row] + rows)[0] == row && ([row] + rows)[1..] == rows;
  }

  lemma NoneOutside(documents: set<string>)
    ensures Outside([], documents) == []
  {}

  // ---- The tail as one sequence, of which every limit takes a prefix ----

  // Catalogue rows whose documents retrieval has not seen.
  function Unseen(s: Setting): seq<Row> { Outside(s.catalogue, Documents(s.window + s.pool)) }

  function Primary(results: seq<Candidate>): seq<Raw> { FirstOfIdentity(ProductsOf(results)) }

  // Everything that can follow the ranked ids, in order: the pool on the anchor's side, the catalogue
  // tail, the rest of the pool.
  function Tail(s: Setting, results: seq<Candidate>): seq<Raw> {
    var primary := Primary(results);
    var near := Side(s, Identities(primary), s.pool, s.anchored);
    if !s.allowed then []
    else if !s.anchored then near
    else
      var e := Eligibility(Identities(primary + near), s.types, s.expected);
      near + Eligible(e, Unseen(s)) + Side(s, Identities(primary), s.pool, false)
  }

  // Filling the room part by part takes a prefix of the parts joined.
  lemma TakeJoined<T>(near: seq<T>, tail: seq<T>, cut: seq<T>, far: seq<T>, room: nat)
    requires |near| < room ==> cut == tail
    ensures var a := Take(near, room);
            var b := Take(cut, room - |a|);
            a + b + Take(far, room - |a| - |b|) == Take(near + tail + far, room)
  {
    var a, all := Take(near, room), near + tail + far;
    if room <= |near| {
      assert all[..room] == near[..room];
      assert a + [] + [] == a;
    } else {
      var rest := Take(tail, room - |a|);
      assert near + rest + Take(far, room - |a| - |rest|) == Take(all, room);
    }
  }

  lemma TakeNothing<T>(s: seq<T>)
    ensures Take(s, 0) == []
  {}

  lemma PartsAreTail(s: Setting, results: seq<Candidate>)
    ensures var p := PartsOf(s, results);
            p.primary == Primary(results)
            && p.hybrid + p.related + p.late == Take(Tail(s, results), TailLimit(s, p.primary))
            && TailLimit(s, p.primary) == (if s.limit.None? || s.limit.value <= |p.primary| then 0 else s.limit.value - |p.primary|)
    ensures Composed(s, results) == FirstOfValue(Primary(results) + Take(Tail(s, results), TailLimit(s, Primary(results))))
  {
    hide Tail, PartsOf, FirstOfIdentity, FirstOfValue, ProductsOf, Take;
    PartsTaken(s, results);
    var p := PartsOf(s, results);
    assert p.primary + p.hybrid + p.related + p.late == p.primary + (p.hybrid + p.related + p.late);
  }

  lemma PartsTaken(s: Setting, results: seq<Candidate>)
    ensures var p := PartsOf(s, results);
            p.primary == Primary(results)
            && p.hybrid + p.related + p.late == Take(Tail(s, results), TailLimit(s, p.primary))
  {
    hide Eligible, FirstOfIdentity, Outside, ProductsOf, Side, Identities, Documents, Take;
    var p, room := PartsOf(s, results), TailLimit(s, Primary(results));
    var near := Side(s, Identities(p.primary), s.pool, s.anchored);
    TakeNothing(Tail(s, results));
    if s.allowed && room > 0 {
      if s.anchored {
        var e := Eligibility(Identities(p.primary + near), s.types, s.expected);
        var cut := Eligibility(Identities(p.primary + p.hybrid), s.types, s.expected);
        TakeAll(near, room);
        TakeJoined(near, Eligible(e, Unseen(s)), Eligible(cut, Unseen(s)), Side(s, Identities(p.primary), s.pool, false), room);
      } else {
        assert p.hybrid + [] + [] == p.hybrid;
      }
    } else if !s.allowed {
      TakeOfNone(room);
    }
  }

  lemma TakeAll<T>(s: seq<T>, n: nat)
    ensures |s| < n ==> Take(s, n) == s
  {}

  lemma TakeOfNone(n: nat)
    ensures Take<Raw>([], n) == []
  {}

  // ---- No product twice ----

  // Every identity occurs in one form only, integer or text.
  predicate OneForm(ids: seq<Raw>) {
    forall i, j :: 0 <= i < |ids| && 0 <= j < |ids| && ids[i].text == ids[j].text ==> ids[i] == ids[j]
  }

  lemma InIdentities(ids: seq<Raw>, x: Raw)
    requires x in ids
    ensures x.text in Identities(ids)
  {
    var i :| 0 <= i < |ids| && ids[i] == x;
    assert ids[i].text in Identities(ids);
  }

  lemma NotDistinct(ids: seq<Raw>, x: Raw, y: Raw)
    requires x in ids && y in ids && x != y && x.text == y.text
    ensures !DistinctIdentities(ids)
  {
    var i :| 0 <= i < |ids| && ids[i] == x;
    var j :| 0 <= j < |ids| && ids[j] == y;
    assert if i < j then ids[i].text == ids[j].text else ids[j].text == ids[i].text;
  }

  lemma {:induction false} EligibleFrom(e: Eligibility, rows: seq<Row>)
    ensures forall x :: x in Eligible(e, rows) ==> x.text !in e.excluded && x in Products(rows)
  {
    hide Among;
    if rows != [] {
      var n := |rows| - 1;
      EligibleFrom(e, rows[..n]);
      assert Products(rows) == Products(rows[..n]) + [rows[n].product];
    }
  }

  // Nothing in the tail names a ranked product.
  lemma TailIsNew(s: Setting, results: seq<Candidate>)
    ensures forall x :: x in Tail(s, results) ==> x.text !in Identities(Primary(results))
  {
    hide Eligible, FirstOfIdentity, Outside, ProductsOf, Side;
    var primary := Primary(results);
    SideMembers(s, Identities(primary), s.pool, true);
    SideMembers(s, Identities(primary), s.pool, false);
    if s.allowed && s.anchored {
      var near := Side(s, Identities(primary), s.pool, true);
      var e := Eligibility(Identities(primary + near), s.types, s.expected);
      EligibleFrom(e, Unseen(s));
      forall x | x in primary ensures x.text in e.excluded { InIdentities(primary + near, x); }
      forall t | t in Identities(primary) ensures t in e.excluded {
        var i :| 0 <= i < |primary| && primary[i].text == t;
        assert primary[i] in primary;
      }
    }
  }

  // Distinct ranked ids followed by others: duplicates by value are dropped, so products repeat
  // exactly when one of the others comes in two forms.
  lemma JoinedDistinctIff(primary: seq<Raw>, tail: seq<Raw>)
    requires DistinctIdentities(primary) && forall x :: x in tail ==> x.text !in Identities(primary)
    ensures DistinctIdentities(FirstOfValue(primary + tail)) <==> OneForm(tail)
  {
    hide FirstOfValue, Identities;
    var out := FirstOfValue(primary + tail);
    FirstOfValueDistinct(primary + tail);
    if OneForm(tail) {
      forall i, j | 0 <= i < j < |out| ensures out[i].text != out[j].text {
        assert out[i] in out && out[j] in out;
        FromOneForm(primary, tail, out[i], out[j]);
      }
    } else {
      var i, j :| 0 <= i < |tail| && 0 <= j < |tail| && tail[i].text == tail[j].text && tail[i] != tail[j];
      NotDistinct(out, tail[i], tail[j]);
    }
  }

  lemma FromOneForm(primary: seq<Raw>, tail: seq<Raw>, x: Raw, y: Raw)
    requires DistinctIdentities(primary) && OneForm(tail) && forall z :: z in tail ==> z.text !in Identities(primary)
    requires x in primary + tail && y in primary + tail && x != y
    ensures x.text != y.text
  {
    hide Identities;
    if x in primary { InIdentities(primary, x); }
    if y in primary { InIdentities(primary, y); }
    if x in primary && y in primary && x.text == y.text { NotDistinct(primary, x, y); }
  }

  // For every setting and limit: no product is listed twice exactly when the part of the tail that
  // the limit takes holds no product in two forms.
  lemma DistinctIff(s: Setting, results: seq<Candidate>)
    ensures DistinctIdentities(Composed(s, results)) <==>
              OneForm(Take(Tail(s, results), TailLimit(s, Primary(results))))
  {
    hide PartsOf, FirstOfIdentity, FirstOfValue, ProductsOf, Tail, OneForm, Identities;
    var p := PartsOf(s, results);
    var taken := Take(Tail(s, results), TailLimit(s, Primary(results)));
    PartsAreTail(s, results);
    assert p.primary + p.hybrid + p.related + p.late == p.primary + (p.hybrid + p.related + p.late);
    FirstOfIdentityDistinct(ProductsOf(results));
    TailIsNew(s, results);
    JoinedDistinctIff(p.primary, taken);
  }

  lemma {:induction false} SideSameLimit(s: Setting, n: Positive, primary: set<string>, pool: seq<Candidate>, anchored: bool)
    ensures Side(s.(limit := Some(n)), primary, pool, anchored) == Side(s, primary, pool, anchored)
  {
    if pool != [] { SideSameLimit(s, n, primary, pool[..|pool| - 1], anchored); }
  }

  lemma TailSameLimit(s: Setting, results: seq<Candidate>, n: Positive)
    ensures Tail(s.(limit := Some(n)), results) == Tail(s, results)
  {
    hide Eligible, FirstOfIdentity, Outside, ProductsOf, Side;
    SideSameLimit(s, n, Identities(Primary(results)), s.pool, s.anchored);
    SideSameLimit(s, n, Identities(Primary(results)), s.pool, false);
  }

  // Over all limits, with an anchor or without: no product is ever listed twice exactly when the
  // whole tail holds every product in one form.
  lemma OneTailIff(s: Setting, results: seq<Candidate>)
    ensures OneForm(Tail(s, results)) <==>
              forall n: nat :: n > 0 ==> DistinctIdentities(Composed(s.(limit := Some(n)), results))
  {
    hide Composed, Tail, DistinctIdentities, OneForm, Primary;
    var tail := Tail(s, results);
    PrimaryFewer(results);
    forall n: nat | n > 0 && OneForm(tail) ensures DistinctIdentities(Composed(s.(limit := Some(n)), results)) {
      TailSameLimit(s, results, n);
      DistinctIff(s.(limit := Some(n)), results);
      OneFormPrefix(tail, TailLimit(s.(limit := Some(n)), Primary(results)));
    }
    var n: nat := |results| + |tail| + 1;
    TailSameLimit(s, results, n);
    DistinctIff(s.(limit := Some(n)), results);
  }

  lemma OneFormPrefix(ids: seq<Raw>, n: nat)
    requires OneForm(ids)
    ensures OneForm(Take(ids, n))
  {}

  lemma PrimaryFewer(results: seq<Candidate>)
    ensures |Primary(results)| <= |results|
  {
    hide FirstOfIdentity, ProductsOf;
    FirstOfIdentityDistinct(ProductsOf(results));
    ProductsFewer(results);
  }

  // ---- The condition on what the caller holds ----

  // The row that names product y first writes it as y.
  predicate Leads(rows: seq<Row>, y: Raw) {
    exists i :: 0 <= i < |rows| && rows[i].product == y && !Among(Products(rows[..i]), y.text)
  }

  predicate Ranked(results: seq<Candidate>, text: string) { Among(ProductsOf(results), text) }

  // Some pool candidate on the anchor's side names the product.
  predicate NearAnchor(s: Setting, text: string) {
    exists i :: 0 <= i < |s.pool| && s.pool[i].product.Some? && s.pool[i].product.value.text == text && s.matches(s.pool[i])
  }

  predicate TypeAllowed(s: Setting, text: string) { s.types(text).Some? && s.types(text).value in s.expected }

  // The pool writes each unranked product one way and, under an anchor, the first unseen catalogue
  // row of a product that the pool names only off the anchor, of an allowed type, writes it that way too.
  ghost predicate FormsAgree(s: Setting, results: seq<Candidate>) {
    s.allowed ==>
      && (forall x, y ::
            x in ProductsOf(s.pool) && y in ProductsOf(s.pool) && x.text == y.text && !Ranked(results, x.text) ==> x == y)
      && (s.anchored ==>
            forall x, y ::
              (x in ProductsOf(s.pool) && Leads(Unseen(s), y) && x.text == y.text
               && TypeAllowed(s, x.text) && !Ranked(results, x.text) && !NearAnchor(s, x.text)) ==> x == y)
  }

  lemma {:induction false} EligibleIff(e: Eligibility, rows: seq<Row>, y: Raw)
    ensures y in Eligible(e, rows) <==> Allowed(e, y) && Leads(rows, y)
  {
    hide Allowed, Among;
    if rows != [] {
      EligibleIff(e, rows[..|rows| - 1], y);
      LeadsNext(rows, y);
    }
  }

  lemma LeadsNext(rows: seq<Row>, y: Raw)
    requires rows != []
    ensures var n := |rows| - 1;
            Leads(rows, y) <==> Leads(rows[..n], y) || (rows[n].product == y && !Among(Products(rows[..n]), y.text))
  {
    hide Among;
    var n := |rows| - 1;
    if i :| 0 <= i < n && rows[i].product == y && !Among(Products(rows[..i]), y.text) {
      assert rows[..n][..i] == rows[..i] && rows[..n][i] == rows[i];
    }
    if i :| 0 <= i < n && rows[..n][i].product == y && !Among(Products(rows[..n][..i]), y.text) {
      assert rows[..n][..i] == rows[..i] && rows[..n][i] == rows[i];
    }
  }

  lemma {:induction false} SideIff(s: Setting, primary: set<string>, pool: seq<Candidate>, anchored: bool, x: Raw)
    ensures x in Side(s, primary, pool, anchored) <==>
              x.text !in primary && exists i :: 0 <= i < |pool| && pool[i].product == Some(x) && (s.anchored && s.matches(pool[i])) == anchored
  {
    if pool != [] {
      var n := |pool| - 1;
      SideIff(s, primary, pool[..n], anchored, x);
      assert forall i :: 0 <= i < n ==> pool[..n][i] == pool[i];
    }
  }

  lemma {:induction false} ProductsIff(pool: seq<Candidate>, x: Raw)
    ensures x in ProductsOf(pool) <==> exists i :: 0 <= i < |pool| && pool[i].product == Some(x)
  {
    if pool != [] {
      var n := |pool| - 1;
      ProductsIff(pool[..n], x);
      assert forall i :: 0 <= i < n ==> pool[..n][i] == pool[i];
    }
  }

  lemma RankedIff(results: seq<Candidate>, text: string)
    ensures text in Identities(Primary(results)) <==> Ranked(results, text)
  {
    hide FirstOfIdentity, ProductsOf;
    FirstOfIdentityDistinct(ProductsOf(results));
    assert text in Identities(Primary(results)) <==> Among(Primary(results), text);
  }

  // Who is in the tail: the unranked pool and, under an anchor, the first unseen row of each product
  // of an allowed type that is neither ranked nor in the pool on the anchor's side.
  lemma TailIff(s: Setting, results: seq<Candidate>, x: Raw)
    ensures x in Tail(s, results) <==>
              && s.allowed && !Ranked(results, x.text)
              && (x in ProductsOf(s.pool)
                  || (s.anchored && TypeAllowed(s, x.text) && Leads(Unseen(s), x) && !NearAnchor(s, x.text)))
  {
    hide Side, Eligible, Identities, Primary, Ranked, Leads, Unseen, ProductsOf;
    var primary := Identities(Primary(results));
    RankedIff(results, x.text);
    ProductsIff(s.pool, x);
    SideIff(s, primary, s.pool, false, x);
    if s.anchored {
      SideIff(s, primary, s.pool, true, x);
      var near := Side(s, primary, s.pool, true);
      var e := Eligibility(Identities(Primary(results) + near), s.types, s.expected);
      EligibleIff(e, Unseen(s), x);
      NearIff(s, results, x.text);
    }
  }

  lemma NearIff(s: Setting, results: seq<Candidate>, text: string)
    requires s.anchored
    ensures var primary := Primary(results);
            text in Identities(primary + Side(s, Identities(primary), s.pool, true)) <==> Ranked(results, text) || NearAnchor(s, text)
  {
    hide Side, Primary, Ranked;
    var primary := Primary(results);
    var near := Side(s, Identities(primary), s.pool, true);
    RankedIff(results, text);
    var all := primary + near;
    if text in Identities(all) {
      var i :| 0 <= i < |all| && all[i].text == text;
      if i < |primary| { InIdentities(primary, all[i]); } else { SideIff(s, Identities(primary), s.pool, true, all[i]); }
    }
    if text in Identities(primary) {
      var i :| 0 <= i < |primary| && primary[i].text == text;
      InIdentities(all, primary[i]);
    } else if NearAnchor(s, text) {
      var i :| 0 <= i < |s.pool| && s.pool[i].product.Some? && s.pool[i].product.value.text == text && s.matches(s.pool[i]);
      SideIff(s, Identities(primary), s.pool, true, s.pool[i].product.value);
      InIdentities(all, s.pool[i].product.value);
    }
  }

  // For every setting: no limit ever lists a product twice exactly when the caller's forms agree.
  lemma NeverTwiceIff(s: Setting, results: seq<Candidate>)
    ensures FormsAgree(s, results) <==>
              forall n: nat :: n > 0 ==> DistinctIdentities(Composed(s.(limit := Some(n)), results))
  {
    hide Composed, Tail, DistinctIdentities, FormsAgree, OneForm;
    OneTailIff(s, results);
    OneFormIff(s, results);
  }

  lemma OneFormIff(s: Setting, results: seq<Candidate>)
    ensures OneForm(Tail(s, results)) <==> FormsAgree(s, results)
  {
    hide Tail, Unseen, ProductsOf, Leads, Ranked, NearAnchor;
    var tail := Tail(s, results);
    forall x ensures x in tail <==>
        && s.allowed && !Ranked(results, x.text)
        && (x in ProductsOf(s.pool)
            || (s.anchored && TypeAllowed(s, x.text) && Leads(Unseen(s), x) && !NearAnchor(s, x.text)))
    {
      TailIff(s, results, x);
    }
    assert OneForm(tail) <==> forall x, y :: x in tail && y in tail && x.text == y.text ==> x == y;
    LeadsOneWay(Unseen(s));
  }

  lemma NamedBefore(rows: seq<Row>, i: nat, j: nat)
    requires i < j <= |rows|
    ensures Among(Products(rows[..j]), rows[i].product.text)
  {
    assert Products(rows[..j])[i] == rows[i].product;
  }

  lemma LeadsOneWay(rows: seq<Row>)
    ensures forall x, y :: Leads(rows, x) && Leads(rows, y) && x.text == y.text ==> x == y
  {
    hide Among;
    forall x, y | Leads(rows, x) && Leads(rows, y) && x.text == y.text ensures x == y {
      var i :| 0 <= i < |rows| && rows[i].product == x && !Among(Products(rows[..i]), x.text);
      var j :| 0 <= j < |rows| && rows[j].product == y && !Among(Products(rows[..j]), y.text);
      if i < j { NamedBefore(rows, i, j); } else if j < i { NamedBefore(rows, j, i); }
    }
  }

  // The pool writes each product one way, and no catalogue row of an unseen document names a pool
  // product the other way.
  ghost predicate WrittenOneWay(s: Setting) {
    && (forall x, y :: x in ProductsOf(s.pool) && y in ProductsOf(s.pool) && x.text == y.text ==> x == y)
    && (forall x, y :: x in ProductsOf(s.pool) && y in Products(Unseen(s)) && x.text == y.text ==> x == y)
  }

  lemma NoProductTwice(s: Setting, results: seq<Candidate>)
    requires WrittenOneWay(s)
    ensures DistinctIdentities(Composed(s, results))
  {
    hide Unseen, ProductsOf, Composed, Ranked, NearAnchor, Tail, Primary, OneForm;
    OneFormIff(s, results);
    forall y | Leads(Unseen(s), y) ensures y in Products(Unseen(s)) {
      var i :| 0 <= i < |Unseen(s)| && Unseen(s)[i].product == y && !Among(Products(Unseen(s)[..i]), y.text);
      assert Products(Unseen(s))[i] == y;
    }
    OneFormPrefix(Tail(s, results), TailLimit(s, Primary(results)));
    DistinctIff(s, results);
  }

  // A pool product "5" with an integer id, off the anchor, and a catalogue row of the same product
  // with a text id under another document.
  function Clashing(): Setting {
    Setting(Some(10), true, true, _ => false, [], [Candidate("d1", Some(Number("5")))],
            [Row("d2", Text("5"))], _ => Some("offer"), {"offer"})
  }

  lemma ClashingSides(primary: set<string>)
    requires primary == {}
    ensures var s := Clashing();
            Side(s, primary, s.pool, true) == [] && Side(s, primary, s.pool, false) == [Number("5")]
  {
    var s := Clashing();
    assert s.pool[..0] == [];
    assert Side(s, primary, [], true) == [] && Side(s, primary, [], false) == [];
  }

  lemma ClashingRows(e: Eligibility)
    requires e == Eligibility({}, Clashing().types, Clashing().expected)
    ensures Eligible(e, Unseen(Clashing())) == [Text("5")]
  {
    var s := Clashing();
    var rows := s.catalogue;
    assert rows[0].docId !in Documents(s.window + s.pool);
    assert rows[1..] == [] && Outside(rows[1..], Documents(s.window + s.pool)) == [];
    assert Unseen(s) == rows && rows[..0] == [];
    assert Eligible(e, rows[..0]) == [] && !Among(Products(rows[..0]), "5");
  }

  lemma NoneRanked()
    ensures Primary([]) == [] && Identities([]) == {}
  {}

  lemma ClashingTail()
    ensures Tail(Clashing(), []) == [Text("5"), Number("5")]
  {
    hide Side, Eligible, Unseen, Primary, Identities;
    var s := Clashing();
    NoneRanked();
    ClashingSides({});
    ClashingRows(Eligibility({}, s.types, s.expected));
    assert [] + [] == Primary([]);
    assert [] + [Text("5")] + [Number("5")] == [Text("5"), Number("5")];
  }

  // The product is listed twice.
  lemma ListedTwice()
    ensures Composed(Clashing(), []) == [Text("5"), Number("5")]
  {
    hide Tail, Primary, FirstOfValue, PartsOf, Identities;
    var p := PartsOf(Clashing(), []);
    NoneRanked();
    ClashingTail();
    PartsAreTail(Clashing(), []);
    assert p.primary + p.hybrid + p.related + p.late == p.hybrid + p.related + p.late;
    KeepsDistinct([Text("5"), Number("5")]);
  }
}
