// Python's stable `sorted`, as an insertion sort over a strict weak order. `before(x, y)` says
// that x must stand ahead of y; with reverse=True on a key, before(x, y) is key(x) > key(y).
module Sorting {

  function Insert<T>(x: T, s: seq<T>, before: (T, T) -> bool): (r: seq<T>)
    ensures multiset(r) == multiset{x} + multiset(s)
  {
    if s == [] then [x]
    else if before(s[0], x) then
      assert s == [s[0]] + s[1..];
      [s[0]] + Insert(x, s[1..], before)
    else [x] + s
  }

  function Sort<T>(s: seq<T>, before: (T, T) -> bool): (r: seq<T>)
    ensures multiset(r) == multiset(s)
    ensures |r| == |s|
  {
    if s == [] then []
    else
      assert s == [s[0]] + s[1..];
      var r := Insert(s[0], Sort(s[1..], before), before);
      assert |r| == |multiset(r)| && |s| == |multiset(s)|;
      r
  }

  ghost predicate StrictWeak<T(!new)>(before: (T, T) -> bool) {
    && (forall x :: !before(x, x))
    && (forall x, y, z :: before(x, y) && before(y, z) ==> before(x, z))
    && (forall x, y, z :: !before(x, y) && !before(y, z) ==> !before(x, z))
  }

  ghost predicate Sorted<T>(s: seq<T>, before: (T, T) -> bool) {
    forall i, j :: 0 <= i < j < |s| ==> !before(s[j], s[i])
  }

  lemma {:induction false} InsertSorted<T(!new)>(x: T, s: seq<T>, before: (T, T) -> bool)
    requires StrictWeak(before) && Sorted(s, before)
    ensures Sorted(Insert(x, s, before), before)
  {
    if s != [] {
      if before(s[0], x) {
        InsertSorted(x, s[1..], before);
        var r := Insert(x, s[1..], before);
        forall j | 0 <= j < |r| ensures !before(r[j], s[0]) {
          assert r[j] in multiset(r);
          if r[j] != x { assert r[j] in s[1..]; }
        }
      } else {
        forall j | 0 <= j < |s| ensures !before(s[j], x) {}
      }
    }
  }

  lemma {:induction false} SortSorted<T(!new)>(s: seq<T>, before: (T, T) -> bool)
    requires StrictWeak(before)
    ensures Sorted(Sort(s, before), before)
  {
    if s != [] {
      SortSorted(s[1..], before);
      InsertSorted(s[0], Sort(s[1..], before), before);
    }
  }

  lemma {:induction false} SortOfSorted<T>(s: seq<T>, before: (T, T) -> bool)
    requires Sorted(s, before)
    ensures Sort(s, before) == s
  {
    if s != [] {
      SortOfSorted(s[1..], before);
      assert |s| > 1 ==> !before(s[1], s[0]);
    }
  }

  // ---- Stability: inside any class of mutually unordered items the order is kept ----

  function Filter<T>(s: seq<T>, p: T -> bool): seq<T> {
    if s == [] then []
    else (if p(s[0]) then [s[0]] else []) + Filter(s[1..], p)
  }

  lemma FilterCons<T>(x: T, s: seq<T>, p: T -> bool)
    ensures Filter([x] + s, p) == (if p(x) then [x] else []) + Filter(s, p)
  {
    assert ([x] + s)[1..] == s;
  }

  lemma {:induction false} FilterMembers<T>(s: seq<T>, p: T -> bool, x: T)
    ensures x in Filter(s, p) <==> x in s && p(x)
  {
    if s != [] { FilterMembers(s[1..], p, x); }
  }

  lemma {:induction false} FilterAppend<T>(s: seq<T>, t: seq<T>, p: T -> bool)
    ensures Filter(s + t, p) == Filter(s, p) + Filter(t, p)
  {
    hide Filter;
    if s == [] {
      assert s + t == t && Filter(s, p) == [] by { FilterEmpty(p, s); }
    } else {
      FilterAppend(s[1..], t, p);
      FilterCons(s[0], s[1..], p);
      FilterCons(s[0], s[1..] + t, p);
      assert [s[0]] + s[1..] == s && [s[0]] + (s[1..] + t) == s + t;
    }
  }

  lemma FilterEmpty<T>(p: T -> bool, s: seq<T>)
    requires s == []
    ensures Filter(s, p) == []
  {}

  lemma {:induction false} InsertStable<T>(x: T, s: seq<T>, before: (T, T) -> bool, p: T -> bool)
    requires forall y :: y in s && p(y) && p(x) ==> !before(y, x)
    ensures Filter(Insert(x, s, before), p) == Filter([x] + s, p)
  {
    hide Filter;
    if s == [] {
      assert [x] + s == [x];
    } else if before(s[0], x) {
      InsertStable(x, s[1..], before, p);
      FilterCons(s[0], Insert(x, s[1..], before), p);
      FilterCons(x, s[1..], p);
      FilterCons(x, s, p);
      FilterCons(s[0], s[1..], p);
      assert [s[0]] + s[1..] == s;
      assert !(p(x) && p(s[0]));
    }
  }

  lemma {:induction false} SortStable<T>(s: seq<T>, before: (T, T) -> bool, p: T -> bool)
    requires forall y, z :: y in s && z in s && p(y) && p(z) ==> !before(y, z)
    ensures Filter(Sort(s, before), p) == Filter(s, p)
  {
    hide Filter;
    if s != [] {
      var rest := Sort(s[1..], before);
      SortStable(s[1..], before, p);
      forall y | y in rest ensures y in s { assert y in multiset(rest); }
      InsertStable(s[0], rest, before, p);
      FilterCons(s[0], rest, p);
      FilterCons(s[0], s[1..], p);
      assert [s[0]] + s[1..] == s;
    }
  }

  // ---- What a pass keeps, position by position ----

  // `r` holds the elements of `s` at the chosen positions and no others, in their order.
  ghost predicate Picked<T>(s: seq<T>, chosen: set<nat>, r: seq<T>) {
    exists places: seq<nat> :: PickedAt(s, chosen, r, places)
  }

  ghost predicate PickedAt<T>(s: seq<T>, chosen: set<nat>, r: seq<T>, places: seq<nat>) {
    && |places| == |r|
    && (forall i :: 0 <= i < |places| ==> places[i] < |s| && places[i] in chosen)
    && (forall i :: 0 <= i < |places| ==> r[i] == s[places[i]])
    && (forall i, j :: 0 <= i < j < |places| ==> places[i] < places[j])
    && (forall k :: k in chosen && k < |s| ==> k in places)
  }

  lemma PickedNone<T>(s: seq<T>, chosen: set<nat>)
    ensures Picked(s[..0], chosen, [])
  {
    assert PickedAt(s[..0], chosen, [], []);
  }

  lemma PickedNext<T>(s: seq<T>, chosen: set<nat>, n: nat, r: seq<T>)
    requires n < |s| && Picked(s[..n], chosen, r)
    ensures Picked(s[..n + 1], chosen, if n in chosen then r + [s[n]] else r)
  {
    assert s[..n + 1] == s[..n] + [s[n]];
    PickedGrows(s[..n], s[n], chosen, r);
  }

  lemma PickedGrows<T>(s: seq<T>, x: T, chosen: set<nat>, r: seq<T>)
    requires Picked(s, chosen, r)
    ensures Picked(s + [x], chosen, if |s| in chosen then r + [x] else r)
  {
    var places :| PickedAt(s, chosen, r, places);
    if |s| in chosen { TakenAt(s, x, chosen, r, places); } else { SkippedAt(s, x, chosen, r, places); }
  }

  lemma TakenAt<T>(s: seq<T>, x: T, chosen: set<nat>, r: seq<T>, places: seq<nat>)
    requires PickedAt(s, chosen, r, places) && |s| in chosen
    ensures PickedAt(s + [x], chosen, r + [x], places + [|s|])
  {
    var more := places + [|s|];
    assert forall i :: 0 <= i < |places| ==> more[i] == places[i];
    forall k | k in chosen && k < |s| + 1 ensures k in more {
      if k == |s| { assert more[|places|] == k; } else { assert k in places; }
    }
  }

  lemma SkippedAt<T>(s: seq<T>, x: T, chosen: set<nat>, r: seq<T>, places: seq<nat>)
    requires PickedAt(s, chosen, r, places) && |s| !in chosen
    ensures PickedAt(s + [x], chosen, r, places)
  {}
}
