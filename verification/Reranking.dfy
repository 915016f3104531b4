// rerank and prioritize_verified_within_relevance_bands of src/search/reranker.py. Scores are reals.
module Reranking {
  import opened Sorting
  import opened Wrappers

  // `title` is the normalised title; a missing or blank one is None.
  datatype Candidate = Candidate(id: string, title: Option<string>, verified: bool)
  datatype Scored = Scored(candidate: Candidate, score: real)

  const BAND: real := 0.05

  function Abs(x: real): real { if x < 0.0 then -x else x }
  function ByScore(): (Scored, Scored) -> bool { (x: Scored, y: Scored) => x.score > y.score }
  function VerifiedFirst(): (Scored, Scored) -> bool { (x: Scored, y: Scored) => x.candidate.verified && !y.candidate.verified }

  // ================ Verified owners first, within relevance bands ================

  predicate Close(anchor: Scored, x: Scored) { anchor.score - x.score <= Abs(anchor.score) * BAND }

  // The end of the band that starts at 0: everything close to the first item, up to the first that is not.
  function BandEnd(ranked: seq<Scored>, end: nat): (r: nat)
    requires 0 < end <= |ranked|
    ensures end <= r <= |ranked|
    ensures forall i :: end <= i < r ==> Close(ranked[0], ranked[i])
    ensures r < |ranked| ==> !Close(ranked[0], ranked[r])
    decreases |ranked| - end
  {
    if end < |ranked| && Close(ranked[0], ranked[end]) then BandEnd(ranked, end + 1) else end
  }

  function Prioritized(ranked: seq<Scored>): seq<Scored>
    decreases |ranked|
  {
    if ranked == [] then []
    else
      var end := BandEnd(ranked, 1);
      Sort(ranked[..end], VerifiedFirst()) + Prioritized(ranked[end..])
  }

  ghost predicate Descending(s: seq<Scored>) { forall i, j :: 0 <= i < j < |s| ==> s[i].score >= s[j].score }

  lemma {:induction false} PrioritizedPermutes(ranked: seq<Scored>)
    ensures multiset(Prioritized(ranked)) == multiset(ranked) && |Prioritized(ranked)| == |ranked|
    decreases |ranked|
  {
    hide Sort, BandEnd;
    if ranked != [] {
      var end := BandEnd(ranked, 1);
      PrioritizedPermutes(ranked[end..]);
      assert ranked == ranked[..end] + ranked[end..];
    }
  }

  // Verified items keep their order among themselves, and so do unverified ones.
  lemma {:induction false} PrioritizedKeepsClasses(ranked: seq<Scored>, verified: bool)
    ensures var p := (x: Scored) => x.candidate.verified == verified;
            Filter(Prioritized(ranked), p) == Filter(ranked, p)
    decreases |ranked|
  {
    hide Filter, Sort;
    var p := (x: Scored) => x.candidate.verified == verified;
    if ranked != [] {
      var end := BandEnd(ranked, 1);
      PrioritizedKeepsClasses(ranked[end..], verified);
      SortStable(ranked[..end], VerifiedFirst(), p);
      FilterAppend(Sort(ranked[..end], VerifiedFirst()), Prioritized(ranked[end..]), p);
      FilterAppend(ranked[..end], ranked[end..], p);
      assert ranked == ranked[..end] + ranked[end..];
    }
  }

  lemma VerifiedOrder()
    ensures StrictWeak(VerifiedFirst())
  {}

  // Position `k` begins a band.
  predicate BandStart(ranked: seq<Scored>, k: nat)
    requires k < |ranked|
    decreases |ranked|
  {
    var end := BandEnd(ranked, 1);
    k == 0 || (end <= k && BandStart(ranked[end..], k - end))
  }

  // The band that begins at `k`.
  function Band(ranked: seq<Scored>, k: nat): seq<Scored>
    requires k < |ranked|
  {
    ranked[k..][..BandEnd(ranked[k..], 1)]
  }

  // `x` may overtake the higher-scored `y` only as a verified item passing an unverified one of the
  // same band, both within five percent below the anchor that begins the band.
  ghost predicate MayOvertake(ranked: seq<Scored>, x: Scored, y: Scored) {
    && x.candidate.verified && !y.candidate.verified
    && exists k :: 0 <= k < |ranked| && HoldsBoth(ranked, k, x, y)
  }

  ghost predicate HoldsBoth(ranked: seq<Scored>, k: nat, x: Scored, y: Scored)
    requires k < |ranked|
  {
    && BandStart(ranked, k) && x in Band(ranked, k) && y in Band(ranked, k)
    && ranked[k].score >= y.score && Close(ranked[k], x) && Close(ranked[k], y)
  }

  lemma FromFirstBand(ranked: seq<Scored>, end: nat, x: Scored)
    requires ranked != [] && Descending(ranked) && end == BandEnd(ranked, 1)
    requires x in Sort(ranked[..end], VerifiedFirst())
    ensures Close(ranked[0], x) && ranked[0].score >= x.score && x in Band(ranked, 0)
    ensures forall k :: end <= k < |ranked| ==> x.score >= ranked[k].score
  {
    hide Sort;
    assert x in multiset(ranked[..end]);
    var i :| 0 <= i < end && ranked[i] == x;
    assert Abs(ranked[0].score) * BAND >= 0.0;
    assert ranked[0..] == ranked && Band(ranked, 0)[i] == x;
  }

  lemma OvertakesInFirstBand(ranked: seq<Scored>, end: nat, i: nat, j: nat)
    requires ranked != [] && Descending(ranked) && end == BandEnd(ranked, 1) && i < j < end
    ensures var band := Sort(ranked[..end], VerifiedFirst());
            band[i].score < band[j].score ==> MayOvertake(ranked, band[i], band[j])
  {
    hide Sort, Close, Descending;
    var band := Sort(ranked[..end], VerifiedFirst());
    VerifiedOrder();
    SortSorted(ranked[..end], VerifiedFirst());
    FromFirstBand(ranked, end, band[i]);
    FromFirstBand(ranked, end, band[j]);
    if band[i].score < band[j].score {
      BandOvertakes(ranked, end, i, j);
      assert HoldsBoth(ranked, 0, band[i], band[j]);
    }
  }

  lemma FirstBandLeads(ranked: seq<Scored>, end: nat, x: Scored, y: Scored)
    requires ranked != [] && Descending(ranked) && end == BandEnd(ranked, 1)
    requires x in Sort(ranked[..end], VerifiedFirst()) && y in Prioritized(ranked[end..])
    ensures x.score >= y.score
  {
    hide Sort, Close, Descending, Prioritized;
    FromFirstBand(ranked, end, x);
    PrioritizedPermutes(ranked[end..]);
    assert y in multiset(ranked[end..]);
    var k :| 0 <= k < |ranked| - end && ranked[end..][k] == y;
    assert ranked[end + k] == y;
  }

  lemma OvertakesLater(ranked: seq<Scored>, end: nat, x: Scored, y: Scored)
    requires ranked != [] && end == BandEnd(ranked, 1) && MayOvertake(ranked[end..], x, y)
    ensures MayOvertake(ranked, x, y)
  {
    hide Close, BandEnd;
    var rest := ranked[end..];
    var k :| 0 <= k < |rest| && HoldsBoth(rest, k, x, y);
    assert ranked[end + k] == rest[k] && ranked[end + k..] == rest[k..];
    assert HoldsBoth(ranked, end + k, x, y);
  }

  // In any pair the output puts the lower score ahead of the higher only where that is allowed.
  lemma {:induction false} OvertakesOnlyInBand(ranked: seq<Scored>, i: nat, j: nat)
    requires Descending(ranked) && i < j < |Prioritized(ranked)|
    ensures var out := Prioritized(ranked);
            out[i].score < out[j].score ==> MayOvertake(ranked, out[i], out[j])
    decreases |ranked|
  {
    hide Sort, Close, MayOvertake;
    var end := BandEnd(ranked, 1);
    var band, rest := Sort(ranked[..end], VerifiedFirst()), Prioritized(ranked[end..]);
    assert Prioritized(ranked) == band + rest;
    if j < end {
      OvertakesInFirstBand(ranked, end, i, j);
    } else if i < end {
      FirstBandLeads(ranked, end, band[i], rest[j - end]);
    } else {
      OvertakesOnlyInBand(ranked[end..], i - end, j - end);
      if rest[i - end].score < rest[j - end].score { OvertakesLater(ranked, end, rest[i - end], rest[j - end]); }
    }
  }

  // Inside one band: equal classes keep the order of their scores, so only a verified item overtakes.
  lemma BandOvertakes(ranked: seq<Scored>, end: nat, i: nat, j: nat)
    requires ranked != [] && Descending(ranked) && end == BandEnd(ranked, 1) && i < j < end
    requires Sorted(Sort(ranked[..end], VerifiedFirst()), VerifiedFirst())
    requires var band := Sort(ranked[..end], VerifiedFirst()); band[i].score < band[j].score
    ensures var band := Sort(ranked[..end], VerifiedFirst());
            band[i].candidate.verified && !band[j].candidate.verified
  {
    hide Sort, Close, Filter;
    var band := Sort(ranked[..end], VerifiedFirst());
    if band[i].candidate.verified == band[j].candidate.verified {
      var p := (x: Scored) => x.candidate.verified == band[i].candidate.verified;
      SortStable(ranked[..end], VerifiedFirst(), p);
      FilterDescending(ranked[..end], p);
      FilterKeepsOrder(band, p, i, j);
      assert false;
    }
  }

  lemma {:induction false} FilterDescending(s: seq<Scored>, p: Scored -> bool)
    requires Descending(s)
    ensures Descending(Filter(s, p))
    ensures forall x :: x in Filter(s, p) ==> x in s
  {
    if s != [] {
      FilterDescending(s[1..], p);
      forall x | x in Filter(s[1..], p) ensures s[0].score >= x.score {
        var k :| 0 <= k < |s| - 1 && s[1..][k] == x;
        assert s[k + 1] == x;
      }
    }
  }

  // Two items that a filter keeps stand in its result in the same order.
  lemma {:induction false} FilterKeepsOrder(s: seq<Scored>, p: Scored -> bool, i: nat, j: nat)
    requires i < j < |s| && p(s[i]) && p(s[j])
    ensures exists a, b :: 0 <= a < b < |Filter(s, p)| && Filter(s, p)[a] == s[i] && Filter(s, p)[b] == s[j]
  {
    var rest := Filter(s[1..], p);
    if i == 0 {
      FilterMembers(s[1..], p, s[j]);
      assert s[1..][j - 1] == s[j];
      var b :| 0 <= b < |rest| && rest[b] == s[j];
      assert Filter(s, p) == [s[0]] + rest;
      assert Filter(s, p)[0] == s[i] && Filter(s, p)[b + 1] == s[j];
    } else {
      FilterKeepsOrder(s[1..], p, i - 1, j - 1);
      var a, b :| 0 <= a < b < |rest| && rest[a] == s[i] && rest[b] == s[j];
      var shift := if p(s[0]) then 1 else 0;
      assert Filter(s, p)[a + shift] == s[i] && Filter(s, p)[b + shift] == s[j];
    }
  }

  // ---- What the pass makes of each band ----

  // Sorting by the flag puts the verified items ahead, both classes in their order.
  lemma SortSplits(s: seq<Scored>)
    ensures Sort(s, VerifiedFirst())
         == Filter(s, (x: Scored) => x.candidate.verified) + Filter(s, (x: Scored) => !x.candidate.verified)
  {
    hide Sort, Filter;
    VerifiedOrder();
    SortSorted(s, VerifiedFirst());
    SortStable(s, VerifiedFirst(), (x: Scored) => x.candidate.verified);
    SortStable(s, VerifiedFirst(), (x: Scored) => !x.candidate.verified);
    SortedSplits(Sort(s, VerifiedFirst()));
  }

  lemma {:induction false} SortedSplits(s: seq<Scored>)
    requires forall i, j :: 0 <= i < j < |s| ==> !(s[j].candidate.verified && !s[i].candidate.verified)
    ensures s == Filter(s, (x: Scored) => x.candidate.verified) + Filter(s, (x: Scored) => !x.candidate.verified)
  {
    if s != [] {
      SortedSplits(s[1..]);
      assert s == [s[0]] + s[1..];
      if !s[0].candidate.verified { NoneVerified(s[1..]); }
    }
  }

  lemma {:induction false} NoneVerified(s: seq<Scored>)
    requires forall i :: 0 <= i < |s| ==> !s[i].candidate.verified
    ensures Filter(s, (x: Scored) => x.candidate.verified) == []
  {
    if s != [] { NoneVerified(s[1..]); }
  }

  // Every band stands where it stood, its verified items first, each class in its order.
  lemma {:induction false} BandLeadsVerified(ranked: seq<Scored>, k: nat)
    requires k < |ranked| && BandStart(ranked, k)
    ensures var band := Band(ranked, k);
            && 0 < |band| <= |ranked| - k && |Prioritized(ranked)| == |ranked|
            && Prioritized(ranked)[k..k + |band|]
               == Filter(band, (x: Scored) => x.candidate.verified) + Filter(band, (x: Scored) => !x.candidate.verified)
    decreases |ranked|
  {
    hide Sort, Filter, BandEnd, Prioritized;
    var end := BandEnd(ranked, 1);
    PrioritizedPermutes(ranked);
    PrioritizedSplits(ranked);
    if k == 0 {
      assert ranked[0..] == ranked && Band(ranked, 0) == ranked[..end];
      SortSplits(ranked[..end]);
      SliceFirst(Sort(ranked[..end], VerifiedFirst()), Prioritized(ranked[end..]));
    } else {
      BandLeadsVerified(ranked[end..], k - end);
      assert ranked[k..] == ranked[end..][k - end..];
      SliceLater(Sort(ranked[..end], VerifiedFirst()), Prioritized(ranked[end..]), k - end, |Band(ranked, k)|);
    }
  }

  lemma PrioritizedSplits(ranked: seq<Scored>)
    requires ranked != []
    ensures var end := BandEnd(ranked, 1);
            Prioritized(ranked) == Sort(ranked[..end], VerifiedFirst()) + Prioritized(ranked[end..])
  {}

  lemma SliceFirst<T>(a: seq<T>, b: seq<T>)
    ensures (a + b)[0..|a|] == a
  {}

  lemma SliceLater<T>(a: seq<T>, b: seq<T>, k: nat, n: nat)
    requires k + n <= |b|
    ensures (a + b)[|a| + k..|a| + k + n] == b[k..k + n]
  {}

  // The bands cover the ranking: one begins at 0 and one wherever another ends.
  lemma {:induction false} BandsCover(ranked: seq<Scored>, k: nat)
    requires k < |ranked| && BandStart(ranked, k) && k + |Band(ranked, k)| < |ranked|
    ensures BandStart(ranked, k + |Band(ranked, k)|)
    decreases |ranked|
  {
    var end := BandEnd(ranked, 1);
    if k == 0 {
      assert ranked[0..] == ranked;
    } else {
      assert ranked[k..] == ranked[end..][k - end..];
      BandsCover(ranked[end..], k - end);
    }
  }

  // A band reaches exactly five percent below its anchor, and its anchor is not measured against others.
  lemma BandEdges(a: Candidate, b: Candidate, c: Candidate)
    ensures forall low: real :: |Band([Scored(a, 1.0), Scored(b, low)], 0)| == (if low >= 0.95 then 2 else 1)
    ensures forall low: real :: |Band([Scored(a, -1.0), Scored(b, low)], 0)| == (if low >= -1.05 then 2 else 1)
    ensures |Band([Scored(a, 1.0), Scored(b, 0.96), Scored(c, 0.93)], 0)| == 2
  {
    forall first: real, low: real | first == 1.0 || first == -1.0
      ensures |Band([Scored(a, first), Scored(b, low)], 0)| == (if low >= first - 0.05 then 2 else 1)
    {
      var two := [Scored(a, first), Scored(b, low)];
      assert two[0..] == two && BandEnd(two, 2) == 2;
      assert Close(two[0], two[1]) <==> low >= first - 0.05;
    }
    var three := [Scored(a, 1.0), Scored(b, 0.96), Scored(c, 0.93)];
    assert three[0..] == three && Close(three[0], three[1]) && !Close(three[0], three[2]);
    assert BandEnd(three, 2) == 2;
  }

  // ================ One item of every title first ================

  // Untitled, or no earlier item has this title.
  predicate Fresh(ranked: seq<Scored>, i: nat)
    requires i < |ranked|
  {
    var title := ranked[i].candidate.title;
    title.None? || forall k :: 0 <= k < i ==> ranked[k].candidate.title != title
  }

  // The fresh items, in order.
  function FreshItems(ranked: seq<Scored>): seq<Scored> {
    if ranked == [] then []
    else
      var n := |ranked| - 1;
      FreshItems(ranked[..n]) + if Fresh(ranked, n) then [ranked[n]] else []
  }

  // Everything but the first `room` fresh items, in order.
  function OtherItems(ranked: seq<Scored>, room: nat): seq<Scored> {
    if ranked == [] then []
    else
      var n := |ranked| - 1;
      OtherItems(ranked[..n], room)
      + if Fresh(ranked, n) && |FreshItems(ranked[..n])| < room then [] else [ranked[n]]
  }

  function Take<T>(s: seq<T>, n: nat): seq<T> { if n < |s| then s[..n] else s }

  function Diversified(ranked: seq<Scored>, top: nat, room: nat): seq<Scored> {
    Take(Take(FreshItems(ranked), room) + OtherItems(ranked, room), top)
  }

  lemma TakeMore<T>(s: seq<T>, x: T, room: nat)
    ensures Take(s + [x], room) == if |s| < room then Take(s, room) + [x] else Take(s, room)
  {}

  // The fresh items taken and the others together are the ranking, rearranged.
  lemma {:induction false} DiversityPermutes(ranked: seq<Scored>, room: nat)
    ensures multiset(Take(FreshItems(ranked), room)) + multiset(OtherItems(ranked, room)) == multiset(ranked)
    ensures |Take(FreshItems(ranked), room)| + |OtherItems(ranked, room)| == |ranked|
  {
    hide Take, Fresh, FreshItems, OtherItems;
    DiversityStep(ranked, room);
    if ranked != [] {
      var n := |ranked| - 1;
      DiversityPermutes(ranked[..n], room);
      assert ranked == ranked[..n] + [ranked[n]];
    }
  }

  lemma DiversityStep(ranked: seq<Scored>, room: nat)
    ensures var primary, others := Take(FreshItems(ranked), room), OtherItems(ranked, room);
            if ranked == [] then primary == others == []
            else
              var x := ranked[|ranked| - 1];
              var was, rest := Take(FreshItems(ranked[..|ranked| - 1]), room), OtherItems(ranked[..|ranked| - 1], room);
              (primary == was + [x] && others == rest) || (primary == was && others == rest + [x])
  {
    hide Take, Fresh;
    if ranked == [] {
      NothingTaken(room);
    } else {
      var n := |ranked| - 1;
      var before, others := FreshItems(ranked[..n]), OtherItems(ranked[..n], room);
      TakeMore(before, ranked[n], room);
      assert before + [] == before && others + [] == others;
    }
  }

  lemma NothingTaken(room: nat)
    ensures Take<Scored>([], room) == []
  {}

  lemma TakeWithin<T>(s: seq<T>, n: nat)
    ensures multiset(Take(s, n)) <= multiset(s)
  {
    if n < |s| { assert s == s[..n] + s[n..]; }
  }

  // The result leads with the first min(top, room) fresh items, best first, and has min(top, n) items.
  lemma DiversifiedShape(ranked: seq<Scored>, top: nat, room: nat)
    ensures var out := Diversified(ranked, top, room);
            && |out| == (if top < |ranked| then top else |ranked|)
            && Take(FreshItems(ranked), if room < top then room else top) <= out
            && multiset(out) <= multiset(ranked)
  {
    hide FreshItems, OtherItems;
    DiversityPermutes(ranked, room);
    var all := Take(FreshItems(ranked), room) + OtherItems(ranked, room);
    TakeWithin(all, top);
  }

  function At(ranked: seq<Scored>, places: seq<nat>): seq<Scored>
    requires forall i :: 0 <= i < |places| ==> places[i] < |ranked|
  {
    seq(|places|, i requires 0 <= i < |places| => ranked[places[i]])
  }

  // `first` and `rest` split the positions, both ascending: `first` are the first `room` positions whose
  // item is untitled or the first of its title.
  ghost predicate Splits(ranked: seq<Scored>, room: nat, first: seq<nat>, rest: seq<nat>) {
    && (forall i :: 0 <= i < |first| ==> first[i] < |ranked|)
    && (forall i :: 0 <= i < |rest| ==> rest[i] < |ranked|)
    && (forall i, j :: 0 <= i < j < |first| ==> first[i] < first[j])
    && (forall i, j :: 0 <= i < j < |rest| ==> rest[i] < rest[j])
    && (forall k: nat :: k < |ranked| ==> (k in first || k in rest) && !(k in first && k in rest))
    && |first| <= room
    && (forall i :: 0 <= i < |first| ==> FirstOfTitle(ranked, first[i]))
    && (forall i :: 0 <= i < |rest| && FirstOfTitle(ranked, rest[i]) ==>
          |first| == room && forall j :: 0 <= j < |first| ==> first[j] < rest[i])
  }

  predicate FirstOfTitle(ranked: seq<Scored>, k: nat)
    requires k < |ranked|
  {
    ranked[k].candidate.title != None ==>
      forall i :: 0 <= i < k ==> ranked[i].candidate.title != ranked[k].candidate.title
  }

  // The result, position by position of the ranking.
  lemma DiversifiedPlaces(ranked: seq<Scored>, top: nat, room: nat) returns (first: seq<nat>, rest: seq<nat>)
    ensures Splits(ranked, room, first, rest)
    ensures Diversified(ranked, top, room) == Take(At(ranked, first) + At(ranked, rest), top)
  {
    hide Splits, FreshItems, OtherItems;
    first, rest := Places(ranked, room, |ranked|);
    assert ranked[..|ranked|] == ranked;
  }

  lemma {:induction false} Places(ranked: seq<Scored>, room: nat, n: nat) returns (first: seq<nat>, rest: seq<nat>)
    requires n <= |ranked|
    ensures Splits(ranked[..n], room, first, rest)
    ensures At(ranked[..n], first) == Take(FreshItems(ranked[..n]), room)
    ensures At(ranked[..n], rest) == OtherItems(ranked[..n], room)
  {
    hide Take, FreshItems, OtherItems;
    if n == 0 {
      DiversifyStart(ranked, room);
      first, rest := [], [];
      assert Splits(ranked[..0], room, first, rest);
    } else {
      hide Splits;
      first, rest := Places(ranked, room, n - 1);
      DiversifyNext(ranked, n - 1, room);
      FreshIsFirst(ranked, n - 1);
      assert |At(ranked[..n - 1], first)| == |first|;
      SplitsNext(ranked, room, n - 1, first, rest);
      if FirstOfTitle(ranked[..n], n - 1) && |first| < room {
        first := first + [n - 1];
      } else {
        rest := rest + [n - 1];
      }
    }
  }

  lemma FreshIsFirst(ranked: seq<Scored>, i: nat)
    requires i < |ranked|
    ensures Fresh(ranked[..i + 1], i) <==> FirstOfTitle(ranked[..i + 1], i)
  {}

  lemma SameFirst(ranked: seq<Scored>, n: nat, k: nat)
    requires k < n < |ranked|
    ensures FirstOfTitle(ranked[..n + 1], k) == FirstOfTitle(ranked[..n], k)
  {
    assert forall i :: 0 <= i < n ==> ranked[..n + 1][i] == ranked[..n][i];
  }

  lemma SplitsNext(ranked: seq<Scored>, room: nat, n: nat, first: seq<nat>, rest: seq<nat>)
    requires n < |ranked| && Splits(ranked[..n], room, first, rest)
    ensures var part := ranked[..n + 1];
            if FirstOfTitle(part, n) && |first| < room
            then Splits(part, room, first + [n], rest) && At(part, first + [n]) == At(ranked[..n], first) + [ranked[n]]
                 && At(part, rest) == At(ranked[..n], rest)
            else Splits(part, room, first, rest + [n]) && At(part, rest + [n]) == At(ranked[..n], rest) + [ranked[n]]
                 && At(part, first) == At(ranked[..n], first)
  {
    hide FirstOfTitle;
    var part := ranked[..n + 1];
    assert forall k :: 0 <= k < n ==> part[k] == ranked[..n][k];
    forall k: nat | k < n ensures FirstOfTitle(part, k) == FirstOfTitle(ranked[..n], k) { SameFirst(ranked, n, k); }
    if FirstOfTitle(part, n) && |first| < room {
      var more := first + [n];
      forall k: nat | k < n + 1 ensures (k in more || k in rest) && !(k in more && k in rest) {
        if k < n { assert k < |ranked[..n]|; }
      }
    } else {
      var more := rest + [n];
      forall k: nat | k < n + 1 ensures (k in first || k in more) && !(k in first && k in more) {
        if k < n { assert k < |ranked[..n]|; }
      }
    }
  }

  // ================ rerank ================

  function Zip(candidates: seq<Candidate>, scores: seq<real>): seq<Scored> {
    if candidates == [] || scores == [] then []
    else [Scored(candidates[0], scores[0])] + Zip(candidates[1..], scores[1..])
  }

  function Ranking(candidates: seq<Candidate>, scores: seq<real>): seq<Scored> {
    Prioritized(Sort(Zip(candidates, scores), ByScore()))
  }

  lemma ScoreOrder()
    ensures StrictWeak(ByScore())
  {}

  // Every candidate is ranked by its own score, as far as there are both.
  lemma {:induction false} ZipPairs(candidates: seq<Candidate>, scores: seq<real>)
    ensures |Zip(candidates, scores)| == if |candidates| < |scores| then |candidates| else |scores|
    ensures forall i :: 0 <= i < |Zip(candidates, scores)| ==> Zip(candidates, scores)[i] == Scored(candidates[i], scores[i])
  {
    if candidates != [] && scores != [] {
      ZipPairs(candidates[1..], scores[1..]);
    }
  }

  // Candidates of one score keep the order they came in.
  lemma RankingKeepsTies(candidates: seq<Candidate>, scores: seq<real>, score: real)
    ensures Filter(Sort(Zip(candidates, scores), ByScore()), (x: Scored) => x.score == score)
         == Filter(Zip(candidates, scores), (x: Scored) => x.score == score)
  {
    SortStable(Zip(candidates, scores), ByScore(), (x: Scored) => x.score == score);
  }

  // What the band pass is given is in descending order of relevance.
  lemma RankingDescends(candidates: seq<Candidate>, scores: seq<real>)
    ensures Descending(Sort(Zip(candidates, scores), ByScore()))
    ensures multiset(Ranking(candidates, scores)) == multiset(Zip(candidates, scores))
  {
    ScoreOrder();
    SortSorted(Zip(candidates, scores), ByScore());
    PrioritizedPermutes(Sort(Zip(candidates, scores), ByScore()));
  }

  lemma NextBand(done: seq<Scored>, ranked: seq<Scored>, start: nat, end: nat)
    requires start < end <= |ranked| && BandEnd(ranked[start..], 1) == end - start
    ensures done + Prioritized(ranked[start..])
         == (done + Sort(ranked[start..end], VerifiedFirst())) + Prioritized(ranked[end..])
  {
    hide Sort, BandEnd;
    assert ranked[start..][..end - start] == ranked[start..end] && ranked[start..][end - start..] == ranked[end..];
  }

  method PrioritizeVerified(ranked: seq<Scored>) returns (prioritized: seq<Scored>)
    ensures prioritized == Prioritized(ranked)
  {
    hide Sort, Prioritized;
    prioritized := [];
    var start := 0;
    assert ranked[0..] == ranked && [] + Prioritized(ranked) == Prioritized(ranked);
    while start < |ranked|
      invariant start <= |ranked| && prioritized + Prioritized(ranked[start..]) == Prioritized(ranked)
    {
      var anchor := ranked[start];
      var tolerance := Abs(anchor.score) * BAND;
      var end := start + 1;
      while end < |ranked| && anchor.score - ranked[end].score <= tolerance
        invariant start < end <= |ranked|
        invariant BandEnd(ranked[start..], end - start) == BandEnd(ranked[start..], 1)
      {
        end := end + 1;
      }
      NextBand(prioritized, ranked, start, end);
      prioritized := prioritized + Sort(ranked[start..end], VerifiedFirst());
      start := end;
    }
    NoneLeft(ranked[start..]);
    assert prioritized + [] == prioritized;
  }

  lemma NoneLeft(ranked: seq<Scored>)
    ensures ranked == [] ==> Prioritized(ranked) == []
  {}

  // `titles` are the titles of the first `i` items.
  ghost predicate Seen(ranked: seq<Scored>, i: nat, titles: set<string>)
    requires i <= |ranked|
  {
    forall t :: t in titles <==> exists k :: 0 <= k < i && ranked[k].candidate.title == Some(t)
  }

  lemma SeenNext(ranked: seq<Scored>, i: nat, titles: set<string>)
    requires i < |ranked| && Seen(ranked, i, titles)
    ensures var title := ranked[i].candidate.title;
            && (Fresh(ranked[..i + 1], i) <==> title.None? || title.value !in titles)
            && Seen(ranked, i + 1, titles + if title.Some? then {title.value} else {})
  {
    var title := ranked[i].candidate.title;
    if title.Some? && title.value in titles {
      var k :| 0 <= k < i && ranked[k].candidate.title == title;
      assert ranked[..i + 1][k] == ranked[k];
    }
    var more := titles + if title.Some? then {title.value} else {};
    forall t ensures t in more <==> exists k :: 0 <= k < i + 1 && ranked[k].candidate.title == Some(t) {
      if t in titles {
        var k :| 0 <= k < i && ranked[k].candidate.title == Some(t);
      }
    }
  }

  lemma DiversifyNext(ranked: seq<Scored>, i: nat, room: nat)
    requires i < |ranked|
    ensures var was, others := Take(FreshItems(ranked[..i]), room), OtherItems(ranked[..i], room);
            var now, left := Take(FreshItems(ranked[..i + 1]), room), OtherItems(ranked[..i + 1], room);
            if Fresh(ranked[..i + 1], i) && |was| < room then now == was + [ranked[i]] && left == others
            else now == was && left == others + [ranked[i]]
  {
    hide Fresh;
    var part := ranked[..i + 1];
    assert part[..i] == ranked[..i] && part[i] == ranked[i];
    var before, others := FreshItems(ranked[..i]), OtherItems(ranked[..i], room);
    TakeMore(before, ranked[i], room);
    assert before + [] == before && others + [] == others;
  }

  lemma DiversifyStart(ranked: seq<Scored>, room: nat)
    ensures Take(FreshItems(ranked[..0]), room) == [] == OtherItems(ranked[..0], room) && Seen(ranked, 0, {})
  {}

  // Positions are kept beside deferred items and sorted on at the end.
  method Diversify(ranked: seq<Scored>, top: nat, room: nat) returns (results: seq<Scored>)
    ensures results == Diversified(ranked, top, room)
  {
    hide FreshItems, OtherItems, Fresh, Seen, Sort, Items, Ascending, Take;
    var primary: seq<Scored> := [];
    var deferred: seq<(nat, Scored)> := [];
    var seenTitles: set<string> := {};
    var i := 0;
    DiversifyStart(ranked, room);
    NoneDeferred();
    while i < |ranked|
      invariant i <= |ranked| && Seen(ranked, i, seenTitles)
      invariant primary == Take(FreshItems(ranked[..i]), room)
      invariant Items(deferred) == OtherItems(ranked[..i], room)
      invariant Ascending(deferred, i)
    {
      var item := ranked[i];
      var title := item.candidate.title;
      SeenNext(ranked, i, seenTitles);
      DiversifyNext(ranked, i, room);
      Defer(deferred, i, item);
      if title.Some? && |primary| < room && title.value in seenTitles {
        assert seenTitles + {title.value} == seenTitles;
        deferred := deferred + [(i, item)];
      } else {
        seenTitles := seenTitles + if title.Some? then {title.value} else {};
        if |primary| < room {
          primary := primary + [item];
        } else {
          deferred := deferred + [(i, item)];
        }
      }
      i := i + 1;
    }
    assert ranked[..i] == ranked;
    DeferredSorted(deferred, i);
    results := Take(primary + Items(Sort(deferred, ByPosition())), top);
  }

  function ByPosition(): ((nat, Scored), (nat, Scored)) -> bool { (x: (nat, Scored), y: (nat, Scored)) => x.0 < y.0 }

  function Items(s: seq<(nat, Scored)>): seq<Scored> { if s == [] then [] else Items(s[..|s| - 1]) + [s[|s| - 1].1] }

  lemma NoneDeferred()
    ensures Items([]) == [] && Ascending([], 0)
  {}

  lemma Defer(s: seq<(nat, Scored)>, i: nat, x: Scored)
    requires Ascending(s, i)
    ensures Items(s + [(i, x)]) == Items(s) + [x]
    ensures Ascending(s, i + 1) && Ascending(s + [(i, x)], i + 1)
  {
    assert (s + [(i, x)])[..|s|] == s;
  }

  lemma DeferredSorted(s: seq<(nat, Scored)>, bound: nat)
    requires Ascending(s, bound)
    ensures Sort(s, ByPosition()) == s
  {
    SortOfSorted(s, ByPosition());
  }

  predicate Ascending(s: seq<(nat, Scored)>, bound: nat) {
    && (forall i :: 0 <= i < |s| ==> s[i].0 < bound)
    && (forall i, j :: 0 <= i < j < |s| ==> s[i].0 < s[j].0)
  }

  method Rerank(candidates: seq<Candidate>, scores: seq<real>, top: nat, room: Option<nat>) returns (results: seq<Scored>)
    ensures results == Diversified(Ranking(candidates, scores), top, if room.None? then top else room.value)
  {
    if candidates == [] {
      NothingRanked(scores, top, if room.None? then top else room.value);
      return [];
    }
    var ranked := Sort(Zip(candidates, scores), ByScore());
    ranked := PrioritizeVerified(ranked);
    results := Diversify(ranked, top, if room.None? then top else room.value);
  }

  lemma NothingRanked(scores: seq<real>, top: nat, room: nat)
    ensures Diversified(Ranking([], scores), top, room) == []
  {}
}
