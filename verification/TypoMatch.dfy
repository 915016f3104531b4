// The catalogue typo matcher of src/search/planner_catalog.py, built on the edit distance.
module TypoMatch {
  import EditDistance
  import Sorting
  import opened Wrappers

  // Scores are kept in hundredths: 98, 96 and 94 for zero, one and two edits, 92 for an
  // abbreviation, 0 for no match.
  type Score = nat

  // The source compares `first - second < 0.04` on IEEE doubles. Over its four scores that is
  // integer comparison with one exception: 0.96 - 0.92 comes out just below 0.04.
  predicate TooClose(first: Score, second: Score) {
    first < second + 4 || (first == 96 && second == 92)
  }

  predicate ScoreValue(s: Score) { s in {0, 92, 94, 96, 98} }

  lemma CloseScores(x: Score, y: Score)
    requires ScoreValue(x) && ScoreValue(y) && x > 0 && y > 0
    ensures TooClose(x, y) <==> !(x == 98 && y <= 94)
  {}

  // ---- ordered_subsequence ----

  predicate OrderedSubsequence(shorter: string, longer: string) {
    if shorter == "" then true
    else if longer == "" then false
    else if shorter[0] == longer[0] then OrderedSubsequence(shorter[1..], longer[1..])
    else OrderedSubsequence(shorter, longer[1..])
  }

  ghost predicate Embeds(at: seq<nat>, shorter: string, longer: string) {
    && |at| == |shorter|
    && (forall i :: 0 <= i < |at| ==> at[i] < |longer| && longer[at[i]] == shorter[i])
    && (forall i, j :: 0 <= i < j < |at| ==> at[i] < at[j])
  }

  lemma {:induction false} EmbeddingFound(at: seq<nat>, shorter: string, longer: string)
    requires Embeds(at, shorter, longer)
    ensures OrderedSubsequence(shorter, longer)
    decreases |longer|
  {
    if shorter != "" {
      assert at[0] < |longer|;
      var down := seq(|at|, i requires 0 <= i < |at| => if at[i] > 0 then at[i] - 1 else 0);
      if shorter[0] == longer[0] {
        assert forall i :: 0 < i < |at| ==> at[0] < at[i];
        EmbeddingFound(down[1..], shorter[1..], longer[1..]);
      } else {
        assert forall i :: 0 <= i < |at| ==> at[0] <= at[i];
        EmbeddingFound(down, shorter, longer[1..]);
      }
    }
  }

  function Up(at: seq<nat>): (r: seq<nat>)
    ensures |r| == |at| && forall i :: 0 <= i < |at| ==> r[i] == at[i] + 1
  {
    seq(|at|, i requires 0 <= i < |at| => at[i] + 1)
  }

  lemma EmbeddingUp(at: seq<nat>, shorter: string, longer: string)
    requires longer != "" && Embeds(at, shorter, longer[1..])
    ensures Embeds(Up(at), shorter, longer)
  {}

  lemma EmbeddingCons(at: seq<nat>, shorter: string, longer: string)
    requires shorter != "" && longer != "" && shorter[0] == longer[0]
    requires Embeds(at, shorter[1..], longer[1..])
    ensures Embeds([0] + Up(at), shorter, longer)
  {
    var r := [0] + Up(at);
    assert forall i :: 0 < i < |r| ==> r[i] == at[i - 1] + 1;
    forall i | 0 <= i < |r| ensures r[i] < |longer| && longer[r[i]] == shorter[i] {
      if i > 0 { assert longer[r[i]] == longer[1..][at[i - 1]] == shorter[1..][i - 1]; }
    }
  }

  lemma {:induction false} EmbeddingExists(shorter: string, longer: string) returns (at: seq<nat>)
    requires OrderedSubsequence(shorter, longer)
    ensures Embeds(at, shorter, longer)
    decreases |longer|
  {
    if shorter == "" {
      at := [];
    } else if shorter[0] == longer[0] {
      var rest := EmbeddingExists(shorter[1..], longer[1..]);
      EmbeddingCons(rest, shorter, longer);
      at := [0] + Up(rest);
    } else {
      var rest := EmbeddingExists(shorter, longer[1..]);
      EmbeddingUp(rest, shorter, longer);
      at := Up(rest);
    }
  }

  // The greedy scan accepts exactly the subsequences.
  lemma SubsequenceExact(shorter: string, longer: string)
    ensures OrderedSubsequence(shorter, longer) <==> exists at :: Embeds(at, shorter, longer)
  {
    if OrderedSubsequence(shorter, longer) {
      var at := EmbeddingExists(shorter, longer);
    }
    forall at | Embeds(at, shorter, longer) ensures OrderedSubsequence(shorter, longer) {
      EmbeddingFound(at, shorter, longer);
    }
  }

  // ---- Scoring one candidate ----

  function Max(x: nat, y: nat): nat { if x >= y then x else y }

  function VariantScore(variant: string, candidate: string): (s: Score)
    ensures ScoreValue(s)
  {
    var gap := |variant| - |candidate|;
    if gap > 3 || -gap > 3 then 0
    else
      var distance := EditDistance.Distance(variant, candidate);
      var maxEdits := if Max(|variant|, |candidate|) <= 5 then 1 else 2;
      var typo := if distance <= maxEdits then 98 - 2 * distance else 0;
      var abbreviation :=
        if |variant| >= 3 && 1 <= -gap < 4 && variant[..2] == candidate[..2]
           && variant[|variant| - 1] == candidate[|candidate| - 1]
           && OrderedSubsequence(variant, candidate) then 92 else 0;
      Max(typo, abbreviation)
  }

  // An abbreviation: two first letters and the last kept, one to three letters left out in between.
  ghost predicate Abbreviates(short: string, long: string) {
    && 3 <= |short| < |long| <= |short| + 3
    && short[0] == long[0] && short[1] == long[1] && short[|short| - 1] == long[|long| - 1]
    && exists at :: Embeds(at, short, long)
  }

  // The score of a candidate: by its distance, of which a second edit counts only beside a name of more
  // than five letters; otherwise 92 for an abbreviation.
  lemma VariantScoreIs(variant: string, candidate: string)
    ensures var distance := EditDistance.Distance(variant, candidate);
            VariantScore(variant, candidate) ==
              if distance == 0 then 98
              else if distance == 1 then 96
              else if distance == 2 && (|variant| > 5 || |candidate| > 5) then 94
              else if Abbreviates(variant, candidate) then 92
              else 0
  {
    hide EditDistance.Distance, OrderedSubsequence;
    DistanceBoundsGap(variant, candidate);
    SubsequenceExact(variant, candidate);
    if |variant| >= 3 && |candidate| >= 3 {
      assert variant[..2] == [variant[0], variant[1]] && candidate[..2] == [candidate[0], candidate[1]];
    }
  }

  lemma DistanceBoundsGap(a: string, b: string)
    ensures EditDistance.Distance(a, b) >= |a| - |b| && EditDistance.Distance(a, b) >= |b| - |a|
  {
    EditDistance.LengthBounds(a, |a|, b, |b|);
  }

  function Variants(normalized: string): seq<string> {
    if |normalized| > 3 && normalized[|normalized| - 1] == 's'
    then [normalized, normalized[..|normalized| - 1]]
    else [normalized]
  }

  function BestVariant(variants: seq<string>, candidate: string): (s: Score)
    ensures ScoreValue(s)
  {
    if variants == [] then 0
    else Max(BestVariant(variants[..|variants| - 1], candidate),
             VariantScore(variants[|variants| - 1], candidate))
  }

  // A catalogue item is a normalised key and the value shown to the user.
  type Item = (string, string)

  datatype Query = Query(text: string, singleTokenOnly: bool, norm: string -> string) {
    function Normalized(): string { norm(text) }

    function ItemScore(item: Item): (s: Score)
      ensures ScoreValue(s)
    {
      if singleTokenOnly && ' ' in item.0 then 0
      else BestVariant(Variants(Normalized()), item.0)
    }

    // An item scores as its key does against the text or, from four letters on, against the text
    // without its last s; keys of several words score nothing where one word is wanted.
    lemma ItemScoreIs(item: Item)
      ensures var n := Normalized();
              var whole := VariantScore(n, item.0);
              ItemScore(item) ==
                if singleTokenOnly && (exists i :: 0 <= i < |item.0| && item.0[i] == ' ') then 0
                else if |n| >= 4 && n[|n| - 1] == 's' && VariantScore(n[..|n| - 1], item.0) > whole
                then VariantScore(n[..|n| - 1], item.0) else whole
    {
      hide VariantScore;
      var n := Normalized();
      var one := [n];
      assert |one[..0]| == 0 && BestVariant(one, item.0) == VariantScore(n, item.0);
      if |n| > 3 && n[|n| - 1] == 's' {
        assert [n, n[..|n| - 1]][..1] == one;
      }
    }

    // The best score any item gives the identity `id`.
    function Best(items: seq<Item>, id: string): (s: Score)
      ensures ScoreValue(s)
    {
      if items == [] then 0
      else
        var last := items[|items| - 1];
        var before := Best(items[..|items| - 1], id);
        if norm(last.1) == id then Max(before, ItemScore(last)) else before
    }

    // `id` wins when it matches and every other matching identity is clearly worse.
    ghost predicate Wins(items: seq<Item>, id: string, s: Score) {
      && s == Best(items, id) > 0
      && forall other {:trigger Best(items, other)} ::
           other != id && Best(items, other) > 0 ==> !TooClose(s, Best(items, other))
    }

    ghost predicate Answers(items: seq<Item>, r: Option<(string, Score)>) {
      if |Normalized()| < 3 then r == None
      else match r
        case None => forall id, s :: !Wins(items, id, s)
        case Some((actual, s)) => Wins(items, norm(actual), s) && Shown(items, actual, s)
    }

    // `actual` is the value of the first item that gives its identity the score `s`.
    ghost predicate Shown(items: seq<Item>, actual: string, s: Score) {
      exists i :: 0 <= i < |items| && ShownAt(items, i, actual, s)
    }

    ghost predicate ShownAt(items: seq<Item>, i: nat, actual: string, s: Score)
      requires i < |items|
    {
      && items[i].1 == actual && ItemScore(items[i]) == s
      && forall k :: 0 <= k < i && norm(items[k].1) == norm(actual) ==> ItemScore(items[k]) < s
    }

    // An exact match wins over anything two edits away or more; any other match wins only alone.
    lemma WinsIff(items: seq<Item>, id: string, s: Score)
      ensures Wins(items, id, s) <==>
                && s == Best(items, id) > 0
                && forall other :: other != id ==> Best(items, other) == 0 || (s == 98 && Best(items, other) <= 94)
    {
      hide Best, TooClose;
      var best := Best(items, id);
      if s == best > 0 {
        forall other ensures Best(items, other) > 0 ==> (TooClose(s, Best(items, other)) <==> !(s == 98 && Best(items, other) <= 94)) {
          if Best(items, other) > 0 { CloseScores(s, Best(items, other)); }
        }
        if Wins(items, id, s) {
          forall other | other != id ensures Best(items, other) == 0 || (s == 98 && Best(items, other) <= 94) {}
        } else {
          var other :| other != id && Best(items, other) > 0 && TooClose(s, Best(items, other));
          assert !(s == 98 && Best(items, other) <= 94);
          assert Best(items, other) != 0;
        }
      }
    }

    lemma {:induction false} BestIsMaximum(items: seq<Item>, id: string)
      ensures forall x :: x in items && norm(x.1) == id ==> ItemScore(x) <= Best(items, id)
      ensures Best(items, id) > 0 ==>
                exists x :: x in items && norm(x.1) == id && ItemScore(x) == Best(items, id)
    {
      if items != [] {
        var front, last := items[..|items| - 1], items[|items| - 1];
        assert items == front + [last];
        BestIsMaximum(front, id);
      }
    }

    lemma BestIgnoresOrder(items: seq<Item>, shuffled: seq<Item>, id: string)
      requires multiset(items) == multiset(shuffled)
      ensures Best(items, id) == Best(shuffled, id)
    {
      BestIsMaximum(items, id);
      BestIsMaximum(shuffled, id);
      assert forall x :: x in items <==> x in multiset(items);
      assert forall x :: x in shuffled <==> x in multiset(shuffled);
    }

    // The identity and score chosen do not depend on the catalogue's order.
    lemma OrderIndependent(items: seq<Item>, r: Option<(string, Score)>,
                           shuffled: seq<Item>, r': Option<(string, Score)>)
      requires multiset(items) == multiset(shuffled)
      requires Answers(items, r) && Answers(shuffled, r')
      ensures r.None? <==> r'.None?
      ensures r.Some? ==> norm(r.value.0) == norm(r'.value.0) && r.value.1 == r'.value.1
    {
      forall id ensures Best(items, id) == Best(shuffled, id) {
        BestIgnoresOrder(items, shuffled, id);
      }
      if r.Some? { assert Wins(shuffled, norm(r.value.0), r.value.1); }
      if r'.Some? { assert Wins(items, norm(r'.value.0), r'.value.1); }
    }
  }

  // ---- The matcher ----

  // One entry of the `candidates` dictionary, which keeps first-insertion order.
  datatype Entry = Entry(identity: string, actual: string, score: Score)

  predicate RanksBefore(x: Entry, y: Entry) {
    x.score > y.score || (x.score == y.score && |x.actual| < |y.actual|)
  }

  function Ranks(): (Entry, Entry) -> bool { (x: Entry, y: Entry) => RanksBefore(x, y) }

  ghost predicate Distinct(entries: seq<Entry>) {
    forall i, j :: 0 <= i < j < |entries| ==> entries[i].identity != entries[j].identity
  }

  ghost predicate Right(e: Entry, q: Query, items: seq<Item>) {
    e.score == q.Best(items, e.identity) > 0 && q.norm(e.actual) == e.identity && q.Shown(items, e.actual, e.score)
  }

  ghost predicate Listed(entries: seq<Entry>, id: string) {
    exists i :: 0 <= i < |entries| && entries[i].identity == id
  }

  // The dictionary after reading `items`: one entry per matching identity, with its best score.
  ghost predicate Tallies(entries: seq<Entry>, q: Query, items: seq<Item>) {
    && Distinct(entries)
    && (forall i :: 0 <= i < |entries| ==> Right(entries[i], q, items))
    && (forall id :: q.Best(items, id) > 0 ==> Listed(entries, id))
  }

  lemma BestAfter(q: Query, items: seq<Item>, item: Item, id: string)
    ensures q.Best(items + [item], id)
         == if q.norm(item.1) == id then Max(q.Best(items, id), q.ItemScore(item)) else q.Best(items, id)
  {
    assert (items + [item])[..|items|] == items;
  }

  function IndexOf(entries: seq<Entry>, identity: string): (i: nat)
    ensures i <= |entries|
    ensures i < |entries| ==> entries[i].identity == identity
    ensures forall k :: 0 <= k < i ==> entries[k].identity != identity
  {
    if entries == [] || entries[0].identity == identity then 0
    else 1 + IndexOf(entries[1..], identity)
  }

  // candidates.get(identity), then the conditional assignment.
  function Recorded(entries: seq<Entry>, identity: string, actual: string, score: Score): seq<Entry> {
    var i := IndexOf(entries, identity);
    if i == |entries| then entries + [Entry(identity, actual, score)]
    else if score > entries[i].score then entries[i := Entry(identity, actual, score)]
    else entries
  }

  lemma SkippedTallies(entries: seq<Entry>, q: Query, items: seq<Item>, item: Item)
    requires Tallies(entries, q, items) && q.ItemScore(item) == 0
    ensures Tallies(entries, q, items + [item])
  {
    hide q.Best, q.ItemScore, Distinct, q.Shown;
    forall id ensures q.Best(items + [item], id) == q.Best(items, id) {
      BestAfter(q, items, item, id);
    }
    forall i | 0 <= i < |entries| ensures Right(entries[i], q, items + [item]) {
      assert Right(entries[i], q, items);
      StillShown(q, items, item, entries[i].actual, entries[i].score);
    }
  }

  lemma StillShown(q: Query, items: seq<Item>, item: Item, actual: string, s: Score)
    requires q.Shown(items, actual, s)
    ensures q.Shown(items + [item], actual, s)
  {
    hide q.ItemScore;
    var i :| 0 <= i < |items| && q.ShownAt(items, i, actual, s);
    assert forall k :: 0 <= k < |items| ==> (items + [item])[k] == items[k];
    assert q.ShownAt(items + [item], i, actual, s);
  }

  lemma NowShown(q: Query, items: seq<Item>, item: Item)
    requires q.ItemScore(item) > q.Best(items, q.norm(item.1))
    ensures q.Shown(items + [item], item.1, q.ItemScore(item))
  {
    hide q.ItemScore, q.Best;
    q.BestIsMaximum(items, q.norm(item.1));
    assert forall k :: 0 <= k < |items| ==> (items + [item])[k] == items[k] && items[k] in items;
    assert q.ShownAt(items + [item], |items|, item.1, q.ItemScore(item));
  }

  lemma RecordedDistinct(entries: seq<Entry>, identity: string, actual: string, score: Score)
    requires Distinct(entries)
    ensures Distinct(Recorded(entries, identity, actual, score))
  {}

  lemma RecordedTallies(entries: seq<Entry>, q: Query, items: seq<Item>, item: Item)
    requires Tallies(entries, q, items) && q.ItemScore(item) > 0
    ensures Tallies(Recorded(entries, q.norm(item.1), item.1, q.ItemScore(item)), q, items + [item])
  {
    hide q.Best, q.ItemScore, q.Shown;
    var identity, score := q.norm(item.1), q.ItemScore(item);
    var r := Recorded(entries, identity, item.1, score);
    RecordedDistinct(entries, identity, item.1, score);
    forall id ensures q.Best(items + [item], id)
                   == if identity == id then Max(q.Best(items, id), score) else q.Best(items, id)
    { BestAfter(q, items, item, id); }
    var at := IndexOf(entries, identity);
    assert at < |entries| ==> Right(entries[at], q, items);
    assert q.Best(items, identity) > 0 ==> Listed(entries, identity);
    forall i | 0 <= i < |r| ensures Right(r[i], q, items + [item]) {
      if i < |entries| {
        assert Right(entries[i], q, items);
        StillShown(q, items, item, entries[i].actual, entries[i].score);
      }
      if score > q.Best(items, identity) { NowShown(q, items, item); }
    }
    forall id | q.Best(items + [item], id) > 0 ensures Listed(r, id) {
      if id == identity {
        assert r[at].identity == id;
      } else {
        assert Listed(entries, id);
        var k :| 0 <= k < |entries| && entries[k].identity == id;
        assert r[k].identity == id;
      }
    }
  }

  lemma TopTwoDecide(q: Query, items: seq<Item>, entries: seq<Entry>, ranked: seq<Entry>)
    requires Tallies(entries, q, items)
    requires multiset(ranked) == multiset(entries) && Sorting.Sorted(ranked, Ranks())
    ensures ranked != [] ==> q.Shown(items, ranked[0].actual, ranked[0].score)
    ensures ranked == [] || (|ranked| > 1 && TooClose(ranked[0].score, ranked[1].score)) ==>
              forall id, s :: !q.Wins(items, id, s)
    ensures ranked != [] && !(|ranked| > 1 && TooClose(ranked[0].score, ranked[1].score)) ==>
              q.Wins(items, q.norm(ranked[0].actual), ranked[0].score)
  {
    hide q.Best, q.Shown;
    RankedTallies(q, items, entries, ranked);
    forall i | 0 < i < |ranked| ensures ranked[i].score <= ranked[if i > 1 then 1 else 0].score {
      assert !Ranks()(ranked[i], ranked[if i > 1 then 1 else 0]);
    }
    forall id, s | q.Wins(items, id, s) ensures ranked != [] && ranked[0].identity == id {
      var k :| 0 <= k < |ranked| && ranked[k].identity == id;
      assert Right(ranked[0], q, items) && Right(ranked[k], q, items);
      assert ranked[0].identity != id ==> TooClose(s, ranked[0].score);
    }
    forall other | ranked != [] && other != ranked[0].identity && q.Best(items, other) > 0
      ensures |ranked| > 1 && q.Best(items, other) <= ranked[1].score
    {
      assert Listed(ranked, other);
      var k :| 0 <= k < |ranked| && ranked[k].identity == other;
      assert Right(ranked[k], q, items);
    }
    if |ranked| > 1 { assert Right(ranked[1], q, items); }
    if ranked != [] { assert Right(ranked[0], q, items); }
  }

  lemma RankedTallies(q: Query, items: seq<Item>, entries: seq<Entry>, ranked: seq<Entry>)
    requires Tallies(entries, q, items) && multiset(ranked) == multiset(entries)
    ensures Tallies(ranked, q, items)
  {
    hide q.Best, q.Shown;
    forall i | 0 <= i < |ranked| ensures Right(ranked[i], q, items) {
      assert ranked[i] in multiset(entries);
    }
    forall id | q.Best(items, id) > 0 ensures Listed(ranked, id) {
      var k :| 0 <= k < |entries| && entries[k].identity == id;
      assert entries[k] in multiset(ranked);
    }
    PermutedDistinct(entries, ranked);
  }

  lemma {:induction false} PermutedDistinct(entries: seq<Entry>, ranked: seq<Entry>)
    requires Distinct(entries) && multiset(ranked) == multiset(entries)
    ensures Distinct(ranked)
  {
    forall i, j | 0 <= i < j < |ranked| ensures ranked[i].identity != ranked[j].identity {
      assert ranked[i] in multiset(entries) && ranked[j] in multiset(entries);
      var k :| 0 <= k < |entries| && entries[k] == ranked[i];
      var l :| 0 <= l < |entries| && entries[l] == ranked[j];
      if k == l {
        Twice(ranked, i, j);
        Once(entries, k);
        assert false;
      }
    }
  }

  lemma Twice(s: seq<Entry>, i: nat, j: nat)
    requires i < j < |s| && s[i] == s[j]
    ensures multiset(s)[s[i]] >= 2
  {
    assert s == s[..j] + [s[j]] + s[j + 1..];
    assert s[..j][i] == s[i];
  }

  lemma Once(s: seq<Entry>, k: nat)
    requires k < |s| && Distinct(s)
    ensures multiset(s)[s[k]] == 1
  {
    assert s == s[..k] + [s[k]] + s[k + 1..];
  }

  lemma NothingTallied(q: Query)
    ensures Tallies([], q, [])
  {}

  method TypoCatalogMatch(q: Query, items: seq<Item>) returns (r: Option<(string, Score)>)
    ensures q.Answers(items, r)
  {
    hide q.Best, q.ItemScore, Distinct, q.Shown;
    if |q.Normalized()| < 3 { return None; }
    var entries := [];
    NothingTallied(q);
    var i := 0;
    assert items[..0] == [];
    while i < |items|
      invariant i <= |items| && Tallies(entries, q, items[..i])
    {
      var score := q.ItemScore(items[i]);
      if score == 0 {
        SkippedTallies(entries, q, items[..i], items[i]);
      } else {
        RecordedTallies(entries, q, items[..i], items[i]);
        entries := Recorded(entries, q.norm(items[i].1), items[i].1, score);
      }
      assert items[..i] + [items[i]] == items[..i + 1];
      i := i + 1;
    }
    assert items[..i] == items;
    var ranked := Sorting.Sort(entries, Ranks());
    Sorting.SortSorted(entries, Ranks());
    TopTwoDecide(q, items, entries, ranked);
    if ranked == [] { return None; }
    if |ranked| > 1 && TooClose(ranked[0].score, ranked[1].score) { return None; }
    r := Some((ranked[0].actual, ranked[0].score));
  }
}
