// Levenshtein distance of src/search/planner_catalog.py: the two-row loop, the edit
// scripts it counts, and the proof that the number it returns is a metric.
module EditDistance {

  function Min(x: nat, y: nat): nat { if x <= y then x else y }

  // ---- The recurrence the loop tabulates, on the prefixes a[..i] and b[..j] ----

  function Cost(x: char, y: char): nat { if x == y then 0 else 1 }

  function Lev(a: string, i: nat, b: string, j: nat): nat
    requires i <= |a| && j <= |b|
    decreases i + j
  {
    if i == 0 then j
    else if j == 0 then i
    else Min(Min(Lev(a, i, b, j - 1) + 1, Lev(a, i - 1, b, j) + 1),
             Lev(a, i - 1, b, j - 1) + Cost(a[i - 1], b[j - 1]))
  }

  function Distance(a: string, b: string): nat { Lev(a, |a|, b, |b|) }

  // The recurrence as a fact of its own, so that proofs can hide the function's body.
  lemma LevAt(a: string, i: nat, b: string, j: nat)
    requires 0 < i <= |a| && 0 < j <= |b|
    ensures Lev(a, i, b, j) == Min(Min(Lev(a, i, b, j - 1) + 1, Lev(a, i - 1, b, j) + 1),
                                   Lev(a, i - 1, b, j - 1) + Cost(a[i - 1], b[j - 1]))
  {}

  lemma LevEdge(a: string, i: nat, b: string, j: nat)
    requires i <= |a| && j <= |b| && (i == 0 || j == 0)
    ensures Lev(a, i, b, j) == i + j
  {}

  // ---- Edit scripts: any sequence of single-character edits, in any order ----

  datatype Edit = Insert(at: nat, c: char) | Delete(at: nat) | Substitute(at: nat, c: char)

  predicate Fits(e: Edit, s: string) {
    match e
    case Insert(at, _) => at <= |s|
    case Delete(at) => at < |s|
    case Substitute(at, _) => at < |s|
  }

  function Apply(e: Edit, s: string): string
    requires Fits(e, s)
  {
    match e
    case Insert(at, c) => s[..at] + [c] + s[at..]
    case Delete(at) => s[..at] + s[at + 1..]
    case Substitute(at, c) => s[..at] + [c] + s[at + 1..]
  }

  predicate Turns(script: seq<Edit>, s: string, t: string) {
    if script == [] then s == t
    else Fits(script[0], s) && Turns(script[1..], Apply(script[0], s), t)
  }

  // ---- The distance is a metric ----

  lemma {:induction false} ZeroOnlyOnEqual(a: string, i: nat, b: string, j: nat)
    requires i <= |a| && j <= |b|
    ensures Lev(a, i, b, j) == 0 <==> a[..i] == b[..j]
    decreases i + j
  {
    hide Lev;
    if i == 0 || j == 0 {
      LevEdge(a, i, b, j);
    } else {
      LevAt(a, i, b, j);
      ZeroOnlyOnEqual(a, i - 1, b, j - 1);
      assert a[..i] == a[..i - 1] + [a[i - 1]] && b[..j] == b[..j - 1] + [b[j - 1]];
      if a[..i] == b[..j] {
        assert a[..i][i - 1] == b[..j][j - 1];
        assert a[..i][..i - 1] == a[..i - 1] && b[..j][..j - 1] == b[..j - 1];
      }
    }
  }

  lemma {:induction false} LevSymmetric(a: string, i: nat, b: string, j: nat)
    requires i <= |a| && j <= |b|
    ensures Lev(a, i, b, j) == Lev(b, j, a, i)
    decreases i + j
  {
    hide Lev;
    if i == 0 || j == 0 {
      LevEdge(a, i, b, j);
      LevEdge(b, j, a, i);
    } else {
      LevAt(a, i, b, j);
      LevAt(b, j, a, i);
      LevSymmetric(a, i - 1, b, j);
      LevSymmetric(a, i, b, j - 1);
      LevSymmetric(a, i - 1, b, j - 1);
    }
  }

  // Dropping a last character costs at most one edit.
  lemma DropLast(a: string, i: nat, b: string, j: nat)
    requires i <= |a| && j <= |b|
    ensures i > 0 ==> Lev(a, i, b, j) <= Lev(a, i - 1, b, j) + 1
    ensures j > 0 ==> Lev(a, i, b, j) <= Lev(a, i, b, j - 1) + 1
    ensures i > 0 && j > 0 ==>
              Lev(a, i, b, j) <= Lev(a, i - 1, b, j - 1) + Cost(a[i - 1], b[j - 1])
  {
    hide Lev;
    if i > 0 && j > 0 {
      LevAt(a, i, b, j);
    } else {
      LevEdge(a, i, b, j);
      if i > 0 { LevEdge(a, i - 1, b, j); }
      if j > 0 { LevEdge(a, i, b, j - 1); }
    }
  }

  lemma {:induction false} LengthBounds(a: string, i: nat, b: string, j: nat)
    requires i <= |a| && j <= |b|
    ensures i - j <= Lev(a, i, b, j) <= i + j
    ensures j - i <= Lev(a, i, b, j)
    decreases i + j
  {
    hide Lev;
    if i == 0 || j == 0 {
      LevEdge(a, i, b, j);
    } else {
      LevAt(a, i, b, j);
      LengthBounds(a, i - 1, b, j);
      LengthBounds(a, i, b, j - 1);
      LengthBounds(a, i - 1, b, j - 1);
    }
  }

  // By cases on the last step of an optimal alignment of (a, b) and of (b, c).
  lemma {:induction false} LevTriangle(a: string, i: nat, b: string, j: nat, c: string, k: nat)
    requires i <= |a| && j <= |b| && k <= |c|
    ensures Lev(a, i, c, k) <= Lev(a, i, b, j) + Lev(b, j, c, k)
    decreases i + j + k
  {
    hide Lev;
    if i == 0 || j == 0 || k == 0 {
      LengthBounds(a, i, b, j);
      LengthBounds(b, j, c, k);
      LengthBounds(a, i, c, k);
      if i == 0 || k == 0 { LevEdge(a, i, c, k); }
      if i == 0 || j == 0 { LevEdge(a, i, b, j); }
      if j == 0 || k == 0 { LevEdge(b, j, c, k); }
    } else {
      DropLast(a, i, c, k);
      LevAt(a, i, b, j);
      LevAt(b, j, c, k);
      var ab, bc := Lev(a, i, b, j), Lev(b, j, c, k);
      if ab == Lev(a, i - 1, b, j) + 1 {
        LevTriangle(a, i - 1, b, j, c, k);
      } else if bc == Lev(b, j, c, k - 1) + 1 {
        LevTriangle(a, i, b, j, c, k - 1);
      } else if ab == Lev(a, i, b, j - 1) + 1 {
        if bc == Lev(b, j - 1, c, k) + 1 {
          LevTriangle(a, i, b, j - 1, c, k);
        } else {
          LevTriangle(a, i, b, j - 1, c, k - 1);
        }
      } else if bc == Lev(b, j - 1, c, k) + 1 {
        LevTriangle(a, i - 1, b, j - 1, c, k);
      } else {
        LevTriangle(a, i - 1, b, j - 1, c, k - 1);
      }
    }
  }

  lemma Metric(a: string, b: string, c: string)
    ensures Distance(a, b) == 0 <==> a == b
    ensures Distance(a, b) == Distance(b, a)
    ensures Distance(a, c) <= Distance(a, b) + Distance(b, c)
  {
    hide Lev;
    ZeroOnlyOnEqual(a, |a|, b, |b|);
    assert a[..|a|] == a && b[..|b|] == b;
    LevSymmetric(a, |a|, b, |b|);
    LevTriangle(a, |a|, b, |b|, c, |c|);
  }

  // ---- No script is shorter ----

  // Appending the same suffix to both prefixes never increases the distance.
  lemma {:induction false} SameSuffix(a: string, i: nat, b: string, j: nat, n: nat)
    requires i + n <= |a| && j + n <= |b| && a[i..i + n] == b[j..j + n]
    ensures Lev(a, i + n, b, j + n) <= Lev(a, i, b, j)
    decreases n
  {
    hide Lev;
    if n > 0 {
      assert a[i..i + n][n - 1] == b[j..j + n][n - 1];
      assert a[i..i + n][..n - 1] == a[i..i + n - 1] && b[j..j + n][..n - 1] == b[j..j + n - 1];
      SameSuffix(a, i, b, j, n - 1);
      DropLast(a, i + n, b, j + n);
    }
  }

  lemma OneEdit(e: Edit, s: string)
    requires Fits(e, s)
    ensures Distance(s, Apply(e, s)) <= 1
  {
    hide Lev;
    var t, at := Apply(e, s), e.at;
    ZeroOnlyOnEqual(s, at, t, at);
    assert s[..at] == t[..at];
    var si := if e.Insert? then at else at + 1;
    var ti := if e.Delete? then at else at + 1;
    DropLast(s, si, t, ti);
    assert s[si..si + (|s| - si)] == t[ti..ti + (|s| - si)];
    SameSuffix(s, si, t, ti, |s| - si);
  }

  lemma {:induction false} NoShorterScript(script: seq<Edit>, s: string, t: string)
    requires Turns(script, s, t)
    ensures Distance(s, t) <= |script|
  {
    if script == [] {
      Metric(s, t, t);
    } else {
      var mid := Apply(script[0], s);
      NoShorterScript(script[1..], mid, t);
      OneEdit(script[0], s);
      Metric(s, mid, t);
    }
  }

  // ---- A script of exactly that length exists ----

  function Script(a: string, i: nat, b: string, j: nat): (r: seq<Edit>)
    requires i <= |a| && j <= |b|
    ensures |r| == Lev(a, i, b, j)
    decreases i + j
  {
    if i == 0 && j == 0 then []
    else if j > 0 && (i == 0 || Lev(a, i, b, j) == Lev(a, i, b, j - 1) + 1) then
      [Insert(i, b[j - 1])] + Script(a, i, b, j - 1)
    else if j == 0 || Lev(a, i, b, j) == Lev(a, i - 1, b, j) + 1 then
      [Delete(i - 1)] + Script(a, i - 1, b, j)
    else if a[i - 1] == b[j - 1] then Script(a, i - 1, b, j - 1)
    else [Substitute(i - 1, b[j - 1])] + Script(a, i - 1, b, j - 1)
  }

  lemma TurnsCons(e: Edit, script: seq<Edit>, s: string, t: string)
    requires Fits(e, s) && Turns(script, Apply(e, s), t)
    ensures Turns([e] + script, s, t)
  {
    assert ([e] + script)[1..] == script;
  }

  // The edit at the seam between the unfinished prefix and the finished rest.
  lemma SeamEdits(p: string, rest: string, c: char)
    ensures Apply(Insert(|p|, c), p + rest) == p + ([c] + rest)
    ensures p != "" ==> Apply(Delete(|p| - 1), p + rest) == p[..|p| - 1] + rest
    ensures p != "" ==> Apply(Substitute(|p| - 1, c), p + rest) == p[..|p| - 1] + ([c] + rest)
    ensures p != "" && p[|p| - 1] == c ==> p + rest == p[..|p| - 1] + ([c] + rest)
  {}

  lemma {:induction false} ScriptTurns(a: string, i: nat, b: string, j: nat, rest: string)
    requires i <= |a| && j <= |b|
    ensures Turns(Script(a, i, b, j), a[..i] + rest, b[..j] + rest)
    decreases i + j
  {
    hide Lev, Turns, Apply;
    var script := Script(a, i, b, j);
    if i == 0 && j == 0 {
      assert a[..i] + rest == b[..j] + rest;
      TurnsNothing(b[..j] + rest);
    } else if j > 0 && (i == 0 || Lev(a, i, b, j) == Lev(a, i, b, j - 1) + 1) {
      ScriptTurns(a, i, b, j - 1, [b[j - 1]] + rest);
      SeamEdits(a[..i], rest, b[j - 1]);
      SeamEdits(b[..j], rest, b[j - 1]);
      assert b[..j][..j - 1] == b[..j - 1];
      TurnsCons(Insert(i, b[j - 1]), Script(a, i, b, j - 1), a[..i] + rest, b[..j] + rest);
    } else if j == 0 || Lev(a, i, b, j) == Lev(a, i - 1, b, j) + 1 {
      ScriptTurns(a, i - 1, b, j, rest);
      SeamEdits(a[..i], rest, a[i - 1]);
      assert a[..i][..i - 1] == a[..i - 1];
      TurnsCons(Delete(i - 1), Script(a, i - 1, b, j), a[..i] + rest, b[..j] + rest);
    } else {
      ScriptTurns(a, i - 1, b, j - 1, [b[j - 1]] + rest);
      SeamEdits(a[..i], rest, b[j - 1]);
      SeamEdits(b[..j], rest, b[j - 1]);
      assert a[..i][..i - 1] == a[..i - 1] && b[..j][..j - 1] == b[..j - 1];
      if a[i - 1] != b[j - 1] {
        TurnsCons(Substitute(i - 1, b[j - 1]), Script(a, i - 1, b, j - 1),
                  a[..i] + rest, b[..j] + rest);
      }
    }
  }

  lemma TurnsNothing(s: string)
    ensures Turns([], s, s)
  {}

  ghost predicate ShortestScriptLength(a: string, b: string, d: nat) {
    && (exists script: seq<Edit> :: Turns(script, a, b) && |script| == d)
    && (forall script: seq<Edit> :: Turns(script, a, b) ==> d <= |script|)
  }

  lemma DistanceIsShortest(a: string, b: string)
    ensures ShortestScriptLength(a, b, Distance(a, b))
  {
    ScriptTurns(a, |a|, b, |b|, "");
    assert a[..|a|] + "" == a && b[..|b|] + "" == b;
    var script := Script(a, |a|, b, |b|);
    assert Turns(script, a, b) && |script| == Distance(a, b);
    forall other: seq<Edit> | Turns(other, a, b) ensures Distance(a, b) <= |other| {
      NoShorterScript(other, a, b);
    }
  }

  // ---- The loop ----

  // The row the loop holds after i characters of `left`.
  ghost predicate IsRow(row: seq<nat>, left: string, i: nat, right: string)
    requires i <= |left|
  {
    |row| == |right| + 1 && forall j :: 0 <= j <= |right| ==> row[j] == Lev(left, i, right, j)
  }

  method EditDistance(left: string, right: string) returns (d: nat)
    ensures d == Distance(left, right)
    ensures ShortestScriptLength(left, right, d)
  {
    hide Lev, ShortestScriptLength;
    DistanceIsShortest(left, right);
    if left == right {
      Metric(left, right, right);
      return 0;
    }
    if left == "" {
      LevEdge(left, 0, right, |right|);
      return |right|;
    }
    if right == "" {
      LevEdge(left, |left|, right, 0);
      return |left|;
    }
    var previous: seq<nat> := seq(|right| + 1, (k: nat) => k);
    FirstRow(previous, left, right);
    var i := 0;
    while i < |left|
      invariant i <= |left| && IsRow(previous, left, i, right)
    {
      var current: seq<nat> := [i + 1];
      LevEdge(left, i + 1, right, 0);
      var j := 0;
      while j < |right|
        invariant j <= |right| && |current| == j + 1
        invariant forall k :: 0 <= k <= j ==> current[k] == Lev(left, i + 1, right, k)
      {
        LevAt(left, i + 1, right, j + 1);
        var here := Min(Min(current[j] + 1, previous[j + 1] + 1),
                        previous[j] + (if left[i] != right[j] then 1 else 0));
        current := current + [here];
        j := j + 1;
      }
      previous := current;
      i := i + 1;
    }
    d := previous[|right|];
  }

  lemma FirstRow(row: seq<nat>, left: string, right: string)
    requires |row| == |right| + 1 && forall j :: 0 <= j <= |right| ==> row[j] == j
    ensures IsRow(row, left, 0, right)
  {}
}
