// The same filter as vector_where_filter of src/search/retrieval.py gives it to the vector store, and
// as src/storage/pgvector.py reads it there: by comparing texts.
module VectorFilters {
  import opened Decimals
  import opened Documents
  import opened FilterForms
  import opened Wrappers

  ghost predicate Lawful(t: Texts) {
    && (forall s :: Plain(s) ==> t.number(s) == Some(DecimalValue(s)))
    && (forall r :: t.float(r) ==> Plain(t.stored(r)) && DecimalValue(t.stored(r)) == r && EndsInDigit(t.printed(r)))
    && (forall r :: t.float(r) && !Pointed(t.stored(r)) ==> t.stored(r) == IntText(r.Floor))
    && (forall r :: t.float(r) && Plain(t.printed(r)) ==> t.printed(r) == t.stored(r) && Pointed(t.printed(r)))
  }

  // A fraction is the value of a float.
  predicate Writable(t: Texts, c: Cell) { c.Fraction? ==> t.float(c.r) }

  datatype Clause = Is(column: Column, value: Cell) | IsIn(column: Column, values: seq<Cell>) | AtLeast(x: real) | AtMost(x: real)

  function CategoryClause(column: Column, expected: Expected): seq<Clause> {
    match expected
    case One(v) => [Is(column, v)]
    case OneOf(vs) => if FirstOfEach(vs) == [] then [] else [IsIn(column, FirstOfEach(vs))]
  }

  function CategoryClauses(categorical: seq<(Column, Expected)>): seq<Clause> {
    if categorical == [] then []
    else
      var n := |categorical| - 1;
      CategoryClauses(categorical[..n]) + CategoryClause(categorical[n].0, categorical[n].1)
  }

  function PriceClauses(f: Filters, unpriced: bool): seq<Clause> {
    if unpriced then []
    else (if f.minimum.Some? then [AtLeast(f.minimum.value)] else [])
         + if f.maximum.Some? then [AtMost(f.maximum.value)] else []
  }

  function Where(f: Filters, unpriced: bool): seq<Clause> { CategoryClauses(f.categorical) + PriceClauses(f, unpriced) }

  // metadata ->> key: the JSON text of the stored value.
  function Stored(t: Texts, c: Cell): Option<string> {
    match c
    case Null => None
    case Flag(b) => Some(if b then "true" else "false")
    case Whole(n) => Some(IntText(n))
    case Fraction(r) => Some(t.stored(r))
    case Text(s) => Some(s)
  }

  // str() of a filter value.
  function Printed(t: Texts, c: Cell): string {
    match c
    case Null => "None"
    case Flag(b) => if b then "True" else "False"
    case Whole(n) => IntText(n)
    case Fraction(r) => t.printed(r)
    case Text(s) => s
  }

  // The stored text fits the pattern of a decimal number; its value.
  predicate PlainNumber(t: Texts, c: Cell) { Stored(t, c).Some? && Plain(Stored(t, c).value) }

  function ReadNumber(t: Texts, c: Cell): real
    requires PlainNumber(t, c)
  {
    DecimalValue(Stored(t, c).value)
  }

  predicate Holds(t: Texts, c: Clause, row: Row) {
    match c
    case Is(column, v) => Stored(t, row.cells(column)) == Some(Printed(t, v))
    case IsIn(column, vs) => exists i :: 0 <= i < |vs| && Stored(t, row.cells(column)) == Some(Printed(t, vs[i]))
    case AtLeast(x) => PlainNumber(t, row.fee) && ReadNumber(t, row.fee) >= x
    case AtMost(x) => PlainNumber(t, row.fee) && ReadNumber(t, row.fee) <= x
  }

  predicate VectorAccepts(t: Texts, clauses: seq<Clause>, row: Row) {
    forall i :: 0 <= i < |clauses| ==> Holds(t, clauses[i], row)
  }

  // ---- When a stored value and a filter value are the same text ----

  // Equal values written alike: texts, whole numbers, fractions that str prints without an exponent,
  // or a stored fraction without a point against a whole number.
  predicate WrittenAlike(t: Texts, a: Cell, b: Cell) {
    || (a.Text? && b.Text?)
    || (a.Whole? && b.Whole?)
    || (a.Fraction? && b.Fraction? && Plain(t.printed(a.r)))
    || (a.Fraction? && b.Whole? && !Pointed(t.stored(a.r)))
  }

  // One of the two is a text that spells the other.
  predicate Spells(t: Texts, a: Cell, b: Cell) {
    (a.Text? && !b.Text? && a.s == Printed(t, b)) || (b.Text? && !a.Text? && Stored(t, a) == Some(b.s))
  }

  predicate Meets(t: Texts, a: Cell, b: Cell) { (Same(a, b) && WrittenAlike(t, a, b)) || Spells(t, a, b) }

  lemma NotANumber(s: string)
    requires !EndsInDigit(s)
    ensures !Plain(s)
  {
    if Plain(s) { PlainEndsInDigit(s); }
  }

  lemma NamesAreNotNumbers()
    ensures !Plain("true") && !Plain("false") && !Plain("True") && !Plain("False") && !Plain("None")
    ensures !EndsInDigit("true") && !EndsInDigit("false") && !EndsInDigit("True") && !EndsInDigit("False")
  {
    NotANumber("true");
    NotANumber("false");
    NotANumber("True");
    NotANumber("False");
    NotANumber("None");
  }

  lemma MeetsIff(t: Texts, a: Cell, b: Cell)
    requires Lawful(t) && Writable(t, a) && Writable(t, b)
    ensures Stored(t, a) == Some(Printed(t, b)) <==> Meets(t, a, b)
  {
    hide Plain, DecimalValue, IntText, Pointed, EndsInDigit;
    NamesAreNotNumbers();
    if a.Whole? { WholeText(a.n); PlainEndsInDigit(IntText(a.n)); }
    if b.Whole? { WholeText(b.n); PlainEndsInDigit(IntText(b.n)); }
    if a.Fraction? { PlainEndsInDigit(t.stored(a.r)); }
    if b.Fraction? { PlainEndsInDigit(t.stored(b.r)); }
  }

  predicate MeetsAny(t: Texts, actual: Cell, vs: seq<Cell>) { exists i :: 0 <= i < |vs| && Meets(t, actual, vs[i]) }

  // Of the values in a list that are equal, only the first is sent.
  predicate Findable(t: Texts, actual: Cell, expected: Expected) {
    match expected
    case One(v) => Meets(t, actual, v)
    case OneOf(vs) => vs == [] || MeetsAny(t, actual, FirstOfEach(vs))
  }

  predicate AllWritable(t: Texts, expected: Expected) {
    match expected
    case One(v) => Writable(t, v)
    case OneOf(vs) => forall v :: v in vs ==> Writable(t, v)
  }

  lemma CategoryFoundIff(t: Texts, row: Row, column: Column, expected: Expected)
    requires Lawful(t) && Writable(t, row.cells(column)) && AllWritable(t, expected)
    ensures VectorAccepts(t, CategoryClause(column, expected), row) <==> Findable(t, row.cells(column), expected)
  {
    hide Lawful, Meets, Stored, Printed, FirstOfEach;
    var actual, clauses := row.cells(column), CategoryClause(column, expected);
    assert clauses != [] ==> (VectorAccepts(t, clauses, row) <==> Holds(t, clauses[0], row));
    match expected {
      case One(v) => MeetsIff(t, actual, v);
      case OneOf(vs) =>
        var sent := FirstOfEach(vs);
        forall i | 0 <= i < |sent| ensures Stored(t, actual) == Some(Printed(t, sent[i])) <==> Meets(t, actual, sent[i]) {
          MeetsIff(t, actual, sent[i]);
        }
    }
  }

  // A row accepted for one plain value is found by the vector store exactly when they are written alike.
  lemma ValueFoundIff(t: Texts, row: Row, column: Column, v: Cell)
    requires Lawful(t) && Writable(t, row.cells(column)) && Writable(t, v)
    requires MatchesExpected(row.cells(column), One(v))
    ensures VectorAccepts(t, CategoryClause(column, One(v)), row) <==> WrittenAlike(t, row.cells(column), v)
  {
    hide Lawful, VectorAccepts;
    CategoryFoundIff(t, row, column, One(v));
  }

  // A fee whose stored text is a plain decimal: a number, or a text such as "500" but not "5e2".
  predicate PlainFee(fee: Cell) { fee.Whole? || fee.Fraction? || (fee.Text? && Plain(fee.s)) }

  lemma PlainFeeReads(t: Texts, fee: Cell)
    requires Lawful(t) && Writable(t, fee)
    ensures PlainNumber(t, fee) <==> PlainFee(fee)
    ensures PlainFee(fee) ==> AsFloat(t, fee) == Some(ReadNumber(t, fee))
  {
    hide Plain, DecimalValue, IntText, Pointed, EndsInDigit;
    NamesAreNotNumbers();
    if fee.Whole? { WholeText(fee.n); }
  }

  // A row accepted under a price filter is found exactly when its fee is a plain decimal.
  lemma PriceFoundIff(t: Texts, ceiling: real, row: Row, f: Filters)
    requires Lawful(t) && Writable(t, row.fee) && PriceFilter(f) && MatchesPrice(t, ceiling, row.fee, f, false)
    ensures VectorAccepts(t, PriceClauses(f, false), row) <==> PlainFee(row.fee)
  {
    hide Lawful, Stored;
    var clauses := PriceClauses(f, false);
    PlainFeeReads(t, row.fee);
    assert f.minimum.Some? ==> clauses[0] == AtLeast(f.minimum.value);
    assert f.maximum.Some? ==> clauses[|clauses| - 1] == AtMost(f.maximum.value);
  }

  // The store's own price test, on any row: a plain decimal within both bounds, and nothing else, unless
  // no bound was sent.
  lemma PriceClausesIff(t: Texts, row: Row, f: Filters, unpriced: bool)
    requires Lawful(t) && Writable(t, row.fee)
    ensures VectorAccepts(t, PriceClauses(f, unpriced), row) <==>
              || unpriced || (f.minimum.None? && f.maximum.None?)
              || (PlainFee(row.fee)
                  && (exists x :: AsFloat(t, row.fee) == Some(x)
                                  && (f.minimum.Some? ==> f.minimum.value <= x) && (f.maximum.Some? ==> x <= f.maximum.value)))
  {
    hide Lawful, Stored;
    var clauses := PriceClauses(f, unpriced);
    PlainFeeReads(t, row.fee);
    if !unpriced {
      assert f.minimum.Some? ==> clauses[0] == AtLeast(f.minimum.value);
      assert f.maximum.Some? ==> clauses[|clauses| - 1] == AtMost(f.maximum.value);
    }
  }

  predicate RowWritable(t: Texts, row: Row, f: Filters) {
    && Writable(t, row.fee)
    && forall i :: 0 <= i < |f.categorical| ==>
         Writable(t, row.cells(f.categorical[i].0)) && AllWritable(t, f.categorical[i].1)
  }

  // Of a row the predicate accepts: the vector store keeps it exactly when every category is written
  // as the filter prints it and, under a price filter, the fee is a plain decimal.
  lemma VectorKeepsIff(t: Texts, ceiling: real, row: Row, f: Filters, unpriced: bool)
    requires Lawful(t) && RowWritable(t, row, f) && Matches(t, ceiling, row, f, unpriced)
    ensures VectorAccepts(t, Where(f, unpriced), row) <==>
              && (forall i :: 0 <= i < |f.categorical| ==> Findable(t, row.cells(f.categorical[i].0), f.categorical[i].1))
              && (PriceFilter(f) && !unpriced ==> PlainFee(row.fee))
  {
    hide Lawful, Findable, CategoryClause, Holds, MatchesPrice, MatchesExpected, PlainFee, PriceClauses;
    CategoriesFoundIff(t, row, f, |f.categorical|);
    assert f.categorical[..|f.categorical|] == f.categorical;
    VectorAcceptsBoth(t, CategoryClauses(f.categorical), PriceClauses(f, unpriced), row);
    if PriceFilter(f) && !unpriced { PriceFoundIff(t, ceiling, row, f); } else { NoPriceClauses(f, unpriced); }
  }

  lemma NoPriceClauses(f: Filters, unpriced: bool)
    requires unpriced || !PriceFilter(f)
    ensures PriceClauses(f, unpriced) == []
  {}

  lemma VectorAcceptsBoth(t: Texts, a: seq<Clause>, b: seq<Clause>, row: Row)
    ensures VectorAccepts(t, a + b, row) <==> VectorAccepts(t, a, row) && VectorAccepts(t, b, row)
  {
    hide Holds;
    assert forall i :: 0 <= i < |a| ==> (a + b)[i] == a[i];
    assert forall i :: 0 <= i < |b| ==> (a + b)[|a| + i] == b[i];
  }

  lemma {:induction false} CategoriesFoundIff(t: Texts, row: Row, f: Filters, n: nat)
    requires Lawful(t) && RowWritable(t, row, f) && n <= |f.categorical|
    ensures VectorAccepts(t, CategoryClauses(f.categorical[..n]), row) <==>
              forall i :: 0 <= i < n ==> Findable(t, row.cells(f.categorical[i].0), f.categorical[i].1)
  {
    hide Lawful, Findable, CategoryClause, Holds;
    if n > 0 {
      var part := f.categorical[..n];
      assert part[..n - 1] == f.categorical[..n - 1] && part[n - 1] == f.categorical[n - 1];
      CategoriesFoundIff(t, row, f, n - 1);
      CategoryFoundIff(t, row, f.categorical[n - 1].0, f.categorical[n - 1].1);
      VectorAcceptsBoth(t, CategoryClauses(f.categorical[..n - 1]),
                        CategoryClause(f.categorical[n - 1].0, f.categorical[n - 1].1), row);
    }
  }

  // The values of a filter are texts and whole numbers.
  predicate PlainExpected(expected: Expected) {
    match expected
    case One(v) => v.Text? || v.Whole?
    case OneOf(vs) => forall v :: v in vs ==> v.Text? || v.Whole?
  }

  lemma PlainIsFindable(t: Texts, actual: Cell, expected: Expected)
    requires PlainExpected(expected) && (actual.Text? || actual.Whole?) && MatchesExpected(actual, expected)
    ensures Findable(t, actual, expected)
  {
    hide FirstOfEach;
    if expected.OneOf? {
      var sent := FirstOfEach(expected.values);
      FirstListsSame(actual, expected.values);
      var i :| 0 <= i < |sent| && Same(actual, sent[i]);
      assert sent[i] in sent;
      assert Meets(t, actual, sent[i]);
    }
  }

  // Texts and whole numbers are never lost, in the row or in a filter for one value or a list.
  lemma PlainValuesAreKept(t: Texts, ceiling: real, row: Row, f: Filters, unpriced: bool)
    requires Lawful(t) && RowWritable(t, row, f) && Matches(t, ceiling, row, f, unpriced) && !row.fee.Text? && !row.fee.Flag?
    requires forall i :: 0 <= i < |f.categorical| ==>
               PlainExpected(f.categorical[i].1)
               && (row.cells(f.categorical[i].0).Text? || row.cells(f.categorical[i].0).Whole?)
    ensures VectorAccepts(t, Where(f, unpriced), row)
  {
    hide Lawful, VectorAccepts, Where, Findable, PlainExpected, MatchesExpected;
    forall i | 0 <= i < |f.categorical| ensures Findable(t, row.cells(f.categorical[i].0), f.categorical[i].1) {
      PlainIsFindable(t, row.cells(f.categorical[i].0), f.categorical[i].1);
    }
    VectorKeepsIff(t, ceiling, row, f, unpriced);
  }

  // ---- Such texts exist, and rows are lost under them ----

  const WIDE: int := 10_000_000_000_000_000

  ghost predicate Finite(r: real) { exists s :: Plain(s) && Pointed(s) && DecimalValue(s) == r }

  ghost function PointedText(r: real): string
    requires Finite(r)
  {
    var s :| Plain(s) && Pointed(s) && DecimalValue(s) == r;
    s
  }

  // Every finite decimal with its point, and 1e16 with an exponent in str and without one in JSONB.
  lemma LawfulTexts() returns (t: Texts)
    ensures Lawful(t) && t.float(5.0) && Pointed(t.stored(5.0)) && t.float(WIDE as real) && !Plain(t.printed(WIDE as real))
  {
    hide Plain, DecimalValue, IntText, Pointed, EndsInDigit;
    t := Texts(s => if Plain(s) then Some(DecimalValue(s)) else None,
               r => r == WIDE as real || Finite(r),
               r => if r == WIDE as real then "1e+16" else if Finite(r) then PointedText(r) else "",
               r => if r == WIDE as real then IntText(WIDE) else if Finite(r) then PointedText(r) else "");
    WholeText(WIDE);
    Exponent();
    FiveIsFinite();
    forall r | t.float(r) ensures EndsInDigit(t.printed(r)) {
      if r != WIDE as real { PlainEndsInDigit(PointedText(r)); }
    }
  }

  lemma Exponent()
    ensures !Plain("1e+16") && EndsInDigit("1e+16")
  {
    var s := "1e+16";
    assert PointAt(s) == |s| && s[..|s|][1] == 'e';
  }

  lemma FiveIsFinite()
    ensures Finite(5.0)
  {
    var s := "5.0";
    assert PointAt(s) == 1 && s[..1] == "5" && s[2..] == "0";
    assert "5"[..0] == "" && "0"[..0] == "";
    assert Natural("5") == 5 && Natural("0") == 0 && Power(1) == 10;
    assert s[1] == '.' && UnsignedValue(s) == 5.0;
    assert Plain(s) && Pointed(s) && DecimalValue(s) == 5.0;
  }

  // Accepted by the predicate, not found by the store: a DECIMAL column stored as 5.0 against the
  // whole number 5, alone or in a list; the whole number against 5.0; a wide fraction against itself.
  lemma VectorLoses(column: Column, fee: Cell) returns (t: Texts)
    ensures Lawful(t)
    ensures IsLost(t, column, fee, Fraction(5.0), One(Whole(5)))
    ensures IsLost(t, column, fee, Fraction(5.0), OneOf([Whole(5)]))
    ensures IsLost(t, column, fee, Whole(5), One(Fraction(5.0)))
    ensures IsLost(t, column, fee, Fraction(WIDE as real), One(Fraction(WIDE as real)))
  {
    hide Lawful, IsLost, Pointed, Plain;
    t := LawfulTexts();
    LosesDecimals(t, column, fee);
    assert !WrittenAlike(t, Whole(5), Fraction(5.0));
    LosesOne(t, column, fee, Whole(5), Fraction(5.0));
    LosesOne(t, column, fee, Fraction(WIDE as real), Fraction(WIDE as real));
  }

  lemma LosesOne(t: Texts, column: Column, fee: Cell, actual: Cell, v: Cell)
    requires Lawful(t) && Writable(t, actual) && Writable(t, v) && Same(actual, v) && !WrittenAlike(t, actual, v)
    ensures IsLost(t, column, fee, actual, One(v))
  {
    hide Lawful, IsLost, WrittenAlike;
    IsLostIff(t, column, fee, actual, One(v));
  }

  lemma LosesDecimals(t: Texts, column: Column, fee: Cell)
    requires Lawful(t) && t.float(5.0) && Pointed(t.stored(5.0))
    ensures IsLost(t, column, fee, Fraction(5.0), One(Whole(5)))
    ensures IsLost(t, column, fee, Fraction(5.0), OneOf([Whole(5)]))
  {
    hide Lawful, IsLost, Pointed, FirstOfEach;
    LosesOne(t, column, fee, Fraction(5.0), Whole(5));
    FirstOfOne(Whole(5));
    assert [Whole(5)][0] == Whole(5);
    IsLostIff(t, column, fee, Fraction(5.0), OneOf([Whole(5)]));
  }

  // A listed value equal to the row's and written alike does not help behind another spelling of it.
  lemma FirstSpellingHides(column: Column, fee: Cell) returns (t: Texts)
    ensures Lawful(t)
    ensures IsLost(t, column, fee, Whole(5), OneOf([Fraction(5.0), Whole(5)]))
    ensures !IsLost(t, column, fee, Whole(5), OneOf([Whole(5), Fraction(5.0)]))
  {
    hide Lawful, IsLost, Pointed, FirstOfEach;
    t := LawfulTexts();
    FirstOfTwo(Fraction(5.0), Whole(5));
    FirstOfTwo(Whole(5), Fraction(5.0));
    assert [Fraction(5.0), Whole(5)][1] == Whole(5) == [Whole(5), Fraction(5.0)][0];
    IsLostIff(t, column, fee, Whole(5), OneOf([Fraction(5.0), Whole(5)]));
    IsLostIff(t, column, fee, Whole(5), OneOf([Whole(5), Fraction(5.0)]));
  }

  lemma FirstOfOne(v: Cell)
    ensures FirstOfEach([v]) == [v]
  {
    assert [v][..0] == [];
  }

  lemma FirstOfTwo(v: Cell, w: Cell)
    requires Same(w, v)
    ensures FirstOfEach([v, w]) == [v]
  {
    assert [v, w][..1] == [v];
    FirstOfOne(v);
  }

  // A row with one value in every column is accepted for one category by the predicate, and the
  // store does not find it.
  predicate IsLost(t: Texts, column: Column, fee: Cell, actual: Cell, expected: Expected) {
    var f, row := Filters([(column, expected)], None, None), Row(_ => actual, fee);
    Matches(t, 0.0, row, f, false) && !VectorAccepts(t, Where(f, false), row)
  }

  lemma IsLostIff(t: Texts, column: Column, fee: Cell, actual: Cell, expected: Expected)
    requires Lawful(t) && Writable(t, actual) && AllWritable(t, expected)
    ensures IsLost(t, column, fee, actual, expected) <==>
              MatchesExpected(actual, expected) && !Findable(t, actual, expected)
  {
    hide Lawful, VectorAccepts, Findable, MatchesExpected, AllWritable;
    var f, row := Filters([(column, expected)], None, None), Row(_ => actual, fee);
    CategoryFoundIff(t, row, column, expected);
    assert f.categorical[0] == (column, expected) && f.categorical[..0] == [];
    assert CategoryClauses(f.categorical) == CategoryClauses(f.categorical[..0]) + CategoryClause(column, expected);
    assert Where(f, false) == CategoryClause(column, expected);
    assert Matches(t, 0.0, row, f, false) <==> MatchesExpected(actual, expected);
  }
}
