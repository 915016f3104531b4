// One structured filter as the exact predicate of src/search/retrieval.py and as the SQL conditions
// of src/search/bm25.py. Fees are reals, the ceiling for unpriced rows is a parameter.
module FilterForms {
  import opened Documents
  import opened Wrappers

  datatype Column =
    | MainCategoryName | SubcategoryName | StateName | CityName | LocalityName | RentalDuration
    | MainCategoryId | SubcategoryId | StateId | CityId | LocalityId | UserGender

  // A value, or any of a list.
  datatype Expected = One(value: Cell) | OneOf(values: seq<Cell>)

  datatype Filters = Filters(categorical: seq<(Column, Expected)>, minimum: Option<real>, maximum: Option<real>)

  // The metadata of one row; a missing key reads as Null.
  datatype Row = Row(cells: Column -> Cell, fee: Cell)

  // `number` is Python's float() on text. For a value r of type float, `printed` is str(r) and
  // `stored` the text of r in a JSONB column. Both write 5.0 as "5.0"; 1e16 prints as "1e+16" and
  // is stored as "10000000000000000".
  datatype Texts = Texts(number: string -> Option<real>, float: real -> bool, printed: real -> string, stored: real -> string)

  // ================ metadata_matches_filters ================

  function Numeric(c: Cell): Option<real> {
    match c
    case Flag(b) => Some(if b then 1.0 else 0.0)
    case Whole(n) => Some(n as real)
    case Fraction(r) => Some(r)
    case _ => None
  }

  // Python's ==: numbers of any type by value.
  predicate Same(a: Cell, b: Cell) {
    if Numeric(a).Some? && Numeric(b).Some? then Numeric(a) == Numeric(b) else a == b
  }

  predicate MatchesExpected(actual: Cell, expected: Expected) {
    match expected
    case One(v) => Same(actual, v)
    case OneOf(vs) => Listed(actual, vs)
  }

  predicate Listed(actual: Cell, vs: seq<Cell>) { exists i :: 0 <= i < |vs| && Same(actual, vs[i]) }

  predicate InRange(fee: real, f: Filters) {
    (f.minimum.Some? ==> fee >= f.minimum.value) && (f.maximum.Some? ==> fee <= f.maximum.value)
  }

  predicate PriceFilter(f: Filters) { f.minimum.Some? || f.maximum.Some? }

  function AsFloat(t: Texts, c: Cell): Option<real> { if c.Text? then t.number(c.s) else Numeric(c) }

  predicate MatchesPrice(t: Texts, ceiling: real, fee: Cell, f: Filters, unpriced: bool) {
    if !PriceFilter(f) then true
    else if (fee.Null? || fee == Text("")) && unpriced then true
    else
      match AsFloat(t, fee)
      case None => false
      case Some(x) => if x <= ceiling then unpriced else InRange(x, f)
  }

  predicate Matches(t: Texts, ceiling: real, row: Row, f: Filters, unpriced: bool) {
    && (forall i :: 0 <= i < |f.categorical| ==> MatchesExpected(row.cells(f.categorical[i].0), f.categorical[i].1))
    && MatchesPrice(t, ceiling, row.fee, f, unpriced)
  }

  // ================ The SQL conditions, under three-valued logic ================

  datatype Truth = Yes | No | Unknown

  function Both(a: Truth, b: Truth): Truth {
    if a == No || b == No then No else if a == Yes && b == Yes then Yes else Unknown
  }

  function Either(a: Truth, b: Truth): Truth {
    if a == Yes || b == Yes then Yes else if a == No && b == No then No else Unknown
  }

  datatype Condition =
    | Equals(column: Column, value: Cell)
    | Within(column: Column, values: seq<Cell>)
    | FeeMissing
    | FeeAbove(x: real)
    | FeeAtLeast(x: real)
    | FeeAtMost(x: real)
    | And(left: Condition, right: Condition)
    | Or(left: Condition, right: Condition)

  // prepare_bm25_index_row keeps a fee only when it is a number.
  function StoredFee(fee: Cell): Option<real> { Numeric(fee) }

  function SqlEqual(a: Cell, b: Cell): Truth {
    if a.Null? || b.Null? then Unknown else if Same(a, b) then Yes else No
  }

  function SqlIn(a: Cell, values: seq<Cell>): Truth {
    if values == [] then No else Either(SqlEqual(a, values[0]), SqlIn(a, values[1..]))
  }

  function Compare(fee: Option<real>, holds: real -> bool): Truth {
    if fee.None? then Unknown else if holds(fee.value) then Yes else No
  }

  function Evaluate(c: Condition, row: Row): Truth {
    match c
    case Equals(column, v) => SqlEqual(row.cells(column), v)
    case Within(column, vs) => SqlIn(row.cells(column), vs)
    case FeeMissing => if StoredFee(row.fee).None? then Yes else No
    case FeeAbove(x) => Compare(StoredFee(row.fee), fee => fee > x)
    case FeeAtLeast(x) => Compare(StoredFee(row.fee), fee => fee >= x)
    case FeeAtMost(x) => Compare(StoredFee(row.fee), fee => fee <= x)
    case And(a, b) => Both(Evaluate(a, row), Evaluate(b, row))
    case Or(a, b) => Either(Evaluate(a, row), Evaluate(b, row))
  }

  // list(dict.fromkeys(vs)): the first of each class of equal values.
  function FirstOfEach(vs: seq<Cell>): (sent: seq<Cell>)
    ensures sent == [] <==> vs == []
    ensures forall v :: v in sent ==> v in vs
  {
    if vs == [] then []
    else
      var n := |vs| - 1;
      var kept := FirstOfEach(vs[..n]);
      if Listed(vs[n], kept) then kept else kept + [vs[n]]
  }

  lemma ListedMore(actual: Cell, vs: seq<Cell>, v: Cell)
    ensures Listed(actual, vs + [v]) <==> Listed(actual, vs) || Same(actual, v)
  {
    hide Same;
    assert forall i :: 0 <= i < |vs| ==> (vs + [v])[i] == vs[i];
    assert (vs + [v])[|vs|] == v;
  }

  // A list and the part of it that is sent list the same values, under Python's ==.
  lemma {:induction false} FirstListsSame(actual: Cell, vs: seq<Cell>)
    ensures Listed(actual, FirstOfEach(vs)) <==> Listed(actual, vs)
  {
    hide Same, Listed;
    if vs != [] {
      var n := |vs| - 1;
      var v, kept := vs[n], FirstOfEach(vs[..n]);
      assert vs == vs[..n] + [v];
      FirstListsSame(actual, vs[..n]);
      ListedMore(actual, vs[..n], v);
      ListedMore(actual, kept, v);
      if Listed(v, kept) && Same(actual, v) { SameIsListed(actual, v, kept); }
    }
  }

  lemma SameIsListed(a: Cell, v: Cell, vs: seq<Cell>)
    requires Same(a, v) && Listed(v, vs)
    ensures Listed(a, vs)
  {
    var i :| 0 <= i < |vs| && Same(v, vs[i]);
    assert Same(a, vs[i]);
  }

  // Value i is sent exactly when no earlier one equals it, and values are sent in their order.
  lemma {:induction false} FirstIsSent(vs: seq<Cell>, i: nat)
    requires i < |vs|
    ensures FirstOfEach(vs[..i]) <= FirstOfEach(vs[..i + 1]) <= FirstOfEach(vs)
    ensures FirstOfEach(vs[..i + 1]) == FirstOfEach(vs[..i]) + if Listed(vs[i], vs[..i]) then [] else [vs[i]]
    decreases |vs|
  {
    hide Same, Listed;
    var n := |vs| - 1;
    assert vs[..n + 1] == vs && vs[..i + 1][..i] == vs[..i];
    FirstListsSame(vs[i], vs[..i]);
    if i < n {
      FirstIsSent(vs[..n], i);
      assert vs[..n][..i] == vs[..i] && vs[..n][..i + 1] == vs[..i + 1];
    }
  }

  // _append_filter_condition: an empty list adds nothing.
  function CategoryCondition(column: Column, expected: Expected): seq<Condition> {
    match expected
    case One(v) => [Equals(column, v)]
    case OneOf(vs) => if FirstOfEach(vs) == [] then [] else [Within(column, FirstOfEach(vs))]
  }

  // _append_price_conditions.
  function PriceConditions(ceiling: real, f: Filters, unpriced: bool): seq<Condition> {
    if !PriceFilter(f) then []
    else
      var above := FeeAbove(ceiling);
      var atLeast := if f.minimum.Some? then And(above, FeeAtLeast(f.minimum.value)) else above;
      var priced := if f.maximum.Some? then And(atLeast, FeeAtMost(f.maximum.value)) else atLeast;
      [if unpriced then Or(Or(FeeMissing, FeeAtMost(ceiling)), priced) else priced]
  }

  function Conditions(ceiling: real, f: Filters, unpriced: bool): seq<Condition> {
    CategoryConditions(f.categorical) + PriceConditions(ceiling, f, unpriced)
  }

  function CategoryConditions(categorical: seq<(Column, Expected)>): seq<Condition> {
    if categorical == [] then []
    else
      var n := |categorical| - 1;
      CategoryConditions(categorical[..n]) + CategoryCondition(categorical[n].0, categorical[n].1)
  }

  method BuildConditions(ceiling: real, f: Filters, unpriced: bool) returns (conditions: seq<Condition>)
    ensures conditions == Conditions(ceiling, f, unpriced)
  {
    conditions := [];
    var i := 0;
    while i < |f.categorical|
      invariant i <= |f.categorical| && conditions == CategoryConditions(f.categorical[..i])
    {
      assert f.categorical[..i + 1][..i] == f.categorical[..i];
      conditions := conditions + CategoryCondition(f.categorical[i].0, f.categorical[i].1);
      i := i + 1;
    }
    assert f.categorical[..i] == f.categorical;
    if f.minimum.None? && f.maximum.None? { return; }
    var priced := FeeAbove(ceiling);
    if f.minimum.Some? { priced := And(priced, FeeAtLeast(f.minimum.value)); }
    if f.maximum.Some? { priced := And(priced, FeeAtMost(f.maximum.value)); }
    conditions := conditions + [if unpriced then Or(Or(FeeMissing, FeeAtMost(ceiling)), priced) else priced];
  }

  // WHERE keeps a row when every condition is true, not merely unknown.
  predicate SqlAccepts(conditions: seq<Condition>, row: Row) {
    forall i :: 0 <= i < |conditions| ==> Evaluate(conditions[i], row) == Yes
  }

  // ---- Where the two agree ----

  predicate AsksForNull(expected: Expected) {
    match expected
    case One(v) => v.Null?
    case OneOf(vs) => exists i :: 0 <= i < |vs| && vs[i].Null?
  }

  lemma {:induction false} SqlInMeaning(a: Cell, values: seq<Cell>)
    ensures SqlIn(a, values) == Yes <==> !a.Null? && Listed(a, values)
  {
    if values != [] {
      SqlInMeaning(a, values[1..]);
      if i :| 0 <= i < |values| && Same(a, values[i]) {
        assert i > 0 ==> values[1..][i - 1] == values[i];
      }
      if i :| 0 <= i < |values| - 1 && Same(a, values[1..][i]) { assert values[i + 1] == values[1..][i]; }
    }
  }

  // One category: SQL and the predicate agree on a row except for an empty list, and for a row
  // without the value when the filter asks for "no value".
  lemma CategoryAgreesIff(row: Row, column: Column, expected: Expected)
    ensures SqlAccepts(CategoryCondition(column, expected), row) == MatchesExpected(row.cells(column), expected)
       <==> expected != OneOf([]) && !(row.cells(column).Null? && AsksForNull(expected))
  {
    hide FirstOfEach;
    var actual := row.cells(column);
    var conditions := CategoryCondition(column, expected);
    match expected {
      case One(v) =>
        assert SqlAccepts(conditions, row) <==> Evaluate(conditions[0], row) == Yes;
      case OneOf(vs) =>
        SqlInMeaning(actual, FirstOfEach(vs));
        FirstListsSame(actual, vs);
        if vs != [] { assert SqlAccepts(conditions, row) <==> Evaluate(conditions[0], row) == Yes; }
        if actual.Null? { NullIsSameAsNull(vs); }
    }
  }

  lemma NullIsSameAsNull(vs: seq<Cell>)
    ensures Listed(Null, vs) <==> exists i :: 0 <= i < |vs| && vs[i].Null?
  {}

  // A fee stored as text that the predicate reads as a number in the range.
  predicate TextInRange(t: Texts, ceiling: real, text: string, f: Filters) {
    t.number(text).Some? && t.number(text).value > ceiling && InRange(t.number(text).value, f)
  }

  predicate TextUnpriced(t: Texts, ceiling: real, text: string) {
    text == "" || (t.number(text).Some? && t.number(text).value <= ceiling)
  }

  // The price part disagrees only on fees stored as text, in which SQL sees no fee: where unpriced
  // rows are wanted, on texts that are neither unpriced nor in the range; elsewhere on texts in it.
  lemma PriceAgreesIff(t: Texts, ceiling: real, row: Row, f: Filters, unpriced: bool)
    ensures SqlAccepts(PriceConditions(ceiling, f, unpriced), row) == MatchesPrice(t, ceiling, row.fee, f, unpriced)
       <==> (PriceFilter(f) && row.fee.Text? ==>
               if unpriced then TextUnpriced(t, ceiling, row.fee.s) || TextInRange(t, ceiling, row.fee.s, f)
               else !TextInRange(t, ceiling, row.fee.s, f))
  {
    var conditions := PriceConditions(ceiling, f, unpriced);
    if PriceFilter(f) {
      assert SqlAccepts(conditions, row) <==> Evaluate(conditions[0], row) == Yes;
      var fee := StoredFee(row.fee);
      var above := FeeAbove(ceiling);
      var atLeast := if f.minimum.Some? then And(above, FeeAtLeast(f.minimum.value)) else above;
      var priced := if f.maximum.Some? then And(atLeast, FeeAtMost(f.maximum.value)) else atLeast;
      assert Evaluate(atLeast, row) == Yes <==> fee.Some? && fee.value > ceiling && (f.minimum.Some? ==> fee.value >= f.minimum.value);
      assert Evaluate(priced, row) == Yes <==> fee.Some? && fee.value > ceiling && InRange(fee.value, f);
      var missing := Or(FeeMissing, FeeAtMost(ceiling));
      assert Evaluate(missing, row) == Yes <==> fee.None? || fee.value <= ceiling;
      assert Evaluate(Or(missing, priced), row) == Yes <==> Evaluate(missing, row) == Yes || Evaluate(priced, row) == Yes;
      assert conditions == [if unpriced then Or(missing, priced) else priced];
    }
  }

  // A row with a numeric fee is accepted for its price exactly when the fee is above the ceiling and
  // within both bounds, or is at most the ceiling and unpriced rows are wanted.
  lemma NumericFeeIff(t: Texts, ceiling: real, row: Row, f: Filters, unpriced: bool, x: real)
    requires (f.minimum.Some? || f.maximum.Some?) && (row.fee == Fraction(x) || (row.fee.Whole? && row.fee.n as real == x))
    ensures MatchesPrice(t, ceiling, row.fee, f, unpriced) <==>
              if x <= ceiling then unpriced
              else (forall low :: f.minimum == Some(low) ==> low <= x) && (forall high :: f.maximum == Some(high) ==> x <= high)
    ensures SqlAccepts(PriceConditions(ceiling, f, unpriced), row) <==> MatchesPrice(t, ceiling, row.fee, f, unpriced)
  {
    hide PriceConditions, SqlAccepts;
    PriceAgreesIff(t, ceiling, row, f, unpriced);
  }

  predicate CategoriesAgree(row: Row, f: Filters) {
    forall i :: 0 <= i < |f.categorical| ==>
      f.categorical[i].1 != OneOf([]) && !(row.cells(f.categorical[i].0).Null? && AsksForNull(f.categorical[i].1))
  }

  // Rows whose fee is a number or missing, filters that ask for values: SQL accepts exactly what
  // the predicate accepts.
  lemma SqlIsExact(t: Texts, ceiling: real, row: Row, f: Filters, unpriced: bool)
    requires !row.fee.Text? && CategoriesAgree(row, f)
    ensures SqlAccepts(Conditions(ceiling, f, unpriced), row) == Matches(t, ceiling, row, f, unpriced)
  {
    hide CategoryCondition, PriceConditions, MatchesExpected, MatchesPrice, Evaluate, AsksForNull;
    PriceAgreesIff(t, ceiling, row, f, unpriced);
    CategoriesExact(row, f, |f.categorical|);
    assert f.categorical[..|f.categorical|] == f.categorical;
    SqlAcceptsBoth(CategoryConditions(f.categorical), PriceConditions(ceiling, f, unpriced), row);
  }

  lemma SqlAcceptsBoth(a: seq<Condition>, b: seq<Condition>, row: Row)
    ensures SqlAccepts(a + b, row) <==> SqlAccepts(a, row) && SqlAccepts(b, row)
  {
    hide Evaluate;
    assert forall i :: 0 <= i < |a| ==> (a + b)[i] == a[i];
    assert forall i :: 0 <= i < |b| ==> (a + b)[|a| + i] == b[i];
  }

  lemma {:induction false} CategoriesExact(row: Row, f: Filters, n: nat)
    requires n <= |f.categorical| && CategoriesAgree(row, f)
    ensures SqlAccepts(CategoryConditions(f.categorical[..n]), row) <==>
              forall i :: 0 <= i < n ==> MatchesExpected(row.cells(f.categorical[i].0), f.categorical[i].1)
  {
    hide CategoryCondition, MatchesExpected, Evaluate, AsksForNull;
    if n > 0 {
      var part := f.categorical[..n];
      assert part[..n - 1] == f.categorical[..n - 1] && part[n - 1] == f.categorical[n - 1];
      CategoriesExact(row, f, n - 1);
      CategoryAgreesIff(row, f.categorical[n - 1].0, f.categorical[n - 1].1);
      SqlAcceptsBoth(CategoryConditions(f.categorical[..n - 1]),
                     CategoryCondition(f.categorical[n - 1].0, f.categorical[n - 1].1), row);
    }
  }

  // Inputs on which they part: a fee stored as the text "500", and an empty list.
  lemma SqlDiffers(t: Texts, cells: Column -> Cell)
    requires t.number("500") == Some(500.0)
    ensures var f := Filters([], Some(100.0), None);
            var row := Row(cells, Text("500"));
            Matches(t, 0.0, row, f, false) && !SqlAccepts(Conditions(0.0, f, false), row)
    ensures var f := Filters([(CityName, OneOf([]))], None, None);
            var row := Row(cells, Null);
            !Matches(t, 0.0, row, f, false) && SqlAccepts(Conditions(0.0, f, false), row)
  {
    var f := Filters([], Some(100.0), None);
    assert Evaluate(Conditions(0.0, f, false)[0], Row(cells, Text("500"))) == Unknown;
    var g := Filters([(CityName, OneOf([]))], None, None);
    assert g.categorical[0].1 == OneOf([]);
    assert Conditions(0.0, g, false) == [];
  }
}
