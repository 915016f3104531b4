// enrich_query_plan of src/search/planner.py: how hard filters, soft category hints and relaxed
// categories are reconciled with the catalogue. Texts, regular expressions and fuzzy matching are
// the uninterpreted members of Evidence.
module PlanEnrichment {
  import opened Wrappers

  datatype Field = MainCategory | Subcategory | State | City | Locality

  // QUERY_FILTER_FIELDS without the duration, which is set from the query alone.
  const FIELDS: seq<Field> := [MainCategory, Subcategory, State, City, Locality]

  datatype Hard = Hard(main: Option<string>, sub: Option<string>, state: Option<string>,
                       city: Option<string>, locality: Option<string>)
  {
    function Get(f: Field): Option<string> {
      match f
      case MainCategory => main
      case Subcategory => sub
      case State => state
      case City => city
      case Locality => locality
    }

    function With(f: Field, v: Option<string>): Hard {
      match f
      case MainCategory => this.(main := v)
      case Subcategory => this.(sub := v)
      case State => this.(state := v)
      case City => this.(city := v)
      case Locality => this.(locality := v)
    }
  }

  datatype Soft = Soft(main: Option<string>, sub: Option<string>)
  {
    function With(f: Field, v: Option<string>): Soft {
      match f
      case MainCategory => this.(main := v)
      case Subcategory => this.(sub := v)
      case _ => this
    }
  }

  datatype Plan = Plan(hard: Hard, soft: Soft, relaxed: set<Field>, duration: Option<string>,
                       minimum: Option<real>, maximum: Option<real>)

  datatype Intent = Intent(sub: string, main: Option<string>, hardWhenNormalized: bool, relaxSub: bool, overridesConflict: bool)
  datatype Place = Place(city: Option<string>, state: Option<string>)

  // What the query, the catalogue and the tenant's policy say.
  datatype Evidence = Evidence(
    exact: Field -> Option<string>,            // catalogue value found in the query
    clears: Field -> bool,                     // a model-supplied location the query contradicts
    stated: Field -> bool,                     // the exact category is explicit in the query
    normalized: bool,                          // the query was rewritten before matching
    requests: string -> bool,                  // is_explicit_category_request
    oneWord: string -> bool,
    electric: string -> bool,                  // the value follows "electric" in the query
    generic: string -> bool,                   // is_generic_location_value
    mentioned: string -> bool,                 // text_mentions_filter
    norm: string -> string,                    // normalize_filter_value
    canonical: (Field, string) -> Option<string>,
    intent: Option<Intent>,
    fuzzyPlace: Option<(Field, string)>,
    inferredSub: Option<string>,               // policy, keyword, then semantic inference
    repairSubject: string -> bool,
    inferredMain: Option<string>,
    parents: map<string, string>,              // _subcategory_main_category
    cityAlias: string -> string,
    places: map<string, Place>,                // _locality_location
    states: map<string, string>,               // _city_state
    duration: Option<string>,
    minimum: Option<real>,
    maximum: Option<real>)

  // fuzzy_location names a location field.
  predicate Sensible(e: Evidence) { e.fuzzyPlace.Some? ==> e.fuzzyPlace.value.0 in {State, City, Locality} }

  predicate Category(f: Field) { f == MainCategory || f == Subcategory }
  predicate Truthy(v: Option<string>) { v.Some? && v.value != "" }
  function OrElse(v: Option<string>, w: Option<string>): Option<string> { if Truthy(v) then v else w }

  // ---- One field of the scan ----

  predicate Explicit(e: Evidence, f: Field) {
    var x := e.exact(f);
    !Category(f) || x.None? || (!e.normalized && e.stated(f)) || e.requests(x.value)
  }

  function Cleared(e: Evidence, p: Plan, f: Field): Plan {
    var v := p.hard.Get(f);
    if e.clears(f) || (!Category(f) && Truthy(v) && e.generic(v.value)) then p.(hard := p.hard.With(f, None)) else p
  }

  function ScanField(e: Evidence, plan: Plan, f: Field): Plan {
    var p := Cleared(e, plan, f);
    var x := e.exact(f);
    if x.Some? && !Explicit(e, f) then
      p.(hard := p.hard.With(f, None), soft := if e.oneWord(x.value) then Soft(None, None) else p.soft.With(f, x))
    else if x.Some? then
      if f == Subcategory && e.electric(x.value)
      then p.(hard := p.hard.With(f, None), soft := p.soft.With(f, x), relaxed := p.relaxed + {f})
      else p.(hard := p.hard.With(f, x), soft := p.soft.With(f, None))
    else
      match p.hard.Get(f)
      case None => p
      case Some(v) =>
        var c := e.canonical(f, v);
        if Category(f) then p.(hard := p.hard.With(f, None), soft := p.soft.With(f, if Truthy(c) then c else Some(v)))
        else p.(hard := p.hard.With(f, if c.Some? && e.mentioned(v) then c else None))
  }

  function Scan(e: Evidence, p: Plan, fields: seq<Field>): Plan {
    if fields == [] then p else ScanField(e, Scan(e, p, fields[..|fields| - 1]), fields[|fields| - 1])
  }

  // ---- The later passes, in order ----

  predicate IntentApplies(e: Evidence) {
    e.intent.Some? &&
      !(e.exact(Subcategory).Some? && e.stated(Subcategory)
        && e.norm(e.exact(Subcategory).value) != e.norm(e.intent.value.sub) && !e.intent.value.overridesConflict)
  }

  function WithIntent(e: Evidence, p: Plan): Plan {
    if !IntentApplies(e) then p
    else
      var i := e.intent.value;
      var q := if (!e.normalized || i.hardWhenNormalized) && !i.relaxSub
               then p.(hard := p.hard.(sub := Some(i.sub)), soft := p.soft.(sub := None), relaxed := p.relaxed - {Subcategory})
               else p.(hard := p.hard.(sub := None), soft := p.soft.(sub := Some(i.sub)), relaxed := p.relaxed + {Subcategory});
      var parent := if i.main.Some? then e.canonical(MainCategory, i.main.value) else None;
      if parent.Some? then q.(hard := q.hard.(main := parent), soft := q.soft.(main := None)) else q
  }

  function WithFuzzyPlace(e: Evidence, p: Plan): Plan {
    if Truthy(p.hard.state) || Truthy(p.hard.city) || Truthy(p.hard.locality) || e.fuzzyPlace.None? then p
    else p.(hard := p.hard.With(e.fuzzyPlace.value.0, Some(e.fuzzyPlace.value.1)))
  }

  function Canonical(e: Evidence, f: Field, v: Option<string>): Option<string> {
    if v.None? then None else e.canonical(f, v.value)
  }

  // Only catalogue-backed hints survive; a missing category is inferred.
  function WithHints(e: Evidence, p: Plan): Plan {
    var soft := Soft(Canonical(e, MainCategory, p.soft.main), Canonical(e, Subcategory, p.soft.sub));
    var inferred := if e.inferredSub.Some? && e.repairSubject(e.inferredSub.value) then None else e.inferredSub;
    var sub := if p.hard.sub.None? && soft.sub.None? then inferred else soft.sub;
    var main := if p.hard.main.None? && soft.main.None? then e.inferredMain else soft.main;
    p.(soft := Soft(main, sub))
  }

  function ParentOf(e: Evidence, sub: string): Option<string> {
    if e.norm(sub) in e.parents then Some(e.parents[e.norm(sub)]) else None
  }

  // A subcategory brings its known parent along, or gives way to a hard parent of another branch.
  function WithParent(e: Evidence, p: Plan): Plan {
    if p.hard.sub.Some? then
      var parent := ParentOf(e, p.hard.sub.value);
      if parent.None? then p else p.(hard := p.hard.(main := parent), soft := p.soft.(main := None))
    else if p.soft.sub.Some? then
      var parent := ParentOf(e, p.soft.sub.value);
      if parent.None? then p
      else if p.hard.main.Some? && e.norm(p.hard.main.value) != e.norm(parent.value) then p.(soft := Soft(None, None))
      else if Subcategory in p.relaxed then p.(hard := p.hard.(main := parent), soft := p.soft.(main := None))
      else p.(soft := p.soft.(main := parent))
    else p
  }

  function WithPlaces(e: Evidence, p: Plan): Plan {
    var h := p.hard;
    var same := h.city.Some? && h.locality.Some? && e.norm(h.city.value) == e.cityAlias(e.norm(h.locality.value));
    var g := if same then h.(locality := None) else h;
    var k := if g.locality.Some? && e.norm(g.locality.value) in e.places
             then var place := e.places[e.norm(g.locality.value)];
                  g.(city := OrElse(g.city, place.city), state := OrElse(g.state, place.state))
             else g;
    var state := if k.city.Some? && k.state.None? && e.norm(k.city.value) in e.states
                 then Some(e.states[e.norm(k.city.value)]) else k.state;
    p.(hard := k.(state := state))
  }

  function Enriched(e: Evidence, p: Plan): Plan {
    var q := WithHints(e, WithFuzzyPlace(e, WithIntent(e, Scan(e, p, FIELDS))));
    var r := WithPlaces(e, WithParent(e, q));
    r.(duration := e.duration, minimum := if r.minimum.None? then e.minimum else r.minimum,
       maximum := if r.maximum.None? then e.maximum else r.maximum)
  }

  // ================ What leaves the enricher ================

  // One subcategory at most, and only one hard-or-soft main category.
  predicate Separate(p: Plan) { (p.hard.sub.None? || p.soft.sub.None?) && (p.hard.main.None? || p.soft.main.None?) }

  lemma ScanSeparates(e: Evidence, p: Plan)
    ensures Separate(Scan(e, p, FIELDS))
    ensures p.relaxed == {} && Subcategory in Scan(e, p, FIELDS).relaxed ==> Scan(e, p, FIELDS).hard.sub.None?
  {
    hide Explicit, Truthy;
    var s1 := ScanField(e, p, MainCategory);
    var s2 := ScanField(e, s1, Subcategory);
    FiveFields(e, p);
    assert (s1.hard.main.None? || s1.soft.main.None?) && (s2.hard.main.None? || s2.soft.main.None?);
    LocationsKeepCategories(e, s2, State);
    LocationsKeepCategories(e, ScanField(e, s2, State), City);
    LocationsKeepCategories(e, ScanField(e, ScanField(e, s2, State), City), Locality);
  }

  lemma FiveFields(e: Evidence, p: Plan)
    ensures Scan(e, p, FIELDS)
         == ScanField(e, ScanField(e, ScanField(e, ScanField(e, ScanField(e, p, MainCategory), Subcategory), State), City), Locality)
  {
    hide Scan, ScanField;
    ScanLast(e, p, [], MainCategory);
    ScanLast(e, p, [MainCategory], Subcategory);
    ScanLast(e, p, [MainCategory, Subcategory], State);
    ScanLast(e, p, [MainCategory, Subcategory, State], City);
    ScanLast(e, p, [MainCategory, Subcategory, State, City], Locality);
    ScanNone(e, p);
    assert [MainCategory] == [] + [MainCategory] && [MainCategory, Subcategory] == [MainCategory] + [Subcategory];
    assert [MainCategory, Subcategory, State] == [MainCategory, Subcategory] + [State];
    assert [MainCategory, Subcategory, State, City] == [MainCategory, Subcategory, State] + [City];
    assert FIELDS == [MainCategory, Subcategory, State, City] + [Locality];
  }

  lemma ScanLast(e: Evidence, p: Plan, fields: seq<Field>, f: Field)
    ensures Scan(e, p, fields + [f]) == ScanField(e, Scan(e, p, fields), f)
  {
    hide ScanField;
    assert (fields + [f])[..|fields|] == fields;
  }

  lemma ScanNone(e: Evidence, p: Plan)
    ensures Scan(e, p, []) == p
  {}

  lemma LocationsKeepCategories(e: Evidence, p: Plan, f: Field)
    requires !Category(f)
    ensures var q := ScanField(e, p, f);
            q.soft == p.soft && q.relaxed == p.relaxed && q.hard.main == p.hard.main && q.hard.sub == p.hard.sub
  {
    hide Truthy;
  }

  // The chosen subcategory, hard or soft, and its known parent.
  function Chosen(p: Plan): Option<string> { if p.hard.sub.Some? then p.hard.sub else p.soft.sub }

  // For every query, catalogue, plan and policy: never a hard and a soft subcategory together. The
  // known parent of a hard or relaxed subcategory is the one hard main category; that of another
  // soft one is the soft main category, and a hard main category beside it has the same name up to
  // normalisation.
  lemma CategoriesConsistent(e: Evidence, plan: Plan)
    requires Sensible(e)
    ensures var p := Enriched(e, plan);
            && (p.hard.sub.None? || p.soft.sub.None?)
            && (Chosen(p).Some? && e.norm(Chosen(p).value) in e.parents ==>
                  var parent := Some(e.parents[e.norm(Chosen(p).value)]);
                  if p.hard.sub.Some? || Subcategory in p.relaxed then p.hard.main == parent && p.soft.main.None?
                  else p.soft.main == parent && (p.hard.main.Some? ==> e.norm(p.hard.main.value) == e.norm(parent.value)))
            && (p.hard.main.Some? && p.soft.main.Some? ==> e.norm(p.hard.main.value) == e.norm(p.soft.main.value))
  {
    hide Scan, WithIntent, WithFuzzyPlace, WithHints, WithParent, WithPlaces, Separate;
    ScanSeparates(e, plan);
    var s := Scan(e, plan, FIELDS);
    IntentSeparates(e, s);
    FuzzyKeeps(e, WithIntent(e, s));
    var f := WithFuzzyPlace(e, WithIntent(e, s));
    HintsSeparate(e, f);
    var q := WithHints(e, f);
    ParentConsistent(e, q);
    PlacesKeepCategories(e, WithParent(e, q));
  }

  lemma IntentSeparates(e: Evidence, p: Plan)
    requires Separate(p)
    ensures Separate(WithIntent(e, p))
  {
    hide IntentApplies;
  }

  lemma FuzzyKeeps(e: Evidence, p: Plan)
    requires Sensible(e)
    ensures var q := WithFuzzyPlace(e, p);
            q.soft == p.soft && q.relaxed == p.relaxed && q.hard.main == p.hard.main && q.hard.sub == p.hard.sub
    ensures Separate(p) ==> Separate(WithFuzzyPlace(e, p))
  {
    hide Truthy;
  }

  lemma HintsSeparate(e: Evidence, p: Plan)
    requires Separate(p)
    ensures Separate(WithHints(e, p))
  {}

  lemma ParentConsistent(e: Evidence, q: Plan)
    requires Separate(q)
    ensures var p := WithParent(e, q);
            && (p.hard.sub.None? || p.soft.sub.None?)
            && (Chosen(p).Some? && ParentOf(e, Chosen(p).value).Some? ==>
                  var parent := ParentOf(e, Chosen(p).value);
                  if p.hard.sub.Some? || Subcategory in p.relaxed then p.hard.main == parent && p.soft.main.None?
                  else p.soft.main == parent && (p.hard.main.Some? ==> e.norm(p.hard.main.value) == e.norm(parent.value)))
            && (p.hard.main.Some? && p.soft.main.Some? ==> e.norm(p.hard.main.value) == e.norm(p.soft.main.value))
  {}

  lemma PlacesKeepCategories(e: Evidence, p: Plan)
    ensures var q := WithPlaces(e, p);
            q.soft == p.soft && q.relaxed == p.relaxed && q.hard.main == p.hard.main && q.hard.sub == p.hard.sub
  {
    hide Truthy;
  }

  // A relaxed subcategory is never hard, and one with a known parent keeps that parent as a hard
  // boundary. Plans from parse_query_plan and default_query_plan relax nothing yet.
  lemma RelaxedKeepsParentHard(e: Evidence, plan: Plan)
    requires Sensible(e) && plan.relaxed == {}
    ensures var p := Enriched(e, plan);
            Subcategory in p.relaxed ==>
              && p.hard.sub.None?
              && (p.soft.sub.Some? && ParentOf(e, p.soft.sub.value).Some? ==>
                    p.hard.main == ParentOf(e, p.soft.sub.value) && p.soft.main.None?)
  {
    hide Scan, WithFuzzyPlace, WithHints, WithPlaces;
    ScanSeparates(e, plan);
    var s := Scan(e, plan, FIELDS);
    IntentRelaxes(e, s);
    var i := WithIntent(e, s);
    FuzzyKeeps(e, i);
    HintsKeepHard(e, WithFuzzyPlace(e, i));
    PlacesKeepCategories(e, WithParent(e, WithHints(e, WithFuzzyPlace(e, i))));
  }

  lemma IntentRelaxes(e: Evidence, p: Plan)
    requires Subcategory in p.relaxed ==> p.hard.sub.None?
    ensures Subcategory in WithIntent(e, p).relaxed ==> WithIntent(e, p).hard.sub.None?
  {
    hide IntentApplies;
  }

  lemma HintsKeepHard(e: Evidence, p: Plan)
    ensures WithHints(e, p).hard == p.hard && WithHints(e, p).relaxed == p.relaxed
  {}

  // A city with a known state never leaves without a state, and where neither the query, the plan, a
  // fuzzy match nor the locality gives one, it is the city's own.
  lemma CityHasState(e: Evidence, plan: Plan)
    ensures var h := Enriched(e, plan).hard;
            h.city.Some? && e.norm(h.city.value) in e.states ==>
              && h.state.Some?
              && (e.exact(State).None? && plan.hard.state.None? && (e.fuzzyPlace.Some? ==> e.fuzzyPlace.value.0 != State)
                  && (Located(e, h) ==> e.places[e.norm(h.locality.value)].state.None?) ==>
                    h.state == Some(e.states[e.norm(h.city.value)]))
  {
    KnownCityHasState(e, plan);
    hide Enriched;
    PlacesThatLeave(e, plan);
  }

  lemma KnownCityHasState(e: Evidence, plan: Plan)
    ensures var h := Enriched(e, plan).hard;
            h.city.Some? && e.norm(h.city.value) in e.states ==> h.state.Some?
  {
    hide Scan, WithParent, WithHints, WithIntent, WithFuzzyPlace;
  }

  // What the query states exactly is not given up: an exact city or state, and an explicit
  // subcategory unless the tenant's policy claims the phrase or relaxes it.
  lemma ExactIsKept(e: Evidence, plan: Plan)
    requires Sensible(e)
    ensures var h := Enriched(e, plan).hard;
            && (Truthy(e.exact(City)) ==> h.city == e.exact(City))
            && (Truthy(e.exact(State)) ==> h.state == e.exact(State))
            && (StatedSub(e) && !IntentApplies(e) ==> h.sub == e.exact(Subcategory))
  {
    hide Scan, StatedSub, WithIntent, WithFuzzyPlace, WithHints, WithParent, WithPlaces;
    ScanExact(e, plan);
    var s := Scan(e, plan, FIELDS);
    IntentKeepsPlaces(e, s);
    var i := WithIntent(e, s);
    FuzzyKeeps(e, i);
    FuzzyPlaces(e, i);
    var f := WithFuzzyPlace(e, i);
    HintsKeepHard(e, f);
    ParentKeepsPlaces(e, WithHints(e, f));
    SettledPlaces(e, WithParent(e, WithHints(e, f)));
  }

  // The query names this subcategory, explicitly and not after "electric".
  predicate StatedSub(e: Evidence) {
    e.exact(Subcategory).Some? && Explicit(e, Subcategory) && !e.electric(e.exact(Subcategory).value)
  }

  lemma FuzzyPlaces(e: Evidence, p: Plan)
    ensures var h := WithFuzzyPlace(e, p).hard;
            && (h.city == p.hard.city || (h.city.Some? && e.fuzzyPlace == Some((City, h.city.value))))
            && (Truthy(p.hard.city) || Truthy(p.hard.state) ==> h == p.hard)
  {}

  lemma SettledPlaces(e: Evidence, p: Plan)
    ensures var h := WithPlaces(e, p).hard;
            && (h.city == p.hard.city || exists k :: k in e.places && e.places[k].city == h.city)
            && (Truthy(p.hard.city) ==> h.city == p.hard.city) && (Truthy(p.hard.state) ==> h.state == p.hard.state)
            && h.sub == p.hard.sub
  {}

  lemma ScanExact(e: Evidence, p: Plan)
    ensures var h := Scan(e, p, FIELDS).hard;
            && (e.exact(City).Some? ==> h.city == e.exact(City)) && (e.exact(State).Some? ==> h.state == e.exact(State))
            && (StatedSub(e) ==> h.sub == e.exact(Subcategory))
  {
    hide Scan, Cleared;
    FiveFields(e, p);
    var s2 := ScanField(e, ScanField(e, p, MainCategory), Subcategory);
    var s3 := ScanField(e, s2, State);
    var s4 := ScanField(e, s3, City);
    LocationsKeepCategories(e, s2, State);
    LocationsKeepCategories(e, s3, City);
    LocationsKeepCategories(e, s4, Locality);
    FieldsApart(e, s3, City);
    FieldsApart(e, s4, Locality);
  }

  lemma FieldsApart(e: Evidence, p: Plan, f: Field)
    ensures var q := ScanField(e, p, f);
            (f != City ==> q.hard.city == p.hard.city) && (f != State ==> q.hard.state == p.hard.state)
            && (f != Locality ==> q.hard.locality == p.hard.locality)
  {
    hide Truthy, Explicit;
  }

  lemma IntentKeepsPlaces(e: Evidence, p: Plan)
    ensures var h := WithIntent(e, p).hard;
            h.city == p.hard.city && h.state == p.hard.state && h.locality == p.hard.locality
            && (!IntentApplies(e) ==> h.sub == p.hard.sub)
  {}

  lemma ParentKeepsPlaces(e: Evidence, p: Plan)
    ensures var h := WithParent(e, p).hard;
            h.city == p.hard.city && h.state == p.hard.state && h.locality == p.hard.locality && h.sub == p.hard.sub
  {}

  // A city filter that leaves is the one the query states, a catalogue form of one it mentions, a
  // fuzzy match, or the city of a known locality; a model cannot invent one.
  lemma CityIsGrounded(e: Evidence, plan: Plan)
    requires Sensible(e) && Enriched(e, plan).hard.city.Some?
    ensures var city := Enriched(e, plan).hard.city;
            || city == e.exact(City)
            || (plan.hard.city.Some? && e.mentioned(plan.hard.city.value) && city == e.canonical(City, plan.hard.city.value))
            || e.fuzzyPlace == Some((City, city.value))
            || exists k :: k in e.places && e.places[k].city == city
  {
    hide Scan, WithIntent, WithFuzzyPlace, WithHints, WithParent, WithPlaces;
    ScanCity(e, plan);
    var s := Scan(e, plan, FIELDS);
    IntentKeepsPlaces(e, s);
    var i := WithIntent(e, s);
    FuzzyPlaces(e, i);
    var f := WithFuzzyPlace(e, i);
    HintsKeepHard(e, f);
    ParentKeepsPlaces(e, WithHints(e, f));
    SettledPlaces(e, WithParent(e, WithHints(e, f)));
  }

  lemma ScanCity(e: Evidence, p: Plan)
    ensures var city := Scan(e, p, FIELDS).hard.city;
            city.None? || city == e.exact(City)
            || (p.hard.city.Some? && e.mentioned(p.hard.city.value) && city == e.canonical(City, p.hard.city.value))
  {
    hide Scan, Truthy;
    FiveFields(e, p);
    var s1 := ScanField(e, p, MainCategory);
    var s2 := ScanField(e, s1, Subcategory);
    var s3 := ScanField(e, s2, State);
    FieldsApart(e, p, MainCategory);
    FieldsApart(e, s1, Subcategory);
    FieldsApart(e, s2, State);
    FieldsApart(e, ScanField(e, s3, City), Locality);
  }

  // ---- Which place, which subcategory and which bounds leave ----

  predicate IsPlace(f: Field) { f == State || f == City || f == Locality }

  // The place of a field that the query states, or that the plan brings and the query confirms: not
  // contradicted, not a generic word, mentioned, and in its catalogue form.
  function Confirmed(e: Evidence, plan: Plan, f: Field): Option<string> {
    if e.exact(f).Some? then e.exact(f)
    else
      match plan.hard.Get(f)
      case None => None
      case Some(v) => if e.clears(f) || (v != "" && e.generic(v)) || !e.mentioned(v) then None else e.canonical(f, v)
  }

  // The same, or the fuzzy match when nothing at all is confirmed.
  function Given(e: Evidence, plan: Plan, f: Field): Option<string> {
    var nothing := !Truthy(Confirmed(e, plan, State)) && !Truthy(Confirmed(e, plan, City)) && !Truthy(Confirmed(e, plan, Locality));
    if nothing && e.fuzzyPlace.Some? && e.fuzzyPlace.value.0 == f then Some(e.fuzzyPlace.value.1) else Confirmed(e, plan, f)
  }

  lemma ScanConfirms(e: Evidence, plan: Plan, f: Field)
    requires IsPlace(f)
    ensures Scan(e, plan, FIELDS).hard.Get(f) == Confirmed(e, plan, f)
  {
    hide Scan, ScanField, Confirmed;
    FiveFields(e, plan);
    var s1 := ScanField(e, plan, MainCategory);
    var s2 := ScanField(e, s1, Subcategory);
    var s3 := ScanField(e, s2, State);
    var s4 := ScanField(e, s3, City);
    FieldsApart(e, plan, MainCategory);
    FieldsApart(e, s1, Subcategory);
    FieldsApart(e, s2, State);
    FieldsApart(e, s3, City);
    FieldsApart(e, s4, Locality);
    var before := match f case State => s2 case City => s3 case _ => s4;
    FieldConfirms(e, plan, before, f);
  }

  lemma FieldConfirms(e: Evidence, plan: Plan, p: Plan, f: Field)
    requires IsPlace(f) && p.hard.Get(f) == plan.hard.Get(f)
    ensures ScanField(e, p, f).hard.Get(f) == Confirmed(e, plan, f)
  {}

  // What reaches the last pass is what was given.
  lemma GivenReaches(e: Evidence, plan: Plan, f: Field)
    requires IsPlace(f)
    ensures var q := WithHints(e, WithFuzzyPlace(e, WithIntent(e, Scan(e, plan, FIELDS))));
            WithParent(e, q).hard.Get(f) == Given(e, plan, f)
  {
    hide Scan, WithIntent, WithHints, WithParent, Confirmed;
    ScanConfirms(e, plan, State);
    ScanConfirms(e, plan, City);
    ScanConfirms(e, plan, Locality);
    var s := Scan(e, plan, FIELDS);
    IntentKeepsPlaces(e, s);
    var w := WithFuzzyPlace(e, WithIntent(e, s));
    HintsKeepHard(e, w);
    ParentKeepsPlaces(e, WithHints(e, w));
  }

  // The catalogue knows where the locality that leaves is.
  predicate Located(e: Evidence, h: Hard) { h.locality.Some? && e.norm(h.locality.value) in e.places }

  // Which place leaves. The locality is the given one, dropped exactly when it names the given city. A
  // given city or state wins over those of the locality; a state that is still missing is that of the
  // city, and of no other.
  lemma PlacesThatLeave(e: Evidence, plan: Plan)
    ensures var h := Enriched(e, plan).hard;
            var (state, city, locality) := (Given(e, plan, State), Given(e, plan, City), Given(e, plan, Locality));
            && h.locality == (if city.Some? && locality.Some? && e.norm(city.value) == e.cityAlias(e.norm(locality.value))
                              then None else locality)
            && (Truthy(city) || !Located(e, h) ==> h.city == city)
            && (!Truthy(city) && Located(e, h) ==> h.city == e.places[e.norm(h.locality.value)].city)
            && (Truthy(state) ==> h.state == state)
            && (!Truthy(state) && Located(e, h) && e.places[e.norm(h.locality.value)].state.Some? ==>
                  h.state == e.places[e.norm(h.locality.value)].state)
            && (state.None? && !(Located(e, h) && e.places[e.norm(h.locality.value)].state.Some?) ==>
                  h.state == if h.city.Some? && e.norm(h.city.value) in e.states then Some(e.states[e.norm(h.city.value)]) else None)
  {
    hide Scan, WithIntent, WithFuzzyPlace, WithHints, WithParent, Given;
    GivenReaches(e, plan, State);
    GivenReaches(e, plan, City);
    GivenReaches(e, plan, Locality);
  }

  // A state filter that leaves is the one the query states, a catalogue form of one it mentions, a fuzzy
  // match, the state of the leaving locality, or the state of the leaving city.
  lemma StateIsGrounded(e: Evidence, plan: Plan)
    requires Enriched(e, plan).hard.state.Some?
    ensures var h := Enriched(e, plan).hard;
            || h.state == e.exact(State)
            || (plan.hard.state.Some? && e.mentioned(plan.hard.state.value) && h.state == e.canonical(State, plan.hard.state.value))
            || e.fuzzyPlace == Some((State, h.state.value))
            || (Located(e, h) && h.state == e.places[e.norm(h.locality.value)].state)
            || (h.city.Some? && e.norm(h.city.value) in e.states && h.state == Some(e.states[e.norm(h.city.value)]))
  {
    hide Enriched;
    PlacesThatLeave(e, plan);
    StateCases(e, plan);
  }

  // A blank state is kept as it is where no locality replaces it.
  lemma StateCases(e: Evidence, plan: Plan)
    ensures var h, state := Enriched(e, plan).hard, Given(e, plan, State);
            state == Some("") && !Located(e, h) ==> h.state == state
    ensures var h, state := Enriched(e, plan).hard, Given(e, plan, State);
            state == Some("") && Located(e, h) && e.places[e.norm(h.locality.value)].state.None? ==>
              h.state.None? || (h.city.Some? && e.norm(h.city.value) in e.states && h.state == Some(e.states[e.norm(h.city.value)]))
  {
    hide Scan, WithIntent, WithFuzzyPlace, WithHints, WithParent, Given;
    GivenReaches(e, plan, State);
    GivenReaches(e, plan, City);
    GivenReaches(e, plan, Locality);
  }

  // The subcategory that leaves as a hard filter: the policy's where it applies and asks for one,
  // otherwise the one the query states; in every other case there is none.
  lemma HardSubIff(e: Evidence, plan: Plan)
    requires Sensible(e)
    ensures var exact, intent := e.exact(Subcategory), e.intent;
            var stated := exact.Some? && ((!e.normalized && e.stated(Subcategory)) || e.requests(exact.value))
                          && !e.electric(exact.value);
            var stands := exact.Some? && e.stated(Subcategory) && intent.Some?
                          && e.norm(exact.value) != e.norm(intent.value.sub) && !intent.value.overridesConflict;
            Enriched(e, plan).hard.sub ==
              if intent.Some? && !stands then
                (if (!e.normalized || intent.value.hardWhenNormalized) && !intent.value.relaxSub then Some(intent.value.sub) else None)
              else if stated then exact else None
  {
    hide Enriched, Truthy;
    HardSubIs(e, plan);
  }

  lemma HardSubIs(e: Evidence, plan: Plan)
    requires Sensible(e)
    ensures Enriched(e, plan).hard.sub ==
              if IntentApplies(e) then
                (if (!e.normalized || e.intent.value.hardWhenNormalized) && !e.intent.value.relaxSub then Some(e.intent.value.sub) else None)
              else if StatedSub(e) then e.exact(Subcategory) else None
  {
    hide Scan, WithFuzzyPlace, WithHints, WithParent, WithPlaces, StatedSub, IntentApplies;
    ScanSub(e, plan);
    var s := Scan(e, plan, FIELDS);
    var i := WithIntent(e, s);
    FuzzyKeeps(e, i);
    HintsKeepHard(e, WithFuzzyPlace(e, i));
    ParentKeepsPlaces(e, WithHints(e, WithFuzzyPlace(e, i)));
    PlacesKeepCategories(e, WithParent(e, WithHints(e, WithFuzzyPlace(e, i))));
  }

  lemma ScanSub(e: Evidence, p: Plan)
    ensures Scan(e, p, FIELDS).hard.sub == if StatedSub(e) then e.exact(Subcategory) else None
  {
    hide Scan, Truthy, Explicit;
    FiveFields(e, p);
    var s2 := ScanField(e, ScanField(e, p, MainCategory), Subcategory);
    var s3 := ScanField(e, s2, State);
    LocationsKeepCategories(e, s2, State);
    LocationsKeepCategories(e, s3, City);
    LocationsKeepCategories(e, ScanField(e, s3, City), Locality);
  }

  // A policy that applies without asking for a hard filter makes its subcategory, in catalogue form,
  // the soft one and relaxes it, unless a hard main category of another branch stands against it.
  lemma IntentIsSoft(e: Evidence, plan: Plan)
    requires Sensible(e) && IntentApplies(e)
    requires (e.normalized && !e.intent.value.hardWhenNormalized) || e.intent.value.relaxSub
    ensures var p, named := Enriched(e, plan), e.canonical(Subcategory, e.intent.value.sub);
            && Subcategory in p.relaxed
            && (named.Some? ==>
                  p.soft.sub == named
                  || (p.soft == Soft(None, None) && ParentOf(e, named.value).Some? && p.hard.main.Some?
                      && e.norm(p.hard.main.value) != e.norm(ParentOf(e, named.value).value)))
  {
    hide Scan, WithFuzzyPlace, WithPlaces, IntentApplies;
    var s := Scan(e, plan, FIELDS);
    var i := WithIntent(e, s);
    FuzzyKeeps(e, i);
    PlacesKeepCategories(e, WithParent(e, WithHints(e, WithFuzzyPlace(e, i))));
  }

  // A policy's main category, in catalogue form, is the hard one unless the chosen subcategory's own
  // parent takes its place.
  lemma IntentSetsMain(e: Evidence, plan: Plan)
    requires Sensible(e) && IntentApplies(e) && e.intent.value.main.Some?
    requires e.canonical(MainCategory, e.intent.value.main.value).Some?
    ensures var p, main := Enriched(e, plan), e.canonical(MainCategory, e.intent.value.main.value);
            p.hard.main == main || (Chosen(p).Some? && p.hard.main == ParentOf(e, Chosen(p).value))
  {
    hide Scan, WithFuzzyPlace, WithPlaces, IntentApplies;
    var s := Scan(e, plan, FIELDS);
    var i := WithIntent(e, s);
    FuzzyKeeps(e, i);
    PlacesKeepCategories(e, WithParent(e, WithHints(e, WithFuzzyPlace(e, i))));
  }

  // A category is inferred only where neither the query, the policy nor the plan left one, and never
  // from the subject of a repair.
  lemma InferenceIsLast(e: Evidence, plan: Plan)
    requires Sensible(e)
    ensures var s, p := WithIntent(e, Scan(e, plan, FIELDS)), Enriched(e, plan);
            p.soft.sub.Some? ==>
              || (s.soft.sub.Some? && p.soft.sub == e.canonical(Subcategory, s.soft.sub.value))
              || (s.hard.sub.None? && Canonical(e, Subcategory, s.soft.sub).None? && p.soft.sub == e.inferredSub
                  && !e.repairSubject(p.soft.sub.value))
  {
    hide Scan, WithIntent, WithFuzzyPlace, WithPlaces;
    var i := WithIntent(e, Scan(e, plan, FIELDS));
    FuzzyKeeps(e, i);
    PlacesKeepCategories(e, WithParent(e, WithHints(e, WithFuzzyPlace(e, i))));
  }

  // And there it is used, unless a hard main category of another branch stands against it.
  lemma InferenceIsUsed(e: Evidence, plan: Plan)
    requires Sensible(e) && e.inferredSub.Some? && !e.repairSubject(e.inferredSub.value)
    ensures var s, p := WithIntent(e, Scan(e, plan, FIELDS)), Enriched(e, plan);
            s.hard.sub.None? && Canonical(e, Subcategory, s.soft.sub).None? ==>
              || p.soft.sub == e.inferredSub
              || (p.soft == Soft(None, None) && ParentOf(e, e.inferredSub.value).Some? && p.hard.main.Some?
                  && e.norm(p.hard.main.value) != e.norm(ParentOf(e, e.inferredSub.value).value))
  {
    hide Scan, WithIntent, WithFuzzyPlace, WithPlaces;
    var i := WithIntent(e, Scan(e, plan, FIELDS));
    FuzzyKeeps(e, i);
    PlacesKeepCategories(e, WithParent(e, WithHints(e, WithFuzzyPlace(e, i))));
  }

  // A soft main category is the parent of the soft subcategory, the catalogue form of the hint, or
  // inferred where there is no other; inferred where there is neither category nor hint.
  lemma SoftMainIs(e: Evidence, plan: Plan)
    requires Sensible(e)
    ensures var s, p := WithIntent(e, Scan(e, plan, FIELDS)), Enriched(e, plan);
            && (p.soft.main.Some? ==>
                  || (p.soft.sub.Some? && p.soft.main == ParentOf(e, p.soft.sub.value))
                  || p.soft.main == Canonical(e, MainCategory, s.soft.main)
                  || (s.hard.main.None? && Canonical(e, MainCategory, s.soft.main).None? && p.soft.main == e.inferredMain))
            && (Chosen(p).None? && s.hard.main.None? && p.hard.main.None? ==>
                  p.soft.main == OrNone(Canonical(e, MainCategory, s.soft.main), e.inferredMain))
  {
    hide Scan, WithIntent, WithFuzzyPlace, WithPlaces;
    var i := WithIntent(e, Scan(e, plan, FIELDS));
    FuzzyKeeps(e, i);
    PlacesKeepCategories(e, WithParent(e, WithHints(e, WithFuzzyPlace(e, i))));
  }

  function OrNone(v: Option<string>, w: Option<string>): Option<string> { if v.Some? then v else w }

  // The soft subcategory that reaches inference: the policy's, else the one the query names without
  // asking for it, else what the plan proposed; a single word the query does not ask for clears it.
  lemma HintOfScan(e: Evidence, plan: Plan)
    ensures var s := Scan(e, plan, FIELDS);
            && (e.exact(Subcategory).Some? ==>
                  s.soft.sub == if StatedSub(e) || (!Explicit(e, Subcategory) && e.oneWord(e.exact(Subcategory).value)) then None
                                else e.exact(Subcategory))
            && (e.exact(Subcategory).None? && plan.hard.sub.Some? && !e.clears(Subcategory) ==>
                  s.soft.sub == if Truthy(e.canonical(Subcategory, plan.hard.sub.value))
                                then e.canonical(Subcategory, plan.hard.sub.value) else plan.hard.sub)
            && (e.exact(Subcategory).None? && (plan.hard.sub.None? || e.clears(Subcategory)) ==>
                  s.soft.sub == if e.exact(MainCategory).Some? && !Explicit(e, MainCategory) && e.oneWord(e.exact(MainCategory).value)
                                then None else plan.soft.sub)
  {
    hide Scan, Truthy, Explicit;
    FiveFields(e, plan);
    var s2 := ScanField(e, ScanField(e, plan, MainCategory), Subcategory);
    var s3 := ScanField(e, s2, State);
    LocationsKeepCategories(e, s2, State);
    LocationsKeepCategories(e, s3, City);
    LocationsKeepCategories(e, ScanField(e, s3, City), Locality);
  }

  // The same for the main category, which only an explicit one makes hard.
  lemma MainOfScan(e: Evidence, plan: Plan)
    ensures var s := Scan(e, plan, FIELDS);
            && (var exact := e.exact(MainCategory);
                s.hard.main == if exact.Some? && ((!e.normalized && e.stated(MainCategory)) || e.requests(exact.value)) then exact else None)
            && (e.exact(MainCategory).Some? && !Explicit(e, MainCategory) && !e.oneWord(e.exact(MainCategory).value)
                && (e.exact(Subcategory).None? || Explicit(e, Subcategory) || !e.oneWord(e.exact(Subcategory).value)) ==>
                  s.soft.main == e.exact(MainCategory))
  {
    hide Scan, Truthy;
    FiveFields(e, plan);
    var s2 := ScanField(e, ScanField(e, plan, MainCategory), Subcategory);
    var s3 := ScanField(e, s2, State);
    LocationsKeepCategories(e, s2, State);
    LocationsKeepCategories(e, s3, City);
    LocationsKeepCategories(e, ScanField(e, s3, City), Locality);
  }

  // Price bounds the plan holds win over those read from the query; the duration is the query's alone.
  lemma BoundsThatLeave(e: Evidence, plan: Plan)
    ensures var p := Enriched(e, plan);
            && p.duration == e.duration
            && (plan.minimum.Some? ==> p.minimum == plan.minimum) && (plan.minimum.None? ==> p.minimum == e.minimum)
            && (plan.maximum.Some? ==> p.maximum == plan.maximum) && (plan.maximum.None? ==> p.maximum == e.maximum)
  {
    hide Scan, WithIntent, WithFuzzyPlace, WithHints, WithParent, WithPlaces;
    ScanKeepsBounds(e, plan, FIELDS);
    var i := WithIntent(e, Scan(e, plan, FIELDS));
    IntentKeepsBounds(e, Scan(e, plan, FIELDS));
    FuzzyKeepsBounds(e, i);
    var q := WithHints(e, WithFuzzyPlace(e, i));
    HintsKeepBounds(e, WithFuzzyPlace(e, i));
    ParentKeepsBounds(e, q);
    PlacesKeepBounds(e, WithParent(e, q));
  }

  lemma IntentKeepsBounds(e: Evidence, p: Plan)
    ensures WithIntent(e, p).minimum == p.minimum && WithIntent(e, p).maximum == p.maximum
  {
    hide IntentApplies;
  }

  lemma FuzzyKeepsBounds(e: Evidence, p: Plan)
    ensures WithFuzzyPlace(e, p).minimum == p.minimum && WithFuzzyPlace(e, p).maximum == p.maximum
  {}

  lemma ParentKeepsBounds(e: Evidence, p: Plan)
    ensures WithParent(e, p).minimum == p.minimum && WithParent(e, p).maximum == p.maximum
  {}

  lemma PlacesKeepBounds(e: Evidence, p: Plan)
    ensures WithPlaces(e, p).minimum == p.minimum && WithPlaces(e, p).maximum == p.maximum
  {}

  lemma HintsKeepBounds(e: Evidence, p: Plan)
    ensures WithHints(e, p).minimum == p.minimum && WithHints(e, p).maximum == p.maximum
  {}

  lemma {:induction false} ScanKeepsBounds(e: Evidence, p: Plan, fields: seq<Field>)
    ensures Scan(e, p, fields).minimum == p.minimum && Scan(e, p, fields).maximum == p.maximum
  {
    hide Explicit, Truthy;
    if fields != [] { ScanKeepsBounds(e, p, fields[..|fields| - 1]); }
  }

  // Catalogue functions that return catalogue values leave only catalogue values as soft hints.
  lemma HintsAreCatalogued(e: Evidence, plan: Plan, catalogue: set<string>)
    requires forall f: Field, v :: e.canonical(f, v).Some? ==> e.canonical(f, v).value in catalogue
    requires (e.inferredSub.Some? ==> e.inferredSub.value in catalogue) && (e.inferredMain.Some? ==> e.inferredMain.value in catalogue)
    requires forall k :: k in e.parents ==> e.parents[k] in catalogue
    ensures var soft := Enriched(e, plan).soft;
            (soft.main.Some? ==> soft.main.value in catalogue) && (soft.sub.Some? ==> soft.sub.value in catalogue)
  {
    hide Scan, WithIntent, WithFuzzyPlace, WithPlaces, Truthy;
    var q := WithHints(e, WithFuzzyPlace(e, WithIntent(e, Scan(e, plan, FIELDS))));
    assert (q.soft.main.Some? ==> q.soft.main.value in catalogue) && (q.soft.sub.Some? ==> q.soft.sub.value in catalogue);
    PlacesKeepCategories(e, WithParent(e, q));
  }

  // ================ The enricher as it is written ================

  method EnrichQueryPlan(e: Evidence, plan: Plan) returns (enriched: Plan)
    ensures enriched == Enriched(e, plan)
  {
    var hard, soft, relaxed := plan.hard, plan.soft, plan.relaxed;
    var i := 0;
    while i < |FIELDS|
      invariant i <= |FIELDS| && plan.(hard := hard, soft := soft, relaxed := relaxed) == Scan(e, plan, FIELDS[..i])
    {
      var key := FIELDS[i];
      assert FIELDS[..i + 1][..i] == FIELDS[..i];
      hard, soft, relaxed := ScanOne(e, plan, hard, soft, relaxed, key);
      i := i + 1;
    }
    assert FIELDS[..i] == FIELDS;
    hide Scan, ScanField;
    hard, soft, relaxed := ApplyIntent(e, plan, hard, soft, relaxed);
    if !(Truthy(hard.state) || Truthy(hard.city) || Truthy(hard.locality)) && e.fuzzyPlace.Some? {
      hard := hard.With(e.fuzzyPlace.value.0, Some(e.fuzzyPlace.value.1));
    }
    soft := ReviseHints(e, plan, hard, soft, relaxed);
    hard, soft := SettleParent(e, plan, hard, soft, relaxed);
    hard := SettlePlaces(e, plan, hard, soft, relaxed);
    enriched := Plan(hard, soft, relaxed, e.duration, if plan.minimum.None? then e.minimum else plan.minimum,
                     if plan.maximum.None? then e.maximum else plan.maximum);
  }

  method ScanOne(e: Evidence, plan: Plan, hard0: Hard, soft0: Soft, relaxed0: set<Field>, key: Field)
    returns (hard: Hard, soft: Soft, relaxed: set<Field>)
    ensures plan.(hard := hard, soft := soft, relaxed := relaxed)
         == ScanField(e, plan.(hard := hard0, soft := soft0, relaxed := relaxed0), key)
  {
    hard, soft, relaxed := hard0, soft0, relaxed0;
    if key in {State, City, Locality} && Truthy(hard.Get(key)) && e.generic(hard.Get(key).value) {
      hard := hard.With(key, None);
    }
    var exact := e.exact(key);
    if e.clears(key) { hard := hard.With(key, None); }
    var isExplicit := !Category(key) || exact.None? || (!e.normalized && e.stated(key)) || e.requests(exact.value);
    if exact.Some? && !isExplicit {
      hard := hard.With(key, None);
      soft := if e.oneWord(exact.value) then Soft(None, None) else soft.With(key, exact);
      return;
    }
    if exact.Some? {
      if key == Subcategory && e.electric(exact.value) {
        hard, soft, relaxed := hard.With(key, None), soft.With(key, exact), relaxed + {key};
      } else {
        hard, soft := hard.With(key, exact), soft.With(key, None);
      }
    } else if hard.Get(key).Some? {
      var value := hard.Get(key).value;
      var canonical := e.canonical(key, value);
      if Category(key) {
        soft := soft.With(key, if Truthy(canonical) then canonical else Some(value));
        hard := hard.With(key, None);
      } else if canonical.Some? && e.mentioned(value) {
        hard := hard.With(key, canonical);
      } else {
        hard := hard.With(key, None);
      }
    }
  }

  method ApplyIntent(e: Evidence, plan: Plan, hard0: Hard, soft0: Soft, relaxed0: set<Field>)
    returns (hard: Hard, soft: Soft, relaxed: set<Field>)
    ensures plan.(hard := hard, soft := soft, relaxed := relaxed)
         == WithIntent(e, plan.(hard := hard0, soft := soft0, relaxed := relaxed0))
  {
    hard, soft, relaxed := hard0, soft0, relaxed0;
    var stated := e.exact(Subcategory);
    if e.intent.Some?
       && !(stated.Some? && e.stated(Subcategory) && e.norm(stated.value) != e.norm(e.intent.value.sub)
            && !e.intent.value.overridesConflict) {
      var intent := e.intent.value;
      var isHard := !e.normalized || intent.hardWhenNormalized;
      if isHard && !intent.relaxSub {
        hard, soft, relaxed := hard.(sub := Some(intent.sub)), soft.(sub := None), relaxed - {Subcategory};
      } else {
        hard, soft, relaxed := hard.(sub := None), soft.(sub := Some(intent.sub)), relaxed + {Subcategory};
      }
      if intent.main.Some? {
        var parent := e.canonical(MainCategory, intent.main.value);
        if parent.Some? { hard, soft := hard.(main := parent), soft.(main := None); }
      }
    }
  }

  method ReviseHints(e: Evidence, plan: Plan, hard: Hard, soft0: Soft, relaxed: set<Field>) returns (soft: Soft)
    ensures plan.(hard := hard, soft := soft, relaxed := relaxed)
         == WithHints(e, plan.(hard := hard, soft := soft0, relaxed := relaxed))
  {
    soft := soft0;
    if soft.main.Some? { soft := soft.(main := e.canonical(MainCategory, soft.main.value)); }
    if soft.sub.Some? { soft := soft.(sub := e.canonical(Subcategory, soft.sub.value)); }
    if hard.sub.None? && soft.sub.None? {
      var inferred := e.inferredSub;
      if inferred.Some? && e.repairSubject(inferred.value) { inferred := None; }
      soft := soft.(sub := inferred);
    }
    if hard.main.None? && soft.main.None? { soft := soft.(main := e.inferredMain); }
  }

  method SettleParent(e: Evidence, plan: Plan, hard0: Hard, soft0: Soft, relaxed: set<Field>) returns (hard: Hard, soft: Soft)
    ensures plan.(hard := hard, soft := soft, relaxed := relaxed)
         == WithParent(e, plan.(hard := hard0, soft := soft0, relaxed := relaxed))
  {
    hard, soft := hard0, soft0;
    if hard.sub.Some? {
      var parent := ParentOf(e, hard.sub.value);
      if parent.Some? { hard, soft := hard.(main := parent), soft.(main := None); }
    } else if soft.sub.Some? {
      var parent := ParentOf(e, soft.sub.value);
      if parent.Some? {
        if hard.main.Some? && e.norm(hard.main.value) != e.norm(parent.value) {
          soft := Soft(None, None);
        } else if Subcategory in relaxed {
          hard, soft := hard.(main := parent), soft.(main := None);
        } else {
          soft := soft.(main := parent);
        }
      }
    }
  }

  method SettlePlaces(e: Evidence, plan: Plan, hard0: Hard, soft: Soft, relaxed: set<Field>) returns (hard: Hard)
    ensures plan.(hard := hard, soft := soft, relaxed := relaxed)
         == WithPlaces(e, plan.(hard := hard0, soft := soft, relaxed := relaxed))
  {
    hard := hard0;
    if hard.city.Some? && hard.locality.Some? {
      if e.norm(hard.city.value) == e.cityAlias(e.norm(hard.locality.value)) { hard := hard.(locality := None); }
    }
    if hard.locality.Some? && e.norm(hard.locality.value) in e.places {
      var place := e.places[e.norm(hard.locality.value)];
      hard := hard.(city := OrElse(hard.city, place.city), state := OrElse(hard.state, place.state));
    }
    if hard.city.Some? && hard.state.None? && e.norm(hard.city.value) in e.states {
      hard := hard.(state := Some(e.states[e.norm(hard.city.value)]));
    }
  }
}
