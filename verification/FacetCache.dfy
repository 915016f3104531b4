// query_facets_snapshot of src/analytics_service/store.py against publications: each select, each
// lock section and each commit is one step, taken by any reader or publisher in any order.
module FacetCache {
  import opened QueryPages

  // The facets are computed by this many selects, each reading the database afresh.
  const SELECTS: nat := 5

  type Choices = string
  datatype Audience = Company | Internal

  // `facet(k, audience, records)` is what select number k returns over these records.
  type Selects = (nat, Audience, seq<Record>) -> Choices

  datatype Slot = Slot(company: string, version: nat)
  datatype Entry = Entry(slot: Slot, audience: Audience)

  datatype Reader =
    | Idle
    | Looking(entry: Entry)                         // has read the active version
    | Collecting(entry: Entry, parts: seq<Choices>) // missed the cache

  datatype World = World(
    active: map<string, nat>,
    records: map<Slot, seq<Record>>,        // analytics_query_records by company and version
    cache: map<Entry, seq<Choices>>,
    readers: seq<Reader>,
    versions: set<nat>)                     // every version ever published

  datatype Event =
    | Commit(company: string, version: nat, published: seq<Record>)
    | ForgetCompany(company: string)        // the lock section after the commit
    | ReadVersion(reader: nat, company: string, audience: Audience)
    | LookUp(reader: nat)
    | Select(reader: nat)
    | Store(reader: nat)

  function Stored(w: World, slot: Slot): seq<Record> { if slot in w.records then w.records[slot] else [] }

  function Facets(facet: Selects, audience: Audience, records: seq<Record>): seq<Choices> {
    seq(SELECTS, k requires 0 <= k => facet(k, audience, records))
  }

  function CommitStep(w: World, company: string, version: nat, published: seq<Record>): World {
    if version in w.versions then w
    else
      var cleared := if company in w.active then w.records - {Slot(company, w.active[company])} else w.records;
      w.(active := w.active[company := version], records := cleared[Slot(company, version) := published],
         versions := w.versions + {version})
  }

  function ReaderStep(facet: Selects, w: World, e: Event): World
    requires !e.Commit? && !e.ForgetCompany? && e.reader < |w.readers|
  {
    var r := w.readers[e.reader];
    match e
    case ReadVersion(i, company, audience) =>
      if r.Idle? && company in w.active
      then w.(readers := w.readers[i := Looking(Entry(Slot(company, w.active[company]), audience))]) else w
    case LookUp(i) =>
      if !r.Looking? then w
      else w.(readers := w.readers[i := if r.entry in w.cache then Idle else Collecting(r.entry, [])])
    case Select(i) =>
      if r.Collecting? && |r.parts| < SELECTS
      then w.(readers := w.readers[i := Collecting(r.entry, r.parts + [facet(|r.parts|, r.entry.audience, Stored(w, r.entry.slot))])])
      else w
    case Store(i) =>
      if r.Collecting? && |r.parts| == SELECTS
      then w.(readers := w.readers[i := Idle], cache := w.cache[r.entry := r.parts]) else w
  }

  function Step(facet: Selects, w: World, e: Event): World {
    if e.Commit? then CommitStep(w, e.company, e.version, e.published)
    else if e.ForgetCompany? then w.(cache := map k | k in w.cache && k.slot.company != e.company :: w.cache[k])
    else if e.reader < |w.readers| then ReaderStep(facet, w, e)
    else w
  }

  function Run(facet: Selects, w: World, events: seq<Event>): World
    decreases |events|
  {
    if events == [] then w else Run(facet, Step(facet, w, events[0]), events[1..])
  }

  predicate Active(w: World, slot: Slot) { slot.company in w.active && w.active[slot.company] == slot.version }

  // What is cached or collected for a version that is still active is right.
  predicate Right(facet: Selects, w: World, entry: Entry, parts: seq<Choices>) {
    && entry.slot.version in w.versions
    && (Active(w, entry.slot) ==>
          |parts| <= SELECTS && parts == Facets(facet, entry.audience, Stored(w, entry.slot))[..|parts|])
  }

  ghost predicate Sound(facet: Selects, w: World) {
    && (forall c :: c in w.active ==> w.active[c] in w.versions)
    && (forall k :: k in w.cache ==> |w.cache[k]| == SELECTS && Right(facet, w, k, w.cache[k]))
    && (forall i :: 0 <= i < |w.readers| ==>
          match w.readers[i]
          case Idle => true
          case Looking(entry) => entry.slot.version in w.versions
          case Collecting(entry, parts) => Right(facet, w, entry, parts))
  }

  lemma CommitSound(facet: Selects, w: World, e: Event)
    requires Sound(facet, w) && e.Commit?
    ensures Sound(facet, Step(facet, w, e))
  {
    hide Facets;
    var v := Step(facet, w, e);
    if v != w {
      forall slot: Slot | slot.version in w.versions && Active(v, slot)
        ensures Active(w, slot) && Stored(v, slot) == Stored(w, slot)
      {}
    }
  }

  lemma SelectSound(facet: Selects, w: World, i: nat)
    requires Sound(facet, w) && i < |w.readers|
    ensures Sound(facet, Step(facet, w, Select(i)))
  {
    var r := w.readers[i];
    if r.Collecting? && |r.parts| < SELECTS {
      assert Right(facet, w, r.entry, r.parts);
      var all := Facets(facet, r.entry.audience, Stored(w, r.entry.slot));
      var more := r.parts + [facet(|r.parts|, r.entry.audience, Stored(w, r.entry.slot))];
      assert Active(w, r.entry.slot) ==> more == all[..|more|];
    }
  }

  lemma StepSound(facet: Selects, w: World, e: Event)
    requires Sound(facet, w)
    ensures Sound(facet, Step(facet, w, e))
  {
    hide Facets;
    if e.Commit? {
      CommitSound(facet, w, e);
    } else if e.Select? && e.reader < |w.readers| {
      SelectSound(facet, w, e.reader);
    } else if e.Store? && e.reader < |w.readers| && w.readers[e.reader].Collecting? {
      assert Right(facet, w, w.readers[e.reader].entry, w.readers[e.reader].parts);
    }
  }

  lemma {:induction false} RunSound(facet: Selects, w: World, events: seq<Event>)
    requires Sound(facet, w)
    ensures Sound(facet, Run(facet, w, events))
    decreases |events|
  {
    hide Sound, Step;
    if events != [] {
      StepSound(facet, w, events[0]);
      RunSound(facet, Step(facet, w, events[0]), events[1..]);
    }
  }

  predicate Fresh(w: World) {
    w.cache == map[] && w.active == map[] && forall i :: 0 <= i < |w.readers| ==> w.readers[i] == Idle
  }

  // A hit on a version that is active at the lookup returns what recomputing from it would.
  lemma HitIsCurrent(facet: Selects, w: World, events: seq<Event>, entry: Entry)
    requires Fresh(w)
    ensures var v := Run(facet, w, events);
            entry in v.cache && Active(v, entry.slot) ==>
              v.cache[entry] == Facets(facet, entry.audience, Stored(v, entry.slot))
  {
    RunSound(facet, w, events);
    var v := Run(facet, w, events);
    if entry in v.cache && Active(v, entry.slot) {
      assert Right(facet, v, entry, v.cache[entry]);
    }
  }

  lemma RunThen(facet: Selects, w: World, e: Event, rest: seq<Event>)
    ensures Run(facet, w, [e] + rest) == Run(facet, Step(facet, w, e), rest)
  {
    assert ([e] + rest)[1..] == rest;
  }

  function Selections(i: nat, n: nat): seq<Event> { if n == 0 then [] else [Select(i)] + Selections(i, n - 1) }

  // A reader that is not interrupted caches what the stored records give.
  lemma {:induction false} Collects(facet: Selects, w: World, i: nat, n: nat)
    requires i < |w.readers| && w.readers[i].Collecting? && |w.readers[i].parts| + n == SELECTS
    requires w.readers[i].parts
          == Facets(facet, w.readers[i].entry.audience, Stored(w, w.readers[i].entry.slot))[..SELECTS - n]
    ensures var all := Facets(facet, w.readers[i].entry.audience, Stored(w, w.readers[i].entry.slot));
            Run(facet, w, Selections(i, n) + [Store(i)])
            == w.(readers := w.readers[i := Idle], cache := w.cache[w.readers[i].entry := all])
    decreases n
  {
    var r := w.readers[i];
    var all := Facets(facet, r.entry.audience, Stored(w, r.entry.slot));
    if n == 0 {
      RunThen(facet, w, Store(i), []);
      assert [] + [Store(i)] == [Store(i)] + [];
      assert all[..SELECTS] == all;
    } else {
      var v := Step(facet, w, Select(i));
      assert v.readers[i].parts == all[..SELECTS - (n - 1)];
      Collects(facet, v, i, n - 1);
      RunThen(facet, w, Select(i), Selections(i, n - 1) + [Store(i)]);
      assert Selections(i, n) + [Store(i)] == [Select(i)] + (Selections(i, n - 1) + [Store(i)]);
      assert v.readers[i := Idle] == w.readers[i := Idle];
    }
  }

  function StaleRun(rows: seq<Record>): seq<Event> {
    [Commit("acme", 1, rows)] + ([ReadVersion(0, "acme", Company)] + ([ReadVersion(1, "acme", Company)]
    + ([Commit("acme", 2, rows)] + ([ForgetCompany("acme")] + ([LookUp(0)] + (Selections(0, SELECTS) + [Store(0)]))))))
  }

  lemma StaleSetup(facet: Selects, w: World, rows: seq<Record>)
    requires Fresh(w) && w.versions == {} && |w.readers| == 2
    ensures var entry := Entry(Slot("acme", 1), Company);
            var v := Step(facet, Step(facet, Step(facet, Step(facet, Step(facet, w, Commit("acme", 1, rows)),
                     ReadVersion(0, "acme", Company)), ReadVersion(1, "acme", Company)), Commit("acme", 2, rows)),
                     ForgetCompany("acme"));
            v.readers == [Looking(entry), Looking(entry)] && v.cache == map[] && Stored(v, entry.slot) == []
  {
    hide Facets;
    var w1 := Step(facet, w, Commit("acme", 1, rows));
    var w3 := Step(facet, Step(facet, w1, ReadVersion(0, "acme", Company)), ReadVersion(1, "acme", Company));
    assert w3.active["acme"] == 1 && w3.versions == {1};
  }

  // The condition is needed: two readers see version 1, version 2 replaces it, the first reader
  // collects nothing for version 1 and caches that, and the second is about to be served it.
  lemma StaleHit(facet: Selects, w: World, rows: seq<Record>)
    requires Fresh(w) && w.versions == {} && |w.readers| == 2
    requires facet(0, Company, rows) != facet(0, Company, [])
    ensures var entry := Entry(Slot("acme", 1), Company);
            var v := Run(facet, w, StaleRun(rows));
            && v.readers == [Idle, Looking(entry)]
            && entry in v.cache && v.cache[entry] != Facets(facet, Company, rows)
  {
    hide Run, CommitStep;
    var entry := Entry(Slot("acme", 1), Company);
    StaleSetup(facet, w, rows);
    var w1 := Step(facet, w, Commit("acme", 1, rows));
    var w2 := Step(facet, w1, ReadVersion(0, "acme", Company));
    var w3 := Step(facet, w2, ReadVersion(1, "acme", Company));
    var w4 := Step(facet, w3, Commit("acme", 2, rows));
    var w5 := Step(facet, w4, ForgetCompany("acme"));
    var w6 := Step(facet, w5, LookUp(0));
    var t6 := Selections(0, SELECTS) + [Store(0)];
    var t5 := [LookUp(0)] + t6;
    var t4 := [ForgetCompany("acme")] + t5;
    var t3 := [Commit("acme", 2, rows)] + t4;
    var t2 := [ReadVersion(1, "acme", Company)] + t3;
    RunThen(facet, w, Commit("acme", 1, rows), [ReadVersion(0, "acme", Company)] + t2);
    RunThen(facet, w1, ReadVersion(0, "acme", Company), t2);
    RunThen(facet, w2, ReadVersion(1, "acme", Company), t3);
    RunThen(facet, w3, Commit("acme", 2, rows), t4);
    RunThen(facet, w4, ForgetCompany("acme"), t5);
    RunThen(facet, w5, LookUp(0), t6);
    Collects(facet, w6, 0, SELECTS);
    assert Facets(facet, Company, rows)[0] != Facets(facet, Company, [])[0];
  }
}
