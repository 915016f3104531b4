// Publication of analytics snapshots (src/analytics_service/store.py): the transaction that swaps a
// company's query records, and the facet cache that readers fill while snapshots are published.
module Snapshots {
  import opened QueryPages
  import opened Wrappers

  const BATCH_SIZE: nat := 1000

  datatype Row = Row(company: string, version: nat, record: Record)

  // The records a refresh yields; the generator may raise after the last of them.
  datatype Stream = Stream(records: seq<Record>, breaks: bool)

  predicate SameKey(a: Row, b: Row) {
    a.company == b.company && a.version == b.version && a.record.key.requestId == b.record.key.requestId
  }

  ghost predicate PrimaryKey(rows: seq<Row>) {
    forall i, j :: 0 <= i < j < |rows| ==> !SameKey(rows[i], rows[j])
  }

  function RowsOf(company: string, version: nat, records: seq<Record>): (r: seq<Row>)
    ensures |r| == |records|
    ensures forall i :: 0 <= i < |r| ==> r[i] == Row(company, version, records[i])
  {
    seq(|records|, i requires 0 <= i < |records| => Row(company, version, records[i]))
  }

  // DELETE ... WHERE company_id = ? AND snapshot_version = ?
  function Without(rows: seq<Row>, company: string, version: nat): seq<Row> {
    if rows == [] then []
    else
      (if rows[0].company == company && rows[0].version == version then [] else [rows[0]])
      + Without(rows[1..], company, version)
  }

  // Every stored record carries its company's active version.
  ghost predicate Consistent(active: map<string, nat>, rows: seq<Row>) {
    forall i :: 0 <= i < |rows| ==> rows[i].company in active && rows[i].version == active[rows[i].company]
  }

  // What a publication needs to succeed.
  ghost predicate Publishable(stream: Stream, expected: Option<nat>) {
    && !stream.breaks && OnePerRequest(stream.records)
    && (expected.Some? ==> expected.value == |stream.records|)
  }

  // A version that no stored row carries.
  ghost predicate Unused(rows: seq<Row>, version: nat) {
    forall i :: 0 <= i < |rows| ==> rows[i].version != version
  }

  lemma AddsKeys(rows: seq<Row>, company: string, version: nat, records: seq<Record>)
    requires PrimaryKey(rows) && Unused(rows, version)
    ensures PrimaryKey(rows + RowsOf(company, version, records)) <==> OnePerRequest(records)
  {
    var n, all := |rows|, rows + RowsOf(company, version, records);
    if PrimaryKey(all) {
      forall i, j | 0 <= i < j < |records| ensures records[i].key.requestId != records[j].key.requestId {
        assert !SameKey(all[n + i], all[n + j]);
      }
    }
  }

  lemma {:induction false} WithoutKeeps(rows: seq<Row>, company: string, version: nat, r: Row)
    ensures r in Without(rows, company, version) <==> r in rows && !(r.company == company && r.version == version)
  {
    if rows != [] { WithoutKeeps(rows[1..], company, version, r); }
  }

  lemma {:induction false} WithoutKeys(rows: seq<Row>, company: string, version: nat)
    requires PrimaryKey(rows)
    ensures PrimaryKey(Without(rows, company, version))
  {
    if rows != [] {
      WithoutKeys(rows[1..], company, version);
      var rest := Without(rows[1..], company, version);
      forall j | 0 <= j < |rest| ensures !SameKey(rows[0], rest[j]) {
        WithoutKeeps(rows[1..], company, version, rest[j]);
        var k :| 0 <= k < |rows| - 1 && rows[1..][k] == rest[j];
        assert !SameKey(rows[0], rows[k + 1]);
      }
    }
  }

  lemma {:induction false} WithoutUnused(rows: seq<Row>, more: seq<Row>, company: string, version: nat)
    requires forall i :: 0 <= i < |more| ==> more[i].version != version
    ensures Without(rows + more, company, version) == Without(rows, company, version) + more
  {
    hide Without;
    if rows == [] {
      WithoutNone(rows, company, version);
      WithoutNone(more, company, version);
      assert rows + more == more;
    } else {
      var tail, rest := rows[1..], Without(rows[1..], company, version);
      assert rows + more == [rows[0]] + (tail + more);
      WithoutUnused(tail, more, company, version);
      WithoutHead(rows[0], tail, company, version);
      WithoutHead(rows[0], tail + more, company, version);
      assert rows == [rows[0]] + tail;
      assert [rows[0]] + (rest + more) == ([rows[0]] + rest) + more;
    }
  }

  lemma WithoutHead(r: Row, tail: seq<Row>, company: string, version: nat)
    ensures Without([r] + tail, company, version)
         == (if r.company == company && r.version == version then [] else [r]) + Without(tail, company, version)
  {
    assert ([r] + tail)[0] == r && ([r] + tail)[1..] == tail;
  }

  lemma {:induction false} WithoutNone(rows: seq<Row>, company: string, version: nat)
    requires forall i :: 0 <= i < |rows| ==> rows[i].version != version
    ensures Without(rows, company, version) == rows
  {
    if rows != [] { WithoutNone(rows[1..], company, version); }
  }

  // The records left are the other companies' and exactly the new ones.
  function Published(active: map<string, nat>, rows: seq<Row>, company: string, version: nat, records: seq<Record>): seq<Row> {
    (if company in active then Without(rows, company, active[company]) else rows) + RowsOf(company, version, records)
  }

  lemma PublishedIsConsistent(active: map<string, nat>, rows: seq<Row>, company: string, version: nat, records: seq<Record>)
    requires Consistent(active, rows) && Unused(rows, version)
    ensures Consistent(active[company := version], Published(active, rows, company, version, records))
    ensures forall r :: r in Published(active, rows, company, version, records) && r.company == company ==>
              r in RowsOf(company, version, records)
    ensures forall r :: r in RowsOf(company, version, records) ==> r in Published(active, rows, company, version, records)
    ensures forall r :: r in rows && r.company != company ==> r in Published(active, rows, company, version, records)
  {
    var all := Published(active, rows, company, version, records);
    var kept := if company in active then Without(rows, company, active[company]) else rows;
    forall r | r in kept ensures r in rows && r.company != company {
      if company in active { WithoutKeeps(rows, company, active[company], r); }
    }
    forall r | r in rows && r.company != company ensures r in kept {
      if company in active { WithoutKeeps(rows, company, active[company], r); }
    }
    forall i | 0 <= i < |all| ensures all[i].company in active[company := version] && all[i].version == active[company := version][all[i].company] {
      if i < |kept| { assert kept[i] in rows; }
    }
  }

  lemma KeysAfter(active: map<string, nat>, rows: seq<Row>, company: string, version: nat, records: seq<Record>)
    requires PrimaryKey(rows + RowsOf(company, version, records)) && version !in active.Values
    ensures PrimaryKey(Published(active, rows, company, version, records))
  {
    if company in active {
      var added := RowsOf(company, version, records);
      WithoutUnused(rows, added, company, active[company]);
      WithoutKeys(rows + added, company, active[company]);
    }
  }

  type Facets = seq<seq<string>>
  type FacetKey = (string, nat, bool)

  class SnapshotStore {
    var active: map<string, nat>
    var rows: seq<Row>
    var facetCache: map<FacetKey, Facets>

    constructor ()
      ensures Valid() && active == map[] && rows == [] && facetCache == map[]
    {
      active, rows, facetCache := map[], [], map[];
    }

    ghost predicate Valid()
      reads this
    {
      PrimaryKey(rows) && Consistent(active, rows)
    }

    // executemany: stops at the first row whose key is taken.
    method InsertMany(batch: seq<Row>) returns (ok: bool)
      requires PrimaryKey(rows)
      modifies this`rows
      ensures ok <==> PrimaryKey(old(rows) + batch)
      ensures ok ==> rows == old(rows) + batch
    {
      var i := 0;
      while i < |batch|
        invariant i <= |batch| && rows == old(rows) + batch[..i] && PrimaryKey(rows)
      {
        var taken := false;
        var k := 0;
        while k < |rows| && !taken
          invariant k <= |rows|
          invariant taken ==> k < |rows| && SameKey(rows[k], batch[i])
          invariant !taken ==> forall m :: 0 <= m < k ==> !SameKey(rows[m], batch[i])
          decreases |rows| - k, !taken
        {
          if SameKey(rows[k], batch[i]) { taken := true; } else { k := k + 1; }
        }
        if taken {
          assert (old(rows) + batch)[k] == rows[k] && (old(rows) + batch)[|rows|] == batch[i];
          return false;
        }
        rows := rows + [batch[i]];
        assert batch[..i + 1] == batch[..i] + [batch[i]];
        i := i + 1;
      }
      assert batch[..i] == batch;
      ok := true;
    }

    // Everything inside the transaction; on failure the caller rolls back.
    method InsertStream(company: string, version: nat, stream: Stream) returns (ok: bool, inserted: nat)
      requires PrimaryKey(rows)
      modifies this`rows
      ensures ok <==> !stream.breaks && PrimaryKey(old(rows) + RowsOf(company, version, stream.records))
      ensures ok ==> inserted == |stream.records| && rows == old(rows) + RowsOf(company, version, stream.records)
    {
      hide PrimaryKey;
      ghost var all := RowsOf(company, version, stream.records);
      assert PrimaryKey(old(rows) + all[..0]) by { assert old(rows) + all[..0] == old(rows); }
      var batch: seq<Row> := [];
      inserted := 0;
      var i := 0;
      while i < |stream.records|
        invariant i <= |stream.records| && inserted + |batch| == i && |batch| < BATCH_SIZE
        invariant rows == old(rows) + all[..inserted] && PrimaryKey(rows)
        invariant batch == all[inserted..i]
      {
        ExtendSlice(all, inserted, i);
        batch := batch + [Row(company, version, stream.records[i])];
        i := i + 1;
        if |batch| == BATCH_SIZE {
          PrefixKeys(old(rows), all, i);
          assert all[..inserted] + batch == all[..i];
          assert old(rows) + all[..inserted] + batch == old(rows) + all[..i];
          ok := InsertMany(batch);
          if !ok { return false, 0; }
          inserted := inserted + |batch|;
          batch := [];
        }
      }
      if stream.breaks { return false, 0; }
      assert all[..inserted] + batch == all;
      assert old(rows) + all[..inserted] + batch == old(rows) + all;
      ok := true;
      if batch != [] {
        ok := InsertMany(batch);
        inserted := inserted + |batch|;
      } else {
        assert all[..inserted] == all;
      }
    }

    static lemma ExtendSlice(all: seq<Row>, from: nat, i: nat)
      requires from <= i < |all|
      ensures all[from..i + 1] == all[from..i] + [all[i]]
    {}

    static lemma PrefixKeys(rows: seq<Row>, more: seq<Row>, i: nat)
      requires i <= |more|
      ensures PrimaryKey(rows + more) ==> PrimaryKey(rows + more[..i])
    {
      assert rows + more[..i] == (rows + more)[..|rows| + i];
    }

    // `version` is a new uuid4: no row and no snapshot carries it.
    method Publish(company: string, version: nat, stream: Stream, expected: Option<nat>) returns (ok: bool)
      requires Valid() && Unused(rows, version) && version !in active.Values
      modifies this
      ensures Valid()
      ensures ok <==> Publishable(stream, expected)
      ensures !ok ==> active == old(active) && rows == old(rows) && facetCache == old(facetCache)
      ensures ok ==> active == old(active)[company := version]
                     && rows == Published(old(active), old(rows), company, version, stream.records)
                     && facetCache == map k | k in old(facetCache) && k.0 != company :: old(facetCache)[k]
    {
      var saved := rows;
      ghost var added := RowsOf(company, version, stream.records);
      AddsKeys(rows, company, version, stream.records);
      var previous := if company in active then Some(active[company]) else None;
      var inserted;
      ok, inserted := InsertStream(company, version, stream);
      if !ok || (expected.Some? && inserted != expected.value) {
        rows := saved;
        return false;
      }
      PublishedIsConsistent(active, saved, company, version, stream.records);
      KeysAfter(active, saved, company, version, stream.records);
      active := active[company := version];
      if previous.Some? {
        WithoutUnused(saved, added, company, previous.value);
        rows := Without(rows, company, previous.value);
      }
      facetCache := map k | k in facetCache && k.0 != company :: facetCache[k];
    }
  }
}
