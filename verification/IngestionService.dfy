// The ingestion run of src/ingestion/service.py as a program over its stores, proved to perform
// the actions that module Ingestion specifies, or a prefix of them when something fails.
module IngestionService {
  import opened Wrappers
  import opened Documents
  import opened Ingestion
  import opened Sorting

  datatype Outcome = Completed | Failed | Rejected

  // `acts` were asked for with `allowed` store actions left before a failure.
  ghost predicate Did(before: Index, allowed: nat, acts: seq<Action>, after: Index, left: nat, ok: bool) {
    if ok then |acts| <= allowed && after == Exec(before, acts) && left == allowed - |acts|
    else allowed < |acts| && after == Exec(before, acts[..allowed]) && left == 0
  }

  lemma DidThen(before: Index, allowed: nat, a: seq<Action>, mid: Index, midLeft: nat,
                b: seq<Action>, after: Index, left: nat, ok: bool)
    requires Did(before, allowed, a, mid, midLeft, true) && Did(mid, midLeft, b, after, left, ok)
    ensures Did(before, allowed, a + b, after, left, ok)
  {
    hide Exec;
    ExecAppend(before, a, b);
    if !ok {
      assert (a + b)[..allowed] == a + b[..midLeft];
      ExecAppend(before, a, b[..midLeft]);
    }
  }

  lemma DidCutShort(before: Index, allowed: nat, a: seq<Action>, b: seq<Action>, after: Index, left: nat)
    requires Did(before, allowed, a, after, left, false)
    ensures Did(before, allowed, a + b, after, left, false)
  {
    assert (a + b)[..allowed] == a[..allowed];
  }

  // ---- Batches ----

  function NonEmpty(rows: seq<SourceRow>): seq<SourceRow> {
    if rows == [] then []
    else
      var last := rows[|rows| - 1];
      NonEmpty(rows[..|rows| - 1]) + if last.document == "" then [] else [last]
  }

  // Exactly the rows with text, in their order.
  lemma {:induction false} NonEmptyFilters(rows: seq<SourceRow>)
    ensures NonEmpty(rows) == Filter(rows, (r: SourceRow) => r.document != "")
  {
    hide Filter;
    var p := (r: SourceRow) => r.document != "";
    if rows == [] {
      FilterEmpty(p, rows);
    } else {
      var front, last := rows[..|rows| - 1], rows[|rows| - 1];
      NonEmptyFilters(front);
      assert rows == front + [last];
      FilterAppend(front, [last], p);
      FilterCons(last, [], p);
      FilterEmpty(p, []);
      assert [last] + [] == [last];
    }
  }

  ghost predicate Sized(chunks: seq<seq<SourceRow>>, size: nat) {
    && (forall i :: 0 <= i < |chunks| ==> 0 < |chunks[i]| <= size)
    && (forall i :: 0 <= i < |chunks| - 1 ==> |chunks[i]| == size)
  }

  // Every batch but the last has exactly the batch size, the last at most that, and none is empty.
  lemma {:induction false} ChunkSizes(rows: seq<SourceRow>, size: Positive)
    ensures Sized(Chunks(rows, size), size)
    decreases |rows|
  {
    if |rows| >= size {
      ChunkSizes(rows[size..], size);
      SizedCons(rows[..size], Chunks(rows[size..], size), size);
    }
  }

  lemma SizedCons(first: seq<SourceRow>, rest: seq<seq<SourceRow>>, size: nat)
    requires |first| == size > 0 && Sized(rest, size)
    ensures Sized([first] + rest, size)
  {}

  function Chunks(rows: seq<SourceRow>, size: Positive): seq<seq<SourceRow>>
    decreases |rows|
  {
    if rows == [] then []
    else if |rows| < size then [rows]
    else [rows[..size]] + Chunks(rows[size..], size)
  }

  lemma {:induction false} ChunksFlatten(rows: seq<SourceRow>, size: Positive)
    ensures Flatten(Chunks(rows, size)) == rows
    decreases |rows|
  {
    if rows != [] {
      if |rows| < size {
        assert Flatten([rows]) == rows + Flatten([]);
      } else {
        ChunksFlatten(rows[size..], size);
        var rest := Chunks(rows[size..], size);
        assert ([rows[..size]] + rest)[1..] == rest;
        assert rows == rows[..size] + rows[size..];
      }
    }
  }

  // What is still to do once the batches before `batches` are in `s`.
  function Rest(cfg: Config, opts: Options, s: Index, batches: seq<seq<SourceRow>>, seen: set<Id>): seq<Action> {
    var writes := AllBatches(cfg, opts.force, s, batches);
    writes + ReconcileActions(cfg, opts.reconcile, Exec(s, writes), seen) + [LowerGate]
  }

  lemma RunSplits(cfg: Config, opts: Options, s: Index, batches: seq<seq<SourceRow>>)
    ensures var first := ReplaceActions(cfg, opts.replace, s);
            RunActions(cfg, opts, s, batches)
            == first + Rest(cfg, opts, Exec(s, first), batches, Ids(Flatten(batches)))
  {
    hide Exec, AllBatches, Flatten, OfSource;
    var first := ReplaceActions(cfg, opts.replace, s);
    var cleared := Exec(s, first);
    var writes := AllBatches(cfg, opts.force, cleared, batches);
    var last := ReconcileActions(cfg, opts.reconcile, Exec(cleared, writes), Ids(Flatten(batches)));
    assert first + writes + last + [LowerGate] == first + (writes + last + [LowerGate]);
  }

  lemma RestSplits(cfg: Config, opts: Options, s: Index, batches: seq<seq<SourceRow>>, seen: set<Id>)
    requires batches != []
    ensures var acts := BatchActions(cfg, opts.force, s, batches[0]);
            Rest(cfg, opts, s, batches, seen) == acts + Rest(cfg, opts, Exec(s, acts), batches[1..], seen)
  {
    hide Exec, BatchActions, OfSource;
    var acts := BatchActions(cfg, opts.force, s, batches[0]);
    var t := Exec(s, acts);
    var more := AllBatches(cfg, opts.force, t, batches[1..]);
    ExecAppend(s, acts, more);
    var last := ReconcileActions(cfg, opts.reconcile, Exec(t, more), seen);
    assert (acts + more) + last + [LowerGate] == acts + (more + last + [LowerGate]);
  }

  class Ingester {
    const cfg: Config
    var index: Index         // the two stores and the gate file
    var budget: nat          // store actions left before the next failure
    var indexed: nat
    var metadataUpdated: nat
    var skippedCurrent: nat
    var skippedEmpty: nat
    var processed: nat

    constructor (cfg: Config, index: Index, budget: nat)
      ensures this.cfg == cfg && this.index == index && this.budget == budget
      ensures indexed == metadataUpdated == skippedCurrent == skippedEmpty == processed == 0
    {
      this.cfg, this.index, this.budget := cfg, index, budget;
      indexed, metadataUpdated, skippedCurrent, skippedEmpty, processed := 0, 0, 0, 0, 0;
    }

    function Counters(): Tally
      reads this
    {
      Tally(indexed, metadataUpdated, skippedCurrent)
    }

    method Perform(acts: seq<Action>) returns (ok: bool)
      modifies this`index, this`budget
      ensures Did(old(index), old(budget), acts, index, budget, ok)
    {
      var i := 0;
      ok := true;
      while i < |acts|
        invariant i <= |acts| && Did(old(index), old(budget), acts[..i], index, budget, true)
      {
        StepTaken(old(index), acts, i, index);
        if budget == 0 {
          return false;
        }
        index := Apply(acts[i], index);
        budget := budget - 1;
        i := i + 1;
      }
      assert acts[..i] == acts;
    }

    static lemma StepTaken(before: Index, acts: seq<Action>, i: nat, now: Index)
      requires i < |acts| && now == Exec(before, acts[..i])
      ensures Exec(before, acts[..i + 1]) == Apply(acts[i], now)
    {
      assert acts[..i + 1] == acts[..i] + [acts[i]];
      ApplyLast(before, acts[..i], acts[i]);
    }

    // The first half of flush_batch: sort the batch's rows by what each one needs.
    static method Sift(cfg: Config, verdict: Id -> Verdict, batch: seq<SourceRow>)
      returns (metadata: seq<Action>, upserts: seq<Action>, lexical: seq<Action>, current: seq<Id>)
      ensures metadata == MetadataWrites(cfg, verdict, batch) && upserts == VectorWrites(cfg, verdict, batch)
      ensures lexical == LexicalWrites(batch) && current == CurrentRows(verdict, batch)
    {
      metadata, upserts, lexical, current := [], [], [], [];
      var i := 0;
      while i < |batch|
        invariant i <= |batch|
        invariant metadata == MetadataWrites(cfg, verdict, batch[..i])
        invariant upserts == VectorWrites(cfg, verdict, batch[..i])
        invariant lexical == LexicalWrites(batch[..i])
        invariant current == CurrentRows(verdict, batch[..i])
      {
        var row := batch[i];
        assert batch[..i + 1][..i] == batch[..i];
        match verdict(row.id) {
          case Current => current := current + [row.id];
          case MetadataOnly => metadata := metadata + [SetMetadata(row.id, PreparedMetadata(cfg, row))];
          case Changed => upserts := upserts + [PutVector(row.id, Prepared(cfg, row))];
        }
        if row.lexical.Some? { lexical := lexical + [PutLexical(row.id, row.lexical.value)]; }
        i := i + 1;
      }
      assert batch[..i] == batch;
    }

    // flush_batch: gate, metadata updates, embed and upsert, BM25.
    method FlushBatch(force: bool, batch: seq<SourceRow>) returns (ok: bool)
      modifies this
      ensures Did(old(index), old(budget), BatchActions(cfg, force, old(index), batch), index, budget, ok)
      ensures ok ==> Counters() == Plus(old(Counters()), BatchTally(cfg, force, old(index), batch))
      ensures processed == old(processed) && skippedEmpty == old(skippedEmpty)
    {
      hide Did, VerdictOn, MetadataWrites, VectorWrites, LexicalWrites, CurrentRows;
      var vectors := index.vectors;
      var verdict := (i: Id) => VerdictOn(cfg, force, vectors, batch, i);
      var metadata, upserts, lexical, current := Sift(cfg, verdict, batch);
      var gate: seq<Action> := if metadata != [] || upserts != [] then [RaiseGate] else [];
      ok := Perform(gate + metadata + upserts + lexical);
      if ok {
        indexed := indexed + |upserts|;
        metadataUpdated := metadataUpdated + |metadata|;
        skippedCurrent := skippedCurrent + |(set id | id in current)|;
      }
    }

    // `done` is behind us, `batches` (first of them `batch`) and the end of the run ahead.
    method FlushNext(opts: Options, batch: seq<SourceRow>, ghost before: Index, ghost allowed: nat,
                     ghost done: seq<Action>, ghost total: seq<Action>,
                     ghost batches: seq<seq<SourceRow>>, ghost seen: set<Id>, ghost goal: Tally)
      returns (ok: bool, ghost done': seq<Action>)
      requires Did(before, allowed, done, index, budget, true)
      requires batches != [] && batches[0] == batch && total == done + Rest(cfg, opts, index, batches, seen)
      requires goal == Plus(Counters(), RunTally(cfg, opts.force, index, batches))
      modifies this
      ensures ok ==> Did(before, allowed, done', index, budget, true)
                     && total == done' + Rest(cfg, opts, index, batches[1..], seen)
                     && goal == Plus(Counters(), RunTally(cfg, opts.force, index, batches[1..]))
      ensures !ok ==> Did(before, allowed, total, index, budget, false)
      ensures processed == old(processed) && skippedEmpty == old(skippedEmpty)
    {
      hide Exec, BatchActions, Rest, Did, BatchTally;
      ghost var mid, midLeft := index, budget;
      ok := FlushBatch(opts.force, batch);
      ghost var acts := BatchActions(cfg, opts.force, mid, batch);
      RestSplits(cfg, opts, mid, batches, seen);
      DidThen(before, allowed, done, mid, midLeft, acts, index, budget, ok);
      done' := done + acts;
      ghost var rest := Rest(cfg, opts, Exec(mid, acts), batches[1..], seen);
      assert done + (acts + rest) == (done + acts) + rest;
      if ok {
        DidEnds(mid, midLeft, acts, index, budget);
      } else {
        DidCutShort(before, allowed, done + acts, rest, index, budget);
      }
    }

    static lemma DidEnds(before: Index, allowed: nat, acts: seq<Action>, after: Index, left: nat)
      requires Did(before, allowed, acts, after, left, true)
      ensures after == Exec(before, acts)
    {}

    // Deletion reconciliation, then complete_ingestion.
    method FinishRun(opts: Options, seen: set<Id>, ghost before: Index, ghost allowed: nat,
                     ghost done: seq<Action>)
      returns (ok: bool)
      requires Did(before, allowed, done, index, budget, true)
      modifies this`index, this`budget
      ensures Did(before, allowed, done + Rest(cfg, opts, old(index), [], seen), index, budget, ok)
    {
      hide Exec, Did, OfSource;
      ghost var mid, midLeft := index, budget;
      var acts := ReconcileActions(cfg, opts.reconcile, index, seen) + [LowerGate];
      ok := Perform(acts);
      DidThen(before, allowed, done, mid, midLeft, acts, index, budget, ok);
      NoBatchesLeft(cfg, opts, mid, seen);
    }

    static lemma NoBatchesLeft(cfg: Config, opts: Options, s: Index, seen: set<Id>)
      ensures Rest(cfg, opts, s, [], seen) == ReconcileActions(cfg, opts.reconcile, s, seen) + [LowerGate]
    {
      ExecNothing(s);
      var last := ReconcileActions(cfg, opts.reconcile, s, seen) + [LowerGate];
      assert [] + ReconcileActions(cfg, opts.reconcile, s, seen) + [LowerGate] == last;
    }

    // The scan: rows without text are skipped, the others flushed a batch at a time.
    method Scan(opts: Options, rows: seq<SourceRow>, size: Positive, ghost before: Index,
                ghost allowed: nat, ghost first: seq<Action>, ghost total: seq<Action>)
      returns (ok: bool, seen: set<Id>, ghost done: seq<Action>)
      requires Did(before, allowed, first, index, budget, true)
      requires total == first + Rest(cfg, opts, index, Chunks(NonEmpty(rows), size), Ids(NonEmpty(rows)))
      modifies this
      ensures ok ==> seen == Ids(NonEmpty(rows)) && Did(before, allowed, done, index, budget, true)
                     && total == done + Rest(cfg, opts, index, [], seen)
      ensures !ok ==> Did(before, allowed, total, index, budget, false)
      ensures ok ==> Counters() == Plus(old(Counters()), RunTally(cfg, opts.force, old(index), Chunks(NonEmpty(rows), size)))
      ensures ok ==> processed == old(processed) + |NonEmpty(rows)|
      ensures ok ==> processed + skippedEmpty == old(processed) + old(skippedEmpty) + |rows|
    {
      hide Rest, Did, Ids, Chunks, NonEmpty, RunTally, Plus;
      ghost var all := NonEmpty(rows);
      NothingYet(rows);
      ghost var wanted := Ids(all);
      ghost var goal := Plus(Counters(), RunTally(cfg, opts.force, index, Chunks(all, size)));
      var batch: seq<SourceRow> := [];
      ghost var kept: seq<SourceRow> := [];
      seen, done, ok := {}, first, true;
      var i := 0;
      NoIds();
      while i < |rows|
        invariant i <= |rows| && kept == NonEmpty(rows[..i]) && seen == Ids(kept)
        invariant |batch| <= |kept| && batch == kept[|kept| - |batch|..] && |batch| < size
        invariant |kept| <= |all| && kept == all[..|kept|]
        invariant Did(before, allowed, done, index, budget, true)
        invariant total == done + Rest(cfg, opts, index, Chunks(all[|kept| - |batch|..], size), wanted)
        invariant goal == Plus(Counters(), RunTally(cfg, opts.force, index, Chunks(all[|kept| - |batch|..], size)))
        invariant processed == old(processed) + |kept| && processed + skippedEmpty == old(processed) + old(skippedEmpty) + i
      {
        var row := rows[i];
        NonEmptyNext(rows, i);
        i := i + 1;
        if row.document == "" {
          skippedEmpty := skippedEmpty + 1;
        } else {
          ghost var start := |kept| - |batch|;
          IdsNext(kept, row);
          seen := seen + {row.id};
          SliceGrows(kept, row, start);
          kept := kept + [row];
          batch := batch + [row];
          processed := processed + 1;
          if |batch| >= size {
            FirstChunkAt(all, start, size);
            ok, done := FlushNext(opts, batch, before, allowed, done, total,
                                  Chunks(all[start..], size), wanted, goal);
            if !ok { return; }
            batch := [];
          }
        }
      }
      assert rows[..i] == rows;
      LastChunk(all[|kept| - |batch|..], size);
      if batch != [] {
        ok, done := FlushNext(opts, batch, before, allowed, done, total, [batch], wanted, goal);
        assert [batch][1..] == [];
      }
      NoMoreTally(cfg, opts.force, index);
    }

    static lemma NoMoreTally(cfg: Config, force: bool, s: Index)
      ensures forall t :: Plus(t, RunTally(cfg, force, s, [])) == t
    {}

    static lemma SliceGrows(kept: seq<SourceRow>, row: SourceRow, start: nat)
      requires start <= |kept|
      ensures (kept + [row])[start..] == kept[start..] + [row]
    {}

    static lemma NoIds()
      ensures Ids([]) == {}
    {}

    static lemma IdsNext(rows: seq<SourceRow>, row: SourceRow)
      ensures Ids(rows + [row]) == Ids(rows) + {row.id}
    {}

    static lemma FirstChunkAt(all: seq<SourceRow>, start: nat, size: Positive)
      requires start + size <= |all|
      ensures Chunks(all[start..], size) != [] && Chunks(all[start..], size)[0] == all[start..start + size]
              && Chunks(all[start..], size)[1..] == Chunks(all[start + size..], size)
    {
      assert all[start..][..size] == all[start..start + size] && all[start..][size..] == all[start + size..];
    }

    static lemma NothingYet(rows: seq<SourceRow>)
      ensures NonEmpty(rows[..0]) == [] && NonEmpty(rows)[0..] == NonEmpty(rows)
    {}

    static lemma LastChunk(rows: seq<SourceRow>, size: Positive)
      requires |rows| < size
      ensures Chunks(rows, size) == if rows == [] then [] else [rows]
    {}

    static lemma {:induction false} NonEmptyPrefix(rows: seq<SourceRow>, i: nat)
      requires i <= |rows|
      ensures NonEmpty(rows[..i]) <= NonEmpty(rows)
      decreases |rows| - i
    {
      if i < |rows| {
        assert rows[..i + 1][..i] == rows[..i];
        NonEmptyPrefix(rows, i + 1);
      } else {
        assert rows[..i] == rows;
      }
    }

    static lemma NonEmptyNext(rows: seq<SourceRow>, i: nat)
      requires i < |rows|
      ensures NonEmpty(rows[..i + 1]) == NonEmpty(rows[..i]) + if rows[i].document == "" then [] else [rows[i]]
      ensures NonEmpty(rows[..i + 1]) <= NonEmpty(rows)
    {
      assert rows[..i + 1][..i] == rows[..i];
      NonEmptyPrefix(rows, i + 1);
    }

    // ingest_mysql_source around _ingest_mysql_source.
    method Ingest(opts: Options, source: seq<SourceRow>, limit: Option<int>, batchSize: int)
      returns (outcome: Outcome)
      modifies this
      ensures outcome.Rejected? <==>
                batchSize <= 0 || (limit.Some? && (limit.value <= 0 || opts.reconcile))
      ensures outcome.Rejected? ==> index == old(index) && budget == old(budget)
      ensures !outcome.Rejected? ==>
                var rows := if limit.Some? && limit.value < |source| then source[..limit.value] else source;
                Did(old(index), old(budget), RunActions(cfg, opts, old(index), Chunks(NonEmpty(rows), batchSize)),
                    index, budget, outcome.Completed?)
      ensures outcome.Completed? ==>
                var rows := if limit.Some? && limit.value < |source| then source[..limit.value] else source;
                var cleared := Exec(old(index), ReplaceActions(cfg, opts.replace, old(index)));
                && Counters() == Plus(old(Counters()), RunTally(cfg, opts.force, cleared, Chunks(NonEmpty(rows), batchSize)))
                && processed == old(processed) + |NonEmpty(rows)| && skippedEmpty == old(skippedEmpty) + |rows| - |NonEmpty(rows)|
                && Total(Counters()) - old(Total(Counters())) <= processed - old(processed)
      ensures outcome.Completed? && opts.reconcile && WellFormed(cfg, old(index).vectors) ==>
                UpToDate(cfg, opts.force, old(index), index, NonEmpty(source))
    {
      if batchSize <= 0 { return Rejected; }
      if limit.Some? && limit.value <= 0 { return Rejected; }
      if opts.reconcile && limit.Some? { return Rejected; }
      hide Exec, Rest, Did, Ids, Chunks, ReplaceActions, RunActions, NonEmpty, RunTally,
           Plus, Total, UpToDate, WellFormed, Flatten;
      var rows := if limit.Some? && limit.value < |source| then source[..limit.value] else source;
      ghost var before, allowed := index, budget;
      ghost var batches := Chunks(NonEmpty(rows), batchSize);
      ChunksFlatten(NonEmpty(rows), batchSize);
      RunSplits(cfg, opts, before, batches);
      ghost var total := RunActions(cfg, opts, before, batches);
      var first := ReplaceActions(cfg, opts.replace, index);
      var ok := Perform(first);
      if !ok {
        DidCutShort(before, allowed, first, Rest(cfg, opts, Exec(before, first), batches, Ids(NonEmpty(rows))),
                    index, budget);
        return Failed;
      }
      DidEnds(before, allowed, first, index, budget);
      var seen; ghost var done;
      ok, seen, done := Scan(opts, rows, batchSize, before, allowed, first, total);
      if !ok { return Failed; }
      ok := FinishRun(opts, seen, before, allowed, done);
      outcome := if ok then Completed else Failed;
      CountsWithin(cfg, opts.force, Exec(before, first), batches, NonEmpty(rows), old(Counters()));
      if ok { CompletedRun(cfg, opts, before, allowed, batches, index, budget); }
    }

    static lemma CountsWithin(cfg: Config, force: bool, s: Index, batches: seq<seq<SourceRow>>,
                              rows: seq<SourceRow>, was: Tally)
      requires Flatten(batches) == rows
      ensures Total(Plus(was, RunTally(cfg, force, s, batches))) - Total(was) <= |rows|
    {
      hide RunTally, Flatten;
      RunCountsAddUp(cfg, force, s, batches);
    }

    static lemma CompletedRun(cfg: Config, opts: Options, before: Index, allowed: nat,
                              batches: seq<seq<SourceRow>>, after: Index, left: nat)
      requires Did(before, allowed, RunActions(cfg, opts, before, batches), after, left, true)
      ensures opts.reconcile && WellFormed(cfg, before.vectors) ==>
                UpToDate(cfg, opts.force, before, after, Flatten(batches))
    {
      hide RunActions, Flatten, UpToDate, WellFormed;
      if opts.reconcile && WellFormed(cfg, before.vectors) { FullScanMatchesRebuild(cfg, opts, before, batches); }
    }
  }
}
