// A run over rows that the index already holds: src/ingestion/service.py asked for the same work twice.
module RepeatedRuns {
  import opened Documents
  import opened Ingestion
  import opened Wrappers

  // Every row of the batch is stored as a fresh preparation would make it.
  ghost predicate Holds(cfg: Config, vectors: map<Id, VectorRow>, batch: seq<SourceRow>) {
    forall id :: id in Latest(batch) ==> id in vectors && Matches(vectors[id], Prepared(cfg, Latest(batch)[id]))
  }

  // Nothing is embedded, no metadata is written and the gate is not raised.
  predicate Quiet(acts: seq<Action>) { forall i :: 0 <= i < |acts| ==> acts[i].PutLexical? }

  lemma QuietAppend(a: seq<Action>, b: seq<Action>)
    ensures Quiet(a + b) <==> Quiet(a) && Quiet(b)
  {
    assert forall i :: 0 <= i < |a| ==> (a + b)[i] == a[i];
    assert forall i :: 0 <= i < |b| ==> (a + b)[|a| + i] == b[i];
  }

  lemma {:induction false} LexicalIsQuiet(rows: seq<SourceRow>)
    ensures Quiet(LexicalWrites(rows))
  {
    if rows != [] { LexicalIsQuiet(rows[..|rows| - 1]); }
  }

  predicate AllCurrent(verdict: Id -> Verdict, rows: seq<SourceRow>) {
    forall i :: 0 <= i < |rows| ==> verdict(rows[i].id).Current?
  }

  lemma {:induction false} NoWritesIff(cfg: Config, verdict: Id -> Verdict, rows: seq<SourceRow>)
    ensures VectorWrites(cfg, verdict, rows) == [] && MetadataWrites(cfg, verdict, rows) == [] <==> AllCurrent(verdict, rows)
  {
    if rows != [] {
      var n := |rows| - 1;
      NoWritesIff(cfg, verdict, rows[..n]);
      assert AllCurrent(verdict, rows) <==> AllCurrent(verdict, rows[..n]) && verdict(rows[n].id).Current?;
    }
  }

  lemma CurrentIff(cfg: Config, vectors: map<Id, VectorRow>, batch: seq<SourceRow>)
    requires WellFormed(cfg, vectors)
    ensures AllCurrent(id => VerdictOn(cfg, false, vectors, batch, id), batch) <==> Holds(cfg, vectors, batch)
  {
    hide Latest, Classify, Matches, Prepared, Genuine;
    var verdict := (id: Id) => VerdictOn(cfg, false, vectors, batch, id);
    LatestIds(batch);
    forall id | id in Latest(batch)
      ensures verdict(id).Current? <==> id in vectors && Matches(vectors[id], Prepared(cfg, Latest(batch)[id]))
    {
      if id in vectors { ClassifySound(cfg, vectors[id], Latest(batch)[id]); }
    }
    forall i | 0 <= i < |batch| ensures batch[i].id in Latest(batch) { assert batch[i].id in Ids(batch); }
    if AllCurrent(verdict, batch) {
      forall id | id in Latest(batch) ensures verdict(id).Current? {
        var i :| 0 <= i < |batch| && batch[i] == Latest(batch)[id];
        assert verdict(batch[i].id).Current?;
      }
    }
  }

  // One batch writes no vector row exactly when the index holds its rows; it then changes BM25 rows only.
  lemma BatchQuietIff(cfg: Config, s: Index, batch: seq<SourceRow>)
    requires WellFormed(cfg, s.vectors)
    ensures var acts := BatchActions(cfg, false, s, batch);
            && (Quiet(acts) <==> Holds(cfg, s.vectors, batch))
            && (Quiet(acts) ==> Exec(s, acts) == s.(lexical := s.lexical + LatestLexical(batch)))
  {
    hide VerdictOn, WellFormed, Holds, Exec, AllCurrent;
    var verdict := (id: Id) => VerdictOn(cfg, false, s.vectors, batch, id);
    var metadata, vectors := MetadataWrites(cfg, verdict, batch), VectorWrites(cfg, verdict, batch);
    var raise := if metadata != [] || vectors != [] then [RaiseGate] else [];
    CurrentIff(cfg, s.vectors, batch);
    NoWritesIff(cfg, verdict, batch);
    LexicalIsQuiet(batch);
    LexicalEffect(batch, s);
    var acts := BatchActions(cfg, false, s, batch);
    if raise == [] {
      assert acts == LexicalWrites(batch);
    } else {
      assert acts[0] == RaiseGate;
    }
  }

  lemma {:induction false} BatchesQuietIff(cfg: Config, s: Index, batches: seq<seq<SourceRow>>)
    requires WellFormed(cfg, s.vectors)
    ensures var acts := AllBatches(cfg, false, s, batches);
            && (Quiet(acts) <==> forall i :: 0 <= i < |batches| ==> Holds(cfg, s.vectors, batches[i]))
            && (Quiet(acts) ==> Exec(s, acts) == s.(lexical := s.lexical + LatestLexical(Flatten(batches))))
    decreases |batches|
  {
    hide WellFormed, Holds, Exec, BatchActions, Quiet, LatestLexical;
    if batches == [] {
      NothingDone(s);
    } else {
      var acts := BatchActions(cfg, false, s, batches[0]);
      var t := Exec(s, acts);
      var more := AllBatches(cfg, false, t, batches[1..]);
      QuietAppend(acts, more);
      BatchQuietIff(cfg, s, batches[0]);
      if Quiet(acts) {
        BatchesQuietIff(cfg, t, batches[1..]);
        ExecAppend(s, acts, more);
        LatestLexicalAppend(batches[0], Flatten(batches[1..]));
        assert (s.lexical + LatestLexical(batches[0])) + LatestLexical(Flatten(batches[1..]))
            == s.lexical + (LatestLexical(batches[0]) + LatestLexical(Flatten(batches[1..])));
        assert forall i :: 0 < i < |batches| ==> batches[i] == batches[1..][i - 1];
      }
    }
  }

  lemma NothingDone(s: Index)
    ensures Quiet([]) && Exec(s, []) == s && s.(lexical := s.lexical + LatestLexical(Flatten([]))) == s
  {
    assert s.lexical + map[] == s.lexical;
  }

  // ---- What a batch embeds ----

  ghost predicate Embeds(acts: seq<Action>, id: Id) { exists i :: 0 <= i < |acts| && acts[i].PutVector? && acts[i].id == id }

  lemma EmbedsAppend(a: seq<Action>, b: seq<Action>, id: Id)
    ensures Embeds(a + b, id) <==> Embeds(a, id) || Embeds(b, id)
  {
    assert forall i :: 0 <= i < |a| ==> (a + b)[i] == a[i];
    assert forall i :: 0 <= i < |b| ==> (a + b)[|a| + i] == b[i];
  }

  lemma {:induction false} OthersEmbedNothing(cfg: Config, verdict: Id -> Verdict, rows: seq<SourceRow>, id: Id)
    ensures !Embeds(MetadataWrites(cfg, verdict, rows), id) && !Embeds(LexicalWrites(rows), id)
  {
    if rows != [] { OthersEmbedNothing(cfg, verdict, rows[..|rows| - 1], id); }
  }

  lemma {:induction false} VectorWritesEmbed(cfg: Config, verdict: Id -> Verdict, rows: seq<SourceRow>, id: Id)
    ensures Embeds(VectorWrites(cfg, verdict, rows), id) <==> id in Ids(rows) && verdict(id).Changed?
  {
    if rows != [] {
      var n := |rows| - 1;
      VectorWritesEmbed(cfg, verdict, rows[..n], id);
      assert rows == rows[..n] + [rows[n]] && Ids(rows) == Ids(rows[..n]) + {rows[n].id};
      var last := if verdict(rows[n].id).Changed? then [PutVector(rows[n].id, Prepared(cfg, rows[n]))] else [];
      EmbedsAppend(VectorWrites(cfg, verdict, rows[..n]), last, id);
      assert Embeds(last, id) <==> verdict(rows[n].id).Changed? && rows[n].id == id by {
        if last != [] { assert last[0].PutVector?; }
      }
    }
  }

  // A batch embeds exactly the rows it must: all under force, otherwise those not stored and those whose
  // model, revision or text differs.
  lemma EmbedsIff(cfg: Config, force: bool, s: Index, batch: seq<SourceRow>, id: Id)
    requires WellFormed(cfg, s.vectors)
    ensures Embeds(BatchActions(cfg, force, s, batch), id) <==>
              id in Latest(batch) && (force || id !in s.vectors || NeedsEmbedding(cfg, s.vectors[id], Latest(batch)[id]))
  {
    hide Classify, Latest, NeedsEmbedding, Embeds, MetadataWrites, VectorWrites, LexicalWrites, Genuine;
    var verdict := (id: Id) => VerdictOn(cfg, force, s.vectors, batch, id);
    var metadata, vectors := MetadataWrites(cfg, verdict, batch), VectorWrites(cfg, verdict, batch);
    var raise: seq<Action> := if metadata != [] || vectors != [] then [RaiseGate] else [];
    LatestIds(batch);
    VectorWritesEmbed(cfg, verdict, batch, id);
    OthersEmbedNothing(cfg, verdict, batch, id);
    EmbedsAppend(raise + metadata + vectors, LexicalWrites(batch), id);
    EmbedsAppend(raise + metadata, vectors, id);
    EmbedsAppend(raise, metadata, id);
    RaisingEmbedsNothing(raise, id);
    if id in s.vectors && id in Latest(batch) { ClassifySound(cfg, s.vectors[id], Latest(batch)[id]); }
  }

  lemma RaisingEmbedsNothing(raise: seq<Action>, id: Id)
    requires raise == [] || raise == [RaiseGate]
    ensures !Embeds(raise, id)
  {}

  // ---- What a finished run leaves for the next one ----

  predicate Alike(x: SourceRow, y: SourceRow) { x.document == y.document && Canonical(x.fields) == Canonical(y.fields) }

  lemma MatchesBoth(cfg: Config, row: VectorRow, x: SourceRow, y: SourceRow)
    requires Matches(row, Prepared(cfg, x))
    ensures Matches(row, Prepared(cfg, y)) <==> Alike(x, y)
  {}

  // The last row under an id in a batch says what the last one under it in the whole scan says.
  ghost predicate RowsAgree(batches: seq<seq<SourceRow>>, rows: seq<SourceRow>) {
    forall i, id :: 0 <= i < |batches| && id in Latest(batches[i]) ==> id in Latest(rows) && Alike(Latest(batches[i])[id], Latest(rows)[id])
  }

  // After any finished run the index holds the rows scanned, and a reconciling run leaves no others.
  lemma AfterRun(cfg: Config, opts: Options, s: Index, batches: seq<seq<SourceRow>>)
    requires WellFormed(cfg, s.vectors)
    ensures var t, rows := Exec(s, RunActions(cfg, opts, s, batches)), Flatten(batches);
            && !t.gate && WellFormed(cfg, t.vectors) && Holds(cfg, t.vectors, rows)
            && t.lexical + LatestLexical(rows) == t.lexical
            && (opts.reconcile ==> OfSource(cfg, t.vectors) <= Ids(rows) && t.lexical.Keys <= Ids(rows))
  {
    hide Exec, RunActions, AllBatches, Latest, Genuine, Matches, Prepared, LatestLexical, Flatten, OfSource, Cleared, Ids;
    var rows, cleared := Flatten(batches), Cleared(cfg, opts.replace, s);
    LatestIds(rows);
    if opts.reconcile {
      FullScanMatchesRebuild(cfg, opts, s, batches);
      LexicalAfterRun(cfg, opts, s, batches);
      UpToDateRows(cfg, opts.force, s, Exec(s, RunActions(cfg, opts, s, batches)), rows);
    } else {
      ClearedWellFormed(cfg, opts.replace, s);
      BatchesReflect(cfg, opts.force, cleared, batches);
      UnreconciledEffect(cfg, opts, s, batches);
    }
  }

  // ---- The run repeated ----

  // Repeating any finished run, without force and in batches of any size, embeds nothing, writes no
  // metadata and leaves the gate alone exactly when rows that share an id say the same.
  lemma RepeatIsQuietIff(cfg: Config, opts: Options, s: Index, batches: seq<seq<SourceRow>>, again: seq<seq<SourceRow>>)
    requires WellFormed(cfg, s.vectors) && Flatten(again) == Flatten(batches)
    ensures var t := Exec(s, RunActions(cfg, opts, s, batches));
            Quiet(AllBatches(cfg, false, t, again)) <==> RowsAgree(again, Flatten(batches))
  {
    hide Exec, RunActions, AllBatches, Latest, Matches, Prepared, Flatten, Alike, WellFormed, Quiet;
    var t, rows := Exec(s, RunActions(cfg, opts, s, batches)), Flatten(batches);
    AfterRun(cfg, opts, s, batches);
    BatchesQuietIff(cfg, t, again);
    forall i, id | 0 <= i < |again| && id in Latest(again[i])
      ensures id in Latest(rows)
      ensures id in t.vectors && (Matches(t.vectors[id], Prepared(cfg, Latest(again[i])[id])) <==> Alike(Latest(rows)[id], Latest(again[i])[id]))
    {
      BatchIdScanned(again, i, id);
      MatchesBoth(cfg, t.vectors[id], Latest(rows)[id], Latest(again[i])[id]);
    }
    AlikeBothWays();
  }

  lemma AlikeBothWays()
    ensures forall x, y :: Alike(x, y) <==> Alike(y, x)
  {}

  lemma {:induction false} BatchIdScanned(batches: seq<seq<SourceRow>>, i: nat, id: Id)
    requires i < |batches| && id in Latest(batches[i])
    ensures id in Latest(Flatten(batches))
  {
    hide Latest;
    LatestAppend(batches[0], Flatten(batches[1..]));
    if i > 0 { BatchIdScanned(batches[1..], i - 1, id); }
  }

  // Such a repeated run changes nothing at all: both stores and the gate are as they were.
  lemma RepeatChangesNothing(cfg: Config, opts: Options, s: Index, batches: seq<seq<SourceRow>>,
                             reconcile: bool, again: seq<seq<SourceRow>>)
    requires WellFormed(cfg, s.vectors) && Flatten(again) == Flatten(batches) && RowsAgree(again, Flatten(batches))
    requires reconcile ==> opts.reconcile
    ensures var t := Exec(s, RunActions(cfg, opts, s, batches));
            Exec(t, RunActions(cfg, Options(false, false, reconcile), t, again)) == t
  {
    hide Exec, RunActions, AllBatches, Latest, Matches, Prepared, Flatten, WellFormed, Quiet, OfSource, LatestLexical,
      RowsAgree, Holds, Ids;
    var t, rows, next := Exec(s, RunActions(cfg, opts, s, batches)), Flatten(batches), Options(false, false, reconcile);
    AfterRun(cfg, opts, s, batches);
    RepeatIsQuietIff(cfg, opts, s, batches, again);
    BatchesQuietIff(cfg, t, again);
    assert Exec(t, AllBatches(cfg, false, t, again)) == t;
    if reconcile {
      RunEffect(cfg, next, t, again);
      NothingStale(t.vectors, OfSource(cfg, t.vectors), Ids(rows));
      NothingStale(t.lexical, t.lexical.Keys, Ids(rows));
    } else {
      UnreconciledEffect(cfg, next, t, again);
    }
  }

  lemma NothingStale<V>(m: map<Id, V>, mine: set<Id>, seen: set<Id>)
    requires mine <= seen
    ensures m - (mine - seen) == m
  {
    assert mine - seen == {};
  }

  ghost predicate DistinctIds(rows: seq<SourceRow>) { forall i, j :: 0 <= i < j < |rows| ==> rows[i].id != rows[j].id }

  lemma {:induction false} LatestOfDistinct(rows: seq<SourceRow>)
    requires DistinctIds(rows)
    ensures forall r :: r in rows ==> r.id in Latest(rows) && Latest(rows)[r.id] == r
  {
    if rows != [] {
      var n := |rows| - 1;
      LatestOfDistinct(rows[..n]);
      forall r | r in rows ensures r.id in Latest(rows) && Latest(rows)[r.id] == r {
        if r != rows[n] { var i :| 0 <= i < n && rows[i] == r; assert rows[..n][i] == r; }
      }
    }
  }

  lemma {:induction false} InFlatten(batches: seq<seq<SourceRow>>, i: nat, r: SourceRow)
    requires i < |batches| && r in batches[i]
    ensures r in Flatten(batches)
  {
    if i > 0 { InFlatten(batches[1..], i - 1, r); }
  }

  lemma DistinctRowsAgree(batches: seq<seq<SourceRow>>)
    requires DistinctIds(Flatten(batches))
    ensures RowsAgree(batches, Flatten(batches))
  {
    hide Latest, Flatten;
    LatestOfDistinct(Flatten(batches));
    forall i, id | 0 <= i < |batches| && id in Latest(batches[i])
      ensures id in Latest(Flatten(batches)) && Latest(batches[i])[id] == Latest(Flatten(batches))[id]
    {
      LatestIds(batches[i]);
      InFlatten(batches, i, Latest(batches[i])[id]);
    }
  }

  // Nothing indexed and nothing updated, batch after batch, exactly when the run is quiet.
  lemma {:induction false} QuietTally(cfg: Config, s: Index, batches: seq<seq<SourceRow>>)
    requires WellFormed(cfg, s.vectors) && Quiet(AllBatches(cfg, false, s, batches))
    ensures var tally := RunTally(cfg, false, s, batches);
            tally.indexed == 0 && tally.metadataUpdated == 0
            && (DistinctIds(Flatten(batches)) ==> tally.skippedCurrent == |Flatten(batches)|)
    decreases |batches|
  {
    hide WellFormed, Holds, Exec, BatchActions, BatchTally, LatestLexical, Quiet, DistinctIds;
    if batches != [] {
      var acts := BatchActions(cfg, false, s, batches[0]);
      var t := Exec(s, acts);
      QuietAppend(acts, AllBatches(cfg, false, t, batches[1..]));
      BatchQuietIff(cfg, s, batches[0]);
      QuietTally(cfg, t, batches[1..]);
      QuietBatchTally(cfg, s, batches[0]);
      var a, b := batches[0], Flatten(batches[1..]);
      if DistinctIds(a + b) { DistinctParts(a, b); }
    }
  }

  lemma DistinctParts(a: seq<SourceRow>, b: seq<SourceRow>)
    requires DistinctIds(a + b)
    ensures DistinctIds(a) && DistinctIds(b)
  {
    assert forall i :: 0 <= i < |a| ==> (a + b)[i] == a[i];
    assert forall i :: 0 <= i < |b| ==> (a + b)[|a| + i] == b[i];
  }

  lemma {:induction false} CurrentRowsAll(verdict: Id -> Verdict, rows: seq<SourceRow>)
    requires AllCurrent(verdict, rows)
    ensures |CurrentRows(verdict, rows)| == |rows|
    ensures forall i :: 0 <= i < |rows| ==> CurrentRows(verdict, rows)[i] == rows[i].id
  {
    if rows != [] { CurrentRowsAll(verdict, rows[..|rows| - 1]); }
  }

  lemma QuietBatchTally(cfg: Config, s: Index, batch: seq<SourceRow>)
    requires WellFormed(cfg, s.vectors) && Quiet(BatchActions(cfg, false, s, batch))
    ensures var tally := BatchTally(cfg, false, s, batch);
            tally.indexed == 0 && tally.metadataUpdated == 0 && (DistinctIds(batch) ==> tally.skippedCurrent == |batch|)
  {
    hide WellFormed, Holds, Exec, BatchActions, VerdictOn, LatestLexical, Quiet, AllCurrent, CurrentRows;
    var verdict := (id: Id) => VerdictOn(cfg, false, s.vectors, batch, id);
    BatchQuietIff(cfg, s, batch);
    CurrentIff(cfg, s.vectors, batch);
    NoWritesIff(cfg, verdict, batch);
    CurrentRowsAll(verdict, batch);
    CountsAddUp(cfg, verdict, batch);
  }

  // So a second run over rows with distinct ids counts every one of them as skipped.
  lemma RepeatSkipsEveryRow(cfg: Config, opts: Options, s: Index, batches: seq<seq<SourceRow>>, again: seq<seq<SourceRow>>)
    requires WellFormed(cfg, s.vectors) && Flatten(again) == Flatten(batches) && DistinctIds(Flatten(batches))
    ensures var t := Exec(s, RunActions(cfg, opts, s, batches));
            RunTally(cfg, false, t, again) == Tally(0, 0, |Flatten(batches)|)
  {
    hide Exec, RunActions, AllBatches, Flatten, WellFormed, Quiet, RunTally, RowsAgree, Holds, DistinctIds, LatestLexical, OfSource, Ids;
    var t := Exec(s, RunActions(cfg, opts, s, batches));
    AfterRun(cfg, opts, s, batches);
    DistinctRowsAgree(again);
    RepeatIsQuietIff(cfg, opts, s, batches, again);
    QuietTally(cfg, t, again);
  }
}
