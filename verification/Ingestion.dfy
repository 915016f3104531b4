// Incremental ingestion of src/ingestion/service.py as the sequence of atomic store actions it
// issues. A crash, an exception or a failed embedding is a run that performed only a prefix.
module Ingestion {
  import opened Wrappers
  import opened Documents

  type Id = string

  // An embedding is determined by the model, its revision and the text.
  datatype Vector = Vector(model: string, revision: string, text: string)

  datatype Metadata = Metadata(model: Option<string>, revision: Option<string>,
                               contentHash: Option<Hash>, metadataHash: Option<Hash>, fields: Fields)

  datatype VectorRow = VectorRow(document: string, embedding: Vector, metadata: Metadata)

  datatype LexicalRow = LexicalRow(product: string, content: string, columns: Fields)

  // A source row after mapping and preparation; `lexical` is None when its BM25 text is blank.
  datatype SourceRow = SourceRow(id: Id, document: string, fields: Fields, lexical: Option<LexicalRow>)

  datatype Config = Config(model: string, revision: string, source: string)

  // `gate` is the presence of the ingestion-state file.
  datatype Index = Index(vectors: map<Id, VectorRow>, lexical: map<Id, LexicalRow>, gate: bool)

  function Prepared(cfg: Config, row: SourceRow): VectorRow {
    VectorRow(row.document, Vector(cfg.model, cfg.revision, row.document), PreparedMetadata(cfg, row))
  }

  function PreparedMetadata(cfg: Config, row: SourceRow): Metadata {
    Metadata(Some(cfg.model), Some(cfg.revision), Some(ContentHash(row.document)),
             Some(MetadataHash(row.fields)), row.fields)
  }

  // ---- Store actions ----

  datatype Action =
    | RaiseGate
    | LowerGate
    | PutVector(id: Id, row: VectorRow)
    | SetMetadata(id: Id, metadata: Metadata)
    | DropVectors(ids: set<Id>)
    | PutLexical(id: Id, lexical: LexicalRow)
    | DropLexical(ids: set<Id>)

  function Apply(a: Action, s: Index): Index {
    match a
    case RaiseGate => s.(gate := true)
    case LowerGate => s.(gate := false)
    case PutVector(id, row) => s.(vectors := s.vectors[id := row])
    case SetMetadata(id, metadata) =>
      if id in s.vectors then s.(vectors := s.vectors[id := s.vectors[id].(metadata := metadata)]) else s
    case DropVectors(ids) => s.(vectors := s.vectors - ids)
    case PutLexical(id, lexical) => s.(lexical := s.lexical[id := lexical])
    case DropLexical(ids) => s.(lexical := s.lexical - ids)
  }

  function Exec(s: Index, acts: seq<Action>): Index
    decreases |acts|
  {
    if acts == [] then s else Exec(Apply(acts[0], s), acts[1..])
  }

  lemma {:induction false} ExecAppend(s: Index, a: seq<Action>, b: seq<Action>)
    ensures Exec(s, a + b) == Exec(Exec(s, a), b)
    decreases |a|
  {
    if a == [] {
      assert a + b == b;
    } else {
      assert (a + b)[1..] == a[1..] + b;
      ExecAppend(Apply(a[0], s), a[1..], b);
    }
  }

  // ---- database_row_changes ----

  datatype Verdict = Current | MetadataOnly | Changed

  // The `expected` dictionary of a batch: the last row under each id.
  function Latest(rows: seq<SourceRow>): map<Id, SourceRow> {
    if rows == [] then map[]
    else var last := rows[|rows| - 1]; Latest(rows[..|rows| - 1])[last.id := last]
  }

  function Classify(cfg: Config, stored: VectorRow, expected: SourceRow): Verdict {
    var m := stored.metadata;
    if m.model != Some(cfg.model) then Changed
    else if m.revision.Some? && m.revision.value != cfg.revision then Changed
    else if m.contentHash != Some(ContentHash(expected.document)) && stored.document != expected.document
    then Changed
    else
      var storedHash := if m.metadataHash.Some? then m.metadataHash.value else MetadataHash(m.fields);
      if m.revision == Some(cfg.revision) && storedHash == MetadataHash(expected.fields)
         && m.metadataHash == Some(MetadataHash(expected.fields))
      then Current else MetadataOnly
  }

  datatype Options = Options(force: bool, replace: bool, reconcile: bool)

  function VerdictOn(cfg: Config, force: bool, vectors: map<Id, VectorRow>, batch: seq<SourceRow>, id: Id): Verdict
  {
    if force || id !in vectors || id !in Latest(batch) then Changed
    else Classify(cfg, vectors[id], Latest(batch)[id])
  }

  // ---- flush_batch ----

  function MetadataWrites(cfg: Config, verdict: Id -> Verdict, rows: seq<SourceRow>): seq<Action> {
    if rows == [] then []
    else
      var last := rows[|rows| - 1];
      MetadataWrites(cfg, verdict, rows[..|rows| - 1])
        + if verdict(last.id).MetadataOnly? then [SetMetadata(last.id, PreparedMetadata(cfg, last))] else []
  }

  function VectorWrites(cfg: Config, verdict: Id -> Verdict, rows: seq<SourceRow>): seq<Action> {
    if rows == [] then []
    else
      var last := rows[|rows| - 1];
      VectorWrites(cfg, verdict, rows[..|rows| - 1])
        + if verdict(last.id).Changed? then [PutVector(last.id, Prepared(cfg, last))] else []
  }

  function LexicalWrites(rows: seq<SourceRow>): seq<Action> {
    if rows == [] then []
    else
      var last := rows[|rows| - 1];
      LexicalWrites(rows[..|rows| - 1])
        + if last.lexical.Some? then [PutLexical(last.id, last.lexical.value)] else []
  }

  function BatchActions(cfg: Config, force: bool, s: Index, batch: seq<SourceRow>): seq<Action> {
    var verdict := id => VerdictOn(cfg, force, s.vectors, batch, id);
    var metadata, vectors := MetadataWrites(cfg, verdict, batch), VectorWrites(cfg, verdict, batch);
    (if metadata != [] || vectors != [] then [RaiseGate] else []) + metadata + vectors + LexicalWrites(batch)
  }

  function AllBatches(cfg: Config, force: bool, s: Index, batches: seq<seq<SourceRow>>): seq<Action>
    decreases |batches|
  {
    if batches == [] then []
    else
      var acts := BatchActions(cfg, force, s, batches[0]);
      acts + AllBatches(cfg, force, Exec(s, acts), batches[1..])
  }

  // ---- The whole run ----

  function OfSource(cfg: Config, vectors: map<Id, VectorRow>): set<Id> {
    set id | id in vectors && "source_file" in vectors[id].metadata.fields
             && vectors[id].metadata.fields["source_file"] == Text(cfg.source)
  }

  function Ids(rows: seq<SourceRow>): set<Id> { set r | r in rows :: r.id }

  function ReplaceActions(cfg: Config, replace: bool, s: Index): seq<Action> {
    if replace then [RaiseGate, DropVectors(OfSource(cfg, s.vectors)), DropLexical(s.lexical.Keys)] else []
  }

  function ReconcileActions(cfg: Config, reconcile: bool, s: Index, seen: set<Id>): seq<Action> {
    if reconcile
    then [RaiseGate, DropVectors(OfSource(cfg, s.vectors) - seen), DropLexical(s.lexical.Keys - seen)]
    else []
  }

  function Flatten(batches: seq<seq<SourceRow>>): seq<SourceRow> {
    if batches == [] then [] else batches[0] + Flatten(batches[1..])
  }

  function RunActions(cfg: Config, opts: Options, s: Index, batches: seq<seq<SourceRow>>): seq<Action> {
    var first := ReplaceActions(cfg, opts.replace, s);
    var cleared := Exec(s, first);
    var writes := AllBatches(cfg, opts.force, cleared, batches);
    var written := Exec(cleared, writes);
    first + writes + ReconcileActions(cfg, opts.reconcile, written, Ids(Flatten(batches))) + [LowerGate]
  }

  // ================ The gate ================

  // Vector writes and every deletion; BM25 upserts of a batch without vector changes are not gated.
  predicate Guarded(a: Action) {
    a.PutVector? || a.SetMetadata? || a.DropVectors? || a.DropLexical?
  }

  predicate GateHeld(s: Index, acts: seq<Action>)
    decreases |acts|
  {
    acts == [] || ((Guarded(acts[0]) ==> s.gate) && GateHeld(Apply(acts[0], s), acts[1..]))
  }

  lemma {:induction false} GateHeldAppend(s: Index, a: seq<Action>, b: seq<Action>)
    ensures GateHeld(s, a + b) <==> GateHeld(s, a) && GateHeld(Exec(s, a), b)
    decreases |a|
  {
    if a == [] {
      assert a + b == b;
    } else {
      assert (a + b)[1..] == a[1..] + b;
      GateHeldAppend(Apply(a[0], s), a[1..], b);
    }
  }

  predicate NeverLowers(acts: seq<Action>) { forall i :: 0 <= i < |acts| ==> !acts[i].LowerGate? }

  lemma {:induction false} GateStaysUp(s: Index, acts: seq<Action>)
    requires NeverLowers(acts)
    ensures s.gate ==> Exec(s, acts).gate && GateHeld(s, acts)
    decreases |acts|
  {
    if acts != [] { GateStaysUp(Apply(acts[0], s), acts[1..]); }
  }

  lemma {:induction false} UngatedAreHeld(s: Index, acts: seq<Action>)
    requires forall i :: 0 <= i < |acts| ==> !Guarded(acts[i])
    ensures GateHeld(s, acts)
    decreases |acts|
  {
    if acts != [] { UngatedAreHeld(Apply(acts[0], s), acts[1..]); }
  }

  lemma {:induction false} WritesKinds(cfg: Config, verdict: Id -> Verdict, rows: seq<SourceRow>)
    ensures forall i :: 0 <= i < |MetadataWrites(cfg, verdict, rows)| ==> MetadataWrites(cfg, verdict, rows)[i].SetMetadata?
    ensures forall i :: 0 <= i < |VectorWrites(cfg, verdict, rows)| ==> VectorWrites(cfg, verdict, rows)[i].PutVector?
    ensures forall i :: 0 <= i < |LexicalWrites(rows)| ==> LexicalWrites(rows)[i].PutLexical?
  {
    if rows != [] { WritesKinds(cfg, verdict, rows[..|rows| - 1]); }
  }

  lemma BatchGate(cfg: Config, force: bool, s: Index, batch: seq<SourceRow>)
    ensures GateHeld(s, BatchActions(cfg, force, s, batch))
    ensures NeverLowers(BatchActions(cfg, force, s, batch))
  {
    hide GateHeld, Apply, Exec;
    var verdict := id => VerdictOn(cfg, force, s.vectors, batch, id);
    WritesKinds(cfg, verdict, batch);
    var acts := BatchActions(cfg, force, s, batch);
    if MetadataWrites(cfg, verdict, batch) == [] && VectorWrites(cfg, verdict, batch) == [] {
      assert acts == LexicalWrites(batch);
      UngatedAreHeld(s, acts);
    } else {
      assert acts[0] == RaiseGate;
      RaisedFirst(s, acts);
    }
  }

  lemma RaisedFirst(s: Index, acts: seq<Action>)
    requires acts != [] && acts[0] == RaiseGate && NeverLowers(acts)
    ensures GateHeld(s, acts)
  {
    GateStaysUp(Apply(acts[0], s), acts[1..]);
  }

  lemma {:induction false} BatchesGate(cfg: Config, force: bool, s: Index, batches: seq<seq<SourceRow>>)
    ensures GateHeld(s, AllBatches(cfg, force, s, batches))
    ensures NeverLowers(AllBatches(cfg, force, s, batches))
    decreases |batches|
  {
    hide GateHeld, BatchActions;
    if batches == [] {
      UngatedAreHeld(s, []);
    } else {
      var acts := BatchActions(cfg, force, s, batches[0]);
      BatchGate(cfg, force, s, batches[0]);
      BatchesGate(cfg, force, Exec(s, acts), batches[1..]);
      GateHeldAppend(s, acts, AllBatches(cfg, force, Exec(s, acts), batches[1..]));
    }
  }

  // Every vector write and every deletion of a run happens under the gate, and only the last
  // action of a run lowers it.
  lemma RunGate(cfg: Config, opts: Options, s: Index, batches: seq<seq<SourceRow>>)
    ensures var acts := RunActions(cfg, opts, s, batches);
            acts != [] && acts[|acts| - 1] == LowerGate && NeverLowers(acts[..|acts| - 1]) && GateHeld(s, acts)
  {
    hide GateHeld, AllBatches, Flatten, OfSource;
    var first := ReplaceActions(cfg, opts.replace, s);
    var cleared := Exec(s, first);
    var writes := AllBatches(cfg, opts.force, cleared, batches);
    var written := Exec(cleared, writes);
    var last := ReconcileActions(cfg, opts.reconcile, written, Ids(Flatten(batches)));
    var end := Exec(written, last);
    RaisedOrEmpty(s, first);
    BatchesGate(cfg, opts.force, cleared, batches);
    RaisedOrEmpty(written, last);
    UngatedAreHeld(end, [LowerGate]);
    GateHeldAppend(s, first, writes);
    ExecAppend(s, first, writes);
    GateHeldAppend(s, first + writes, last);
    ExecAppend(s, first + writes, last);
    GateHeldAppend(s, first + writes + last, [LowerGate]);
    var acts := RunActions(cfg, opts, s, batches);
    assert acts[..|acts| - 1] == first + writes + last;
  }

  lemma RaisedOrEmpty(s: Index, acts: seq<Action>)
    requires acts == [] || acts[0] == RaiseGate
    requires NeverLowers(acts)
    ensures GateHeld(s, acts)
  {
    if acts == [] { UngatedAreHeld(s, acts); } else { RaisedFirst(s, acts); }
  }

  // ---- Any sequence of runs, each cut off after any number of actions ----

  datatype Attempt = Attempt(cfg: Config, opts: Options, batches: seq<seq<SourceRow>>, performed: nat)

  // The index, and the vector rows left by the last run that finished.
  datatype History = History(index: Index, committed: map<Id, VectorRow>)

  function AttemptStep(h: History, a: Attempt): History {
    var acts := RunActions(a.cfg, a.opts, h.index, a.batches);
    if a.performed < |acts| then History(Exec(h.index, acts[..a.performed]), h.committed)
    else var end := Exec(h.index, acts); History(end, end.vectors)
  }

  function AttemptAll(h: History, attempts: seq<Attempt>): History
    decreases |attempts|
  {
    if attempts == [] then h else AttemptAll(AttemptStep(h, attempts[0]), attempts[1..])
  }

  lemma {:induction false} UnguardedKeepsVectors(s: Index, acts: seq<Action>, committed: map<Id, VectorRow>)
    requires GateHeld(s, acts) && NeverLowers(acts) && (!s.gate ==> s.vectors == committed)
    ensures !Exec(s, acts).gate ==> Exec(s, acts).vectors == committed
    decreases |acts|
  {
    if acts != [] { UnguardedKeepsVectors(Apply(acts[0], s), acts[1..], committed); }
  }

  lemma {:induction false} GateHeldPrefix(s: Index, acts: seq<Action>, n: nat)
    requires n <= |acts| && GateHeld(s, acts)
    ensures GateHeld(s, acts[..n])
  {
    assert acts == acts[..n] + acts[n..];
    GateHeldAppend(s, acts[..n], acts[n..]);
  }

  lemma AttemptSafe(h: History, a: Attempt)
    requires !h.index.gate ==> h.index.vectors == h.committed
    ensures var v := AttemptStep(h, a);
            (!v.index.gate ==> v.index.vectors == v.committed)
            && (a.performed >= |RunActions(a.cfg, a.opts, h.index, a.batches)| ==> !v.index.gate)
  {
    hide RunActions, GateHeld;
    var acts := RunActions(a.cfg, a.opts, h.index, a.batches);
    RunGate(a.cfg, a.opts, h.index, a.batches);
    if a.performed < |acts| {
      GateHeldPrefix(h.index, acts, a.performed);
      UnguardedKeepsVectors(h.index, acts[..a.performed], h.committed);
    } else {
      assert acts == acts[..|acts| - 1] + [LowerGate];
      ExecAppend(h.index, acts[..|acts| - 1], [LowerGate]);
      var before := Exec(h.index, acts[..|acts| - 1]);
      assert Exec(before, [LowerGate]) == Exec(Apply(LowerGate, before), []);
    }
  }

  // Whenever searches are admitted, the vector rows are those of the last finished run: no
  // search sees any part of a run that crashed, until a later run finishes.
  lemma {:induction false} SearchesSeeFinishedRuns(h: History, attempts: seq<Attempt>)
    requires !h.index.gate ==> h.index.vectors == h.committed
    ensures var v := AttemptAll(h, attempts); !v.index.gate ==> v.index.vectors == v.committed
    decreases |attempts|
  {
    hide AttemptStep;
    if attempts != [] {
      AttemptSafe(h, attempts[0]);
      SearchesSeeFinishedRuns(AttemptStep(h, attempts[0]), attempts[1..]);
    }
  }

  // ================ Incremental equals rebuilt ================

  // What the writes of this module leave in a row: hashes of its own contents, and an embedding
  // of its own document. A row without a revision is adopted as being of the current one.
  predicate Genuine(cfg: Config, row: VectorRow) {
    var m := row.metadata;
    && (m.contentHash.Some? ==> m.contentHash.value == ContentHash(row.document))
    && (m.metadataHash.Some? ==> m.metadataHash.value == MetadataHash(m.fields) && m.contentHash.Some?)
    && (m.model.Some? && m.revision.Some? ==>
          row.embedding == Vector(m.model.value, m.revision.value, row.document))
    && (m.model == Some(cfg.model) && m.revision.None? ==>
          row.embedding == Vector(cfg.model, cfg.revision, row.document))
  }

  ghost predicate WellFormed(cfg: Config, vectors: map<Id, VectorRow>) {
    forall id :: id in vectors ==> Genuine(cfg, vectors[id])
  }

  // Equal, except that the raw cells may differ where the metadata hash cannot tell them apart.
  predicate Matches(row: VectorRow, expected: VectorRow) {
    row == expected.(metadata := expected.metadata.(fields := row.metadata.fields))
    && Canonical(row.metadata.fields) == Canonical(expected.metadata.fields)
  }

  lemma ExactWhenStable(row: VectorRow, expected: VectorRow)
    requires Matches(row, expected)
    requires Stable(row.metadata.fields) && Stable(expected.metadata.fields)
    ensures row == expected
  {
    StableHashIsExact(row.metadata.fields, expected.metadata.fields);
  }

  // Another model, another revision than the present one, or another text.
  predicate NeedsEmbedding(cfg: Config, stored: VectorRow, expected: SourceRow) {
    || stored.metadata.model != Some(cfg.model)
    || (stored.metadata.revision.Some? && stored.metadata.revision != Some(cfg.revision))
    || stored.document != expected.document
  }

  // A row is skipped exactly when it is as a fresh preparation would make it, embedded again exactly
  // when it has to be; in between, new metadata makes it the fresh one.
  lemma ClassifySound(cfg: Config, stored: VectorRow, expected: SourceRow)
    requires Genuine(cfg, stored)
    ensures Classify(cfg, stored, expected).Current? <==> Matches(stored, Prepared(cfg, expected))
    ensures Classify(cfg, stored, expected).Changed? <==> NeedsEmbedding(cfg, stored, expected)
    ensures Classify(cfg, stored, expected).MetadataOnly? ==>
              stored.(metadata := PreparedMetadata(cfg, expected)) == Prepared(cfg, expected)
    ensures Genuine(cfg, Prepared(cfg, expected))
  {}

  function LatestLexical(rows: seq<SourceRow>): map<Id, LexicalRow> {
    if rows == [] then map[]
    else
      var last := rows[|rows| - 1];
      var front := LatestLexical(rows[..|rows| - 1]);
      if last.lexical.Some? then front[last.id := last.lexical.value] else front
  }

  // The index built from nothing: one freshly prepared row per id.
  function Rebuild(cfg: Config, rows: seq<SourceRow>): Index {
    Index(map id | id in Latest(rows) :: Prepared(cfg, Latest(rows)[id]), LatestLexical(rows), false)
  }

  ghost predicate SameAt(v: map<Id, VectorRow>, w: map<Id, VectorRow>, id: Id) {
    (id in v <==> id in w) && (id in v ==> v[id] == w[id])
  }

  lemma ApplyLast(s: Index, acts: seq<Action>, a: Action)
    ensures Exec(s, acts + [a]) == Apply(a, Exec(s, acts))
    ensures Exec(s, acts + []) == Exec(s, acts)
  {
    ExecAppend(s, acts, [a]);
    assert Exec(Exec(s, acts), [a]) == Exec(Apply(a, Exec(s, acts)), []);
    assert acts + [] == acts;
  }

  lemma {:induction false} MetadataEffect(cfg: Config, verdict: Id -> Verdict, rows: seq<SourceRow>,
                                          s: Index, id: Id)
    ensures var t := Exec(s, MetadataWrites(cfg, verdict, rows));
            && t.lexical == s.lexical && t.gate == s.gate
            && (verdict(id).MetadataOnly? && id in Latest(rows) && id in s.vectors ==>
                  id in t.vectors
                  && t.vectors[id] == s.vectors[id].(metadata := PreparedMetadata(cfg, Latest(rows)[id])))
            && (!verdict(id).MetadataOnly? || id !in Latest(rows) ==> SameAt(t.vectors, s.vectors, id))
            && (id in t.vectors <==> id in s.vectors)
  {
    hide Exec;
    if rows == [] {
      ExecNothing(s);
    } else {
      var last, front := rows[|rows| - 1], rows[..|rows| - 1];
      MetadataEffect(cfg, verdict, front, s, id);
      ApplyLast(s, MetadataWrites(cfg, verdict, front), SetMetadata(last.id, PreparedMetadata(cfg, last)));
    }
  }

  lemma ExecNothing(s: Index)
    ensures Exec(s, []) == s
  {}

  lemma {:induction false} VectorEffect(cfg: Config, verdict: Id -> Verdict, rows: seq<SourceRow>,
                                        s: Index, id: Id)
    ensures var t := Exec(s, VectorWrites(cfg, verdict, rows));
            && t.lexical == s.lexical && t.gate == s.gate
            && (verdict(id).Changed? && id in Latest(rows) ==>
                  id in t.vectors && t.vectors[id] == Prepared(cfg, Latest(rows)[id]))
            && (!verdict(id).Changed? || id !in Latest(rows) ==> SameAt(t.vectors, s.vectors, id))
  {
    hide Exec;
    if rows == [] {
      ExecNothing(s);
    } else {
      var last, front := rows[|rows| - 1], rows[..|rows| - 1];
      VectorEffect(cfg, verdict, front, s, id);
      ApplyLast(s, VectorWrites(cfg, verdict, front), PutVector(last.id, Prepared(cfg, last)));
    }
  }

  lemma {:induction false} LexicalEffect(rows: seq<SourceRow>, s: Index)
    ensures Exec(s, LexicalWrites(rows)) == s.(lexical := s.lexical + LatestLexical(rows))
  {
    hide Exec;
    if rows == [] {
      ExecNothing(s);
      assert s.lexical + map[] == s.lexical;
    } else {
      var last, front := rows[|rows| - 1], rows[..|rows| - 1];
      LexicalEffect(front, s);
      if last.lexical.Some? {
        ApplyLast(s, LexicalWrites(front), PutLexical(last.id, last.lexical.value));
      } else {
        assert LexicalWrites(rows) == LexicalWrites(front);
      }
    }
  }

  // What one batch leaves under one id.
  lemma BatchEffectAt(cfg: Config, force: bool, s: Index, batch: seq<SourceRow>, id: Id)
    requires WellFormed(cfg, s.vectors)
    ensures var t := Exec(s, BatchActions(cfg, force, s, batch));
            && t.lexical == s.lexical + LatestLexical(batch)
            && (id in Latest(batch) ==>
                  && id in t.vectors && Genuine(cfg, t.vectors[id])
                  && Matches(t.vectors[id], Prepared(cfg, Latest(batch)[id]))
                  && (force ==> t.vectors[id] == Prepared(cfg, Latest(batch)[id])))
            && (id !in Latest(batch) ==> SameAt(t.vectors, s.vectors, id))
  {
    hide Exec, Latest, MetadataWrites, VectorWrites, LexicalWrites, Genuine, Matches, Classify, LatestLexical;
    var verdict := (i: Id) => VerdictOn(cfg, force, s.vectors, batch, i);
    var meta, vecs := MetadataWrites(cfg, verdict, batch), VectorWrites(cfg, verdict, batch);
    var raise := if meta != [] || vecs != [] then [RaiseGate] else [];
    var s1 := Exec(s, raise);
    RaiseEffect(s, raise);
    var s2 := Exec(s1, meta);
    MetadataEffect(cfg, verdict, batch, s1, id);
    var s3 := Exec(s2, vecs);
    VectorEffect(cfg, verdict, batch, s2, id);
    LexicalEffect(batch, s3);
    ExecAppend(s, raise, meta);
    ExecAppend(s, raise + meta, vecs);
    ExecAppend(s, raise + meta + vecs, LexicalWrites(batch));
    if id in Latest(batch) {
      ClassifySound'(cfg, s, batch, id);
    }
  }

  lemma ClassifySound'(cfg: Config, s: Index, batch: seq<SourceRow>, id: Id)
    requires WellFormed(cfg, s.vectors) && id in Latest(batch)
    ensures var made := Prepared(cfg, Latest(batch)[id]);
            Genuine(cfg, made) && Matches(made, made)
            && (id in s.vectors ==>
                  var stored, verdict := s.vectors[id], Classify(cfg, s.vectors[id], Latest(batch)[id]);
                  (verdict.Current? ==> Matches(stored, made) && Genuine(cfg, stored))
                  && (verdict.MetadataOnly? ==>
                        stored.(metadata := PreparedMetadata(cfg, Latest(batch)[id])) == made))
  {
    hide Classify, Genuine;
    if id in s.vectors { ClassifySound(cfg, s.vectors[id], Latest(batch)[id]); }
    PreparedGenuine(cfg, Latest(batch)[id]);
  }

  lemma PreparedGenuine(cfg: Config, row: SourceRow)
    ensures Genuine(cfg, Prepared(cfg, row))
  {}

  lemma RaiseEffect(s: Index, raise: seq<Action>)
    requires raise == [] || raise == [RaiseGate]
    ensures Exec(s, raise).vectors == s.vectors && Exec(s, raise).lexical == s.lexical
  {
    if raise != [] { assert Exec(s, raise) == Exec(Apply(RaiseGate, s), []); }
  }

  // t is s with every row of `rows` brought up to date and nothing else changed.
  ghost predicate Reflects(cfg: Config, force: bool, s: Index, t: Index, rows: seq<SourceRow>) {
    && WellFormed(cfg, t.vectors)
    && t.lexical == s.lexical + LatestLexical(rows)
    && (forall id :: id in Latest(rows) ==> id in t.vectors)
    && (forall id :: id in Latest(rows) ==> Matches(t.vectors[id], Prepared(cfg, Latest(rows)[id])))
    && (force ==> forall id :: id in Latest(rows) ==> t.vectors[id] == Prepared(cfg, Latest(rows)[id]))
    && (forall id :: id !in Latest(rows) ==> SameAt(t.vectors, s.vectors, id))
  }

  lemma BatchReflects(cfg: Config, force: bool, s: Index, batch: seq<SourceRow>)
    requires WellFormed(cfg, s.vectors)
    ensures Reflects(cfg, force, s, Exec(s, BatchActions(cfg, force, s, batch)), batch)
  {
    hide Exec, Latest, BatchActions, Genuine, Matches, Prepared, LatestLexical;
    var t := Exec(s, BatchActions(cfg, force, s, batch));
    BatchEffectAt(cfg, force, s, batch, "");
    forall id
      ensures id in Latest(batch) ==> id in t.vectors && Matches(t.vectors[id], Prepared(cfg, Latest(batch)[id]))
                                      && (force ==> t.vectors[id] == Prepared(cfg, Latest(batch)[id]))
      ensures id !in Latest(batch) ==> SameAt(t.vectors, s.vectors, id)
      ensures id in t.vectors ==> Genuine(cfg, t.vectors[id])
    {
      BatchEffectAt(cfg, force, s, batch, id);
    }
  }

  lemma {:induction false} LatestAppend(a: seq<SourceRow>, b: seq<SourceRow>)
    ensures Latest(a + b) == Latest(a) + Latest(b)
  {
    if b == [] {
      assert a + b == a;
      assert Latest(a) + map[] == Latest(a);
    } else {
      var front := b[..|b| - 1];
      LatestAppend(a, front);
      assert (a + b)[..|a + b| - 1] == a + front && (a + b)[|a + b| - 1] == b[|b| - 1];
    }
  }

  lemma {:induction false} LatestLexicalAppend(a: seq<SourceRow>, b: seq<SourceRow>)
    ensures LatestLexical(a + b) == LatestLexical(a) + LatestLexical(b)
  {
    if b == [] {
      assert a + b == a;
      assert LatestLexical(a) + map[] == LatestLexical(a);
    } else {
      var front := b[..|b| - 1];
      LatestLexicalAppend(a, front);
      assert (a + b)[..|a + b| - 1] == a + front && (a + b)[|a + b| - 1] == b[|b| - 1];
    }
  }

  lemma ReflectsTrans(cfg: Config, force: bool, s: Index, t: Index, u: Index,
                      a: seq<SourceRow>, b: seq<SourceRow>)
    requires Reflects(cfg, force, s, t, a) && Reflects(cfg, force, t, u, b)
    ensures Reflects(cfg, force, s, u, a + b)
  {
    hide Latest, Genuine, Matches, Prepared, LatestLexical;
    LatestAppend(a, b);
    LatestLexicalAppend(a, b);
    assert (s.lexical + LatestLexical(a)) + LatestLexical(b) == s.lexical + (LatestLexical(a) + LatestLexical(b));
    forall id | id in Latest(a + b)
      ensures id in u.vectors && Matches(u.vectors[id], Prepared(cfg, Latest(a + b)[id]))
      ensures force ==> u.vectors[id] == Prepared(cfg, Latest(a + b)[id])
    {
      if id !in Latest(b) { assert SameAt(u.vectors, t.vectors, id) && id in Latest(a); }
    }
    forall id | id !in Latest(a + b) ensures SameAt(u.vectors, s.vectors, id) {
      assert SameAt(u.vectors, t.vectors, id) && SameAt(t.vectors, s.vectors, id);
    }
  }

  lemma {:induction false} BatchesReflect(cfg: Config, force: bool, s: Index, batches: seq<seq<SourceRow>>)
    requires WellFormed(cfg, s.vectors)
    ensures Reflects(cfg, force, s, Exec(s, AllBatches(cfg, force, s, batches)), Flatten(batches))
    decreases |batches|
  {
    hide BatchActions, Exec;
    if batches == [] {
      ExecNothing(s);
      assert s.lexical + map[] == s.lexical;
    } else {
      var acts := BatchActions(cfg, force, s, batches[0]);
      var t := Exec(s, acts);
      BatchReflects(cfg, force, s, batches[0]);
      BatchesReflect(cfg, force, t, batches[1..]);
      ExecAppend(s, acts, AllBatches(cfg, force, t, batches[1..]));
      ReflectsTrans(cfg, force, s, t, Exec(t, AllBatches(cfg, force, t, batches[1..])),
                    batches[0], Flatten(batches[1..]));
    }
  }

  lemma {:induction false} LatestIds(rows: seq<SourceRow>)
    ensures Latest(rows).Keys == Ids(rows)
    ensures LatestLexical(rows).Keys <= Ids(rows)
    ensures forall id :: id in Latest(rows) ==> Latest(rows)[id] in rows && Latest(rows)[id].id == id
  {
    if rows != [] {
      var last, front := rows[|rows| - 1], rows[..|rows| - 1];
      LatestIds(front);
      assert rows == front + [last];
      assert Ids(rows) == Ids(front) + {last.id};
    }
  }

  // ---- The whole run, with deletion reconciliation ----

  function Cleared(cfg: Config, replace: bool, s: Index): Index {
    if replace then Index(s.vectors - OfSource(cfg, s.vectors), map[], true) else s
  }

  lemma ClearEffect(cfg: Config, replace: bool, s: Index)
    ensures Exec(s, ReplaceActions(cfg, replace, s)) == Cleared(cfg, replace, s)
  {
    var acts := ReplaceActions(cfg, replace, s);
    if replace {
      var s1 := Apply(RaiseGate, s);
      var s2 := Apply(acts[1], s1);
      var s3 := Apply(acts[2], s2);
      assert Exec(s, acts) == Exec(s1, acts[1..]) && acts[1..][0] == acts[1];
      assert Exec(s1, acts[1..]) == Exec(s2, acts[1..][1..]) && acts[1..][1..] == [acts[2]];
      assert Exec(s2, [acts[2]]) == Exec(s3, []);
      assert s.lexical - s.lexical.Keys == map[];
    }
  }

  lemma ReconcileEffect(cfg: Config, t: Index, seen: set<Id>)
    ensures Exec(t, ReconcileActions(cfg, true, t, seen) + [LowerGate])
         == Index(t.vectors - (OfSource(cfg, t.vectors) - seen), t.lexical - (t.lexical.Keys - seen), false)
  {
    var acts := ReconcileActions(cfg, true, t, seen) + [LowerGate];
    var t1 := Apply(RaiseGate, t);
    var t2 := Apply(acts[1], t1);
    var t3 := Apply(acts[2], t2);
    assert Exec(t, acts) == Exec(t1, acts[1..]) && acts[1..][0] == acts[1];
    assert Exec(t1, acts[1..]) == Exec(t2, acts[1..][1..]) && acts[1..][1..] == [acts[2], LowerGate];
    assert Exec(t2, [acts[2], LowerGate]) == Exec(t3, [LowerGate]);
    assert Exec(t3, [LowerGate]) == Exec(Apply(LowerGate, t3), []);
  }

  lemma RunEffect(cfg: Config, opts: Options, s: Index, batches: seq<seq<SourceRow>>)
    requires opts.reconcile
    ensures var cleared := Cleared(cfg, opts.replace, s);
            var t := Exec(cleared, AllBatches(cfg, opts.force, cleared, batches));
            var seen := Ids(Flatten(batches));
            Exec(s, RunActions(cfg, opts, s, batches))
            == Index(t.vectors - (OfSource(cfg, t.vectors) - seen), t.lexical - (t.lexical.Keys - seen), false)
  {
    hide Exec, AllBatches, OfSource;
    var first := ReplaceActions(cfg, opts.replace, s);
    ClearEffect(cfg, opts.replace, s);
    var cleared := Exec(s, first);
    var writes := AllBatches(cfg, opts.force, cleared, batches);
    var t := Exec(cleared, writes);
    var seen := Ids(Flatten(batches));
    ReconcileEffect(cfg, t, seen);
    var last := ReconcileActions(cfg, true, t, seen);
    ExecAppend(s, first, writes);
    ExecAppend(s, first + writes, last + [LowerGate]);
    assert RunActions(cfg, opts, s, batches) == (first + writes) + (last + [LowerGate]);
  }

  // A finished full scan with reconciliation, from any well-formed index, whatever the batches:
  // every source row is as a rebuild would prepare it, no other row of the source remains, rows
  // of other sources are untouched, and searches are admitted again.
  ghost predicate UpToDate(cfg: Config, force: bool, s: Index, t: Index, rows: seq<SourceRow>) {
    var rebuilt := Rebuild(cfg, rows);
    && !t.gate
    && WellFormed(cfg, t.vectors)
    && (forall id :: id in rebuilt.vectors ==> id in t.vectors)
    && (forall id :: id in rebuilt.vectors ==> Matches(t.vectors[id], rebuilt.vectors[id]))
    && (force ==> forall id :: id in rebuilt.vectors ==> t.vectors[id] == rebuilt.vectors[id])
    && OfSource(cfg, t.vectors) <= rebuilt.vectors.Keys
    && (forall id :: id !in rebuilt.vectors && id !in OfSource(cfg, s.vectors) ==> SameAt(t.vectors, s.vectors, id))
  }

  function Reconciled(cfg: Config, t: Index, seen: set<Id>): Index {
    Index(t.vectors - (OfSource(cfg, t.vectors) - seen), t.lexical - (t.lexical.Keys - seen), false)
  }

  lemma ReconciledRows(cfg: Config, t: Index, seen: set<Id>)
    ensures var end := Reconciled(cfg, t, seen);
            && !end.gate
            && (forall id :: id in seen && id in t.vectors ==> id in end.vectors && end.vectors[id] == t.vectors[id])
            && (forall id :: id in end.vectors ==> id in t.vectors && end.vectors[id] == t.vectors[id])
            && (forall id :: id !in OfSource(cfg, t.vectors) ==> SameAt(end.vectors, t.vectors, id))
            && OfSource(cfg, end.vectors) <= seen
  {}

  lemma ClearedRows(cfg: Config, replace: bool, s: Index, id: Id)
    requires id !in OfSource(cfg, s.vectors)
    ensures SameAt(Cleared(cfg, replace, s).vectors, s.vectors, id)
  {}

  lemma SameOfSource(cfg: Config, v: map<Id, VectorRow>, w: map<Id, VectorRow>, id: Id)
    requires SameAt(v, w, id)
    ensures id in OfSource(cfg, v) <==> id in OfSource(cfg, w)
  {}

  lemma ReconciledUpToDate(cfg: Config, force: bool, replace: bool, s: Index, t: Index, rows: seq<SourceRow>)
    requires Reflects(cfg, force, Cleared(cfg, replace, s), t, rows)
    ensures UpToDate(cfg, force, s, Reconciled(cfg, t, Ids(rows)), rows)
  {
    hide Genuine, Matches, Prepared, Latest, LatestLexical, OfSource, Reconciled, Cleared, Ids;
    LatestIds(rows);
    ReconciledRows(cfg, t, Ids(rows));
    var end := Reconciled(cfg, t, Ids(rows));
    forall id | id !in Latest(rows) && id !in OfSource(cfg, s.vectors)
      ensures SameAt(end.vectors, s.vectors, id)
    {
      ClearedRows(cfg, replace, s, id);
      assert SameAt(t.vectors, Cleared(cfg, replace, s).vectors, id);
      SameOfSource(cfg, t.vectors, s.vectors, id);
    }
  }

  lemma FullScanMatchesRebuild(cfg: Config, opts: Options, s: Index, batches: seq<seq<SourceRow>>)
    requires opts.reconcile && WellFormed(cfg, s.vectors)
    ensures var t := Exec(s, RunActions(cfg, opts, s, batches));
            UpToDate(cfg, opts.force, s, t, Flatten(batches))
  {
    hide Exec, AllBatches, RunActions, Reflects, UpToDate, OfSource, WellFormed;
    var cleared := Cleared(cfg, opts.replace, s);
    ClearedWellFormed(cfg, opts.replace, s);
    var t := Exec(cleared, AllBatches(cfg, opts.force, cleared, batches));
    BatchesReflect(cfg, opts.force, cleared, batches);
    RunEffect(cfg, opts, s, batches);
    ReconciledUpToDate(cfg, opts.force, opts.replace, s, t, Flatten(batches));
  }

  // No run of one source touches a stored row of another, or of none, unless it was scanned under its id;
  // after a reconciling run every stored row of the source was scanned.
  lemma OtherSourcesUntouched(cfg: Config, opts: Options, s: Index, batches: seq<seq<SourceRow>>, id: Id)
    requires WellFormed(cfg, s.vectors)
    ensures var t := Exec(s, RunActions(cfg, opts, s, batches));
            && (id in s.vectors && id !in Ids(Flatten(batches))
                && !("source_file" in s.vectors[id].metadata.fields && s.vectors[id].metadata.fields["source_file"] == Text(cfg.source)) ==>
                  id in t.vectors && t.vectors[id] == s.vectors[id])
            && (id !in s.vectors && id !in Ids(Flatten(batches)) ==> id !in t.vectors)
            && (opts.reconcile && id in t.vectors && id !in Ids(Flatten(batches)) ==>
                  !("source_file" in t.vectors[id].metadata.fields && t.vectors[id].metadata.fields["source_file"] == Text(cfg.source)))
  {
    hide Exec, RunActions, AllBatches, Flatten, Latest, LatestLexical, Genuine, Matches, Prepared, Ids;
    var rows := Flatten(batches);
    LatestIds(rows);
    if opts.reconcile {
      FullScanMatchesRebuild(cfg, opts, s, batches);
    } else {
      var cleared := Cleared(cfg, opts.replace, s);
      ClearedWellFormed(cfg, opts.replace, s);
      BatchesReflect(cfg, opts.force, cleared, batches);
      UnreconciledEffect(cfg, opts, s, batches);
      var u := Exec(cleared, AllBatches(cfg, opts.force, cleared, batches));
      assert id !in Latest(rows) ==> SameAt(u.vectors, cleared.vectors, id);
    }
  }

  lemma RestrictedUnion(a: map<Id, LexicalRow>, b: map<Id, LexicalRow>, seen: set<Id>)
    requires b.Keys <= seen
    ensures (a + b) - ((a + b).Keys - seen) == (a - (a.Keys - seen)) + b
  {}

  // The BM25 rows after the same run.
  lemma LexicalAfterRun(cfg: Config, opts: Options, s: Index, batches: seq<seq<SourceRow>>)
    requires opts.reconcile && WellFormed(cfg, s.vectors)
    ensures var rows := Flatten(batches);
            var kept := if opts.replace then map[] else s.lexical;
            Exec(s, RunActions(cfg, opts, s, batches)).lexical
            == (kept - (kept.Keys - Ids(rows))) + LatestLexical(rows)
  {
    hide Exec, AllBatches, RunActions, OfSource, LatestLexical, Ids, Flatten, WellFormed;
    var rows := Flatten(batches);
    var cleared := Cleared(cfg, opts.replace, s);
    ClearedWellFormed(cfg, opts.replace, s);
    BatchesReflect(cfg, opts.force, cleared, batches);
    RunEffect(cfg, opts, s, batches);
    LatestIds(rows);
    RestrictedUnion(cleared.lexical, LatestLexical(rows), Ids(rows));
  }

  lemma ClearedWellFormed(cfg: Config, replace: bool, s: Index)
    requires WellFormed(cfg, s.vectors)
    ensures WellFormed(cfg, Cleared(cfg, replace, s).vectors)
  {}

  // They equal the rebuilt ones exactly when no row whose BM25 text is now blank had an old one.
  lemma LexicalExactIff(cfg: Config, opts: Options, s: Index, batches: seq<seq<SourceRow>>)
    requires opts.reconcile && WellFormed(cfg, s.vectors)
    ensures var rows := Flatten(batches);
            Exec(s, RunActions(cfg, opts, s, batches)).lexical == Rebuild(cfg, rows).lexical
            <==> (opts.replace
                  || forall id :: id in s.lexical && id in Ids(rows) ==> id in LatestLexical(rows))
  {
    hide Exec, RunActions, Flatten, LatestLexical;
    LexicalAfterRun(cfg, opts, s, batches);
    var rows := Flatten(batches);
    var kept := if opts.replace then map[] else s.lexical;
    var end := (kept - (kept.Keys - Ids(rows))) + LatestLexical(rows);
    if !opts.replace {
      if id :| id in s.lexical && id in Ids(rows) && id !in LatestLexical(rows) {
        assert id in end;
      } else {
        assert end.Keys == LatestLexical(rows).Keys;
      }
    }
  }

  // A forced replacing run on an empty index produces the rebuilt index itself.
  lemma ForcedRunIsRebuild(cfg: Config, batches: seq<seq<SourceRow>>)
    ensures Exec(Index(map[], map[], false),
                 RunActions(cfg, Options(true, true, true), Index(map[], map[], false), batches))
         == Rebuild(cfg, Flatten(batches))
  {
    hide Exec, RunActions, Flatten, Prepared;
    var empty, opts := Index(map[], map[], false), Options(true, true, true);
    var rows := Flatten(batches);
    FullScanMatchesRebuild(cfg, opts, empty, batches);
    LexicalExactIff(cfg, opts, empty, batches);
    var t := Exec(empty, RunActions(cfg, opts, empty, batches));
    forall id ensures id in t.vectors <==> id in Rebuild(cfg, rows).vectors {
      if id !in Rebuild(cfg, rows).vectors { assert SameAt(t.vectors, empty.vectors, id); }
    }
    assert t.vectors == Rebuild(cfg, rows).vectors;
  }

  // A row whose BM25 text is now blank, and its old BM25 row: the rebuilt index does not have it.
  lemma BlankKeepsOldRow(cfg: Config, row: SourceRow, stale: LexicalRow)
    requires row.lexical.None?
    ensures var s := Index(map[], map[row.id := stale], false);
            Exec(s, RunActions(cfg, Options(false, false, true), s, [[row]])).lexical != Rebuild(cfg, [row]).lexical
  {
    hide Exec, RunActions;
    var s := Index(map[], map[row.id := stale], false);
    assert Flatten([[row]]) == [row] + Flatten([]) == [row];
    assert [row][..0] == [] && LatestLexical([row]) == map[];
    assert row in [row] && row.id in Ids([row]);
    LexicalExactIff(cfg, Options(false, false, true), s, [[row]]);
  }

  // ---- Runs without reconciliation: limited ones, and full ones that were not asked to reconcile ----

  lemma UnreconciledEffect(cfg: Config, opts: Options, s: Index, batches: seq<seq<SourceRow>>)
    requires !opts.reconcile
    ensures var cleared := Cleared(cfg, opts.replace, s);
            Exec(s, RunActions(cfg, opts, s, batches))
            == Exec(cleared, AllBatches(cfg, opts.force, cleared, batches)).(gate := false)
  {
    hide Exec, AllBatches, Flatten, OfSource;
    var first := ReplaceActions(cfg, opts.replace, s);
    ClearEffect(cfg, opts.replace, s);
    var cleared := Exec(s, first);
    var writes := AllBatches(cfg, opts.force, cleared, batches);
    ExecAppend(s, first, writes);
    ApplyLast(s, first + writes, LowerGate);
    assert RunActions(cfg, opts, s, batches) == (first + writes) + [LowerGate];
  }

  // The rows scanned say of their ids what the source `all` says.
  ghost predicate PartOf(rows: seq<SourceRow>, all: seq<SourceRow>) {
    forall id :: id in Latest(rows) ==> id in Latest(all) && Latest(all)[id] == Latest(rows)[id]
  }

  // Nothing else was left to do: the stored rows of the source all belong to it, and those that were
  // not scanned are as they should be.
  ghost predicate NothingLeft(cfg: Config, cleared: Index, rows: seq<SourceRow>, all: seq<SourceRow>) {
    && OfSource(cfg, cleared.vectors) <= Ids(all)
    && forall id :: id in Latest(all) && id !in Latest(rows) ==>
         id in cleared.vectors && Matches(cleared.vectors[id], Prepared(cfg, Latest(all)[id]))
  }

  // A finished run without reconciliation lowers the gate whatever raised it; the index is then up to
  // date with the source exactly when nothing was left to do before the run. For a full scan the
  // condition is that no stored row of the source is gone from it.
  lemma UnreconciledUpToDateIff(cfg: Config, opts: Options, s: Index, batches: seq<seq<SourceRow>>, all: seq<SourceRow>)
    requires !opts.reconcile && WellFormed(cfg, s.vectors) && PartOf(Flatten(batches), all)
    ensures var t := Exec(s, RunActions(cfg, opts, s, batches));
            var cleared := Cleared(cfg, opts.replace, s);
            && !t.gate
            && (UpToDate(cfg, false, s, t, all) <==> NothingLeft(cfg, cleared, Flatten(batches), all))
            && (UpToDate(cfg, opts.force, s, t, Flatten(batches)) <==> OfSource(cfg, cleared.vectors) <= Ids(Flatten(batches)))
  {
    hide Exec, RunActions, AllBatches, Genuine, Matches, Prepared, Latest, LatestLexical, OfSource, Cleared, Ids, Flatten;
    var rows, cleared := Flatten(batches), Cleared(cfg, opts.replace, s);
    ClearedWellFormed(cfg, opts.replace, s);
    UnreconciledEffect(cfg, opts, s, batches);
    BatchesReflect(cfg, opts.force, cleared, batches);
    var u := Exec(cleared, AllBatches(cfg, opts.force, cleared, batches));
    ReflectedUpToDateIff(cfg, opts.force, false, opts.replace, s, u, rows, all);
    ReflectedUpToDateIff(cfg, opts.force, opts.force, opts.replace, s, u, rows, rows);
  }

  lemma ReflectedUpToDateIff(cfg: Config, force: bool, exact: bool, replace: bool, s: Index, u: Index,
                             rows: seq<SourceRow>, all: seq<SourceRow>)
    requires Reflects(cfg, force, Cleared(cfg, replace, s), u, rows) && PartOf(rows, all)
    requires exact ==> force && rows == all
    ensures UpToDate(cfg, exact, s, u.(gate := false), all) <==> NothingLeft(cfg, Cleared(cfg, replace, s), rows, all)
  {
    hide Genuine, Matches, Prepared, Latest, LatestLexical, OfSource, Cleared, Ids, UpToDate;
    var cleared, t := Cleared(cfg, replace, s), u.(gate := false);
    LatestIds(all);
    LatestIds(rows);
    OfSourceOutside(cfg, u.vectors, cleared.vectors, Ids(rows), Ids(all));
    if NothingLeft(cfg, cleared, rows, all) {
      NothingLeftUpToDate(cfg, force, exact, replace, s, u, rows, all);
    } else if UpToDate(cfg, exact, s, t, all) {
      UpToDateRows(cfg, exact, s, t, all);
      forall id | id in Latest(all) && id !in Latest(rows)
        ensures id in cleared.vectors && Matches(cleared.vectors[id], Prepared(cfg, Latest(all)[id]))
      {
        assert SameAt(u.vectors, cleared.vectors, id);
      }
    }
  }

  lemma UpToDateRows(cfg: Config, exact: bool, s: Index, t: Index, all: seq<SourceRow>)
    requires UpToDate(cfg, exact, s, t, all)
    ensures OfSource(cfg, t.vectors) <= Ids(all)
    ensures forall id :: id in Latest(all) ==> id in t.vectors && Matches(t.vectors[id], Prepared(cfg, Latest(all)[id]))
  {
    hide Genuine, Matches, Prepared, Latest, OfSource, Ids;
    LatestIds(all);
    forall id | id in Latest(all) ensures id in t.vectors && Matches(t.vectors[id], Prepared(cfg, Latest(all)[id])) {
      assert id in Rebuild(cfg, all).vectors;
    }
  }

  lemma NothingLeftUpToDate(cfg: Config, force: bool, exact: bool, replace: bool, s: Index, u: Index,
                            rows: seq<SourceRow>, all: seq<SourceRow>)
    requires Reflects(cfg, force, Cleared(cfg, replace, s), u, rows) && PartOf(rows, all)
    requires (exact ==> force && rows == all) && NothingLeft(cfg, Cleared(cfg, replace, s), rows, all)
    requires OfSource(cfg, u.vectors) <= Ids(all)
    ensures UpToDate(cfg, exact, s, u.(gate := false), all)
  {
    hide Genuine, Matches, Prepared, Latest, LatestLexical, OfSource, Cleared, Ids;
    var cleared := Cleared(cfg, replace, s);
    LatestIds(all);
    forall id | id in Latest(all) && id !in Latest(rows)
      ensures id in u.vectors && Matches(u.vectors[id], Prepared(cfg, Latest(all)[id]))
    {
      assert SameAt(u.vectors, cleared.vectors, id);
    }
    forall id | id !in Latest(all) && id !in OfSource(cfg, s.vectors) ensures SameAt(u.vectors, s.vectors, id) {
      ClearedRows(cfg, replace, s, id);
      assert SameAt(u.vectors, cleared.vectors, id);
    }
  }

  // Tables that agree outside `seen` have the same source rows there.
  lemma OfSourceOutside(cfg: Config, v: map<Id, VectorRow>, w: map<Id, VectorRow>, seen: set<Id>, all: set<Id>)
    requires seen <= all && forall id :: id !in seen ==> SameAt(v, w, id)
    ensures OfSource(cfg, v) <= all <==> OfSource(cfg, w) <= all
  {
    hide OfSource;
    forall id | id !in all ensures id in OfSource(cfg, v) <==> id in OfSource(cfg, w) { SameOfSource(cfg, v, w, id); }
  }

  // A replacing run crashes after its deletions and leaves the gate up; a limited run that then
  // finishes opens it over an index without the row it did not scan.
  lemma LimitedRunOpensGate(cfg: Config, s: Index, a: SourceRow, b: SourceRow)
    requires a.id != b.id && OfSource(cfg, s.vectors) == s.vectors.Keys
    ensures var crash := Attempt(cfg, Options(false, true, true), [[a, b]], 3);
            var h := AttemptStep(History(s, s.vectors), crash);
            var acts := RunActions(cfg, Options(false, false, false), h.index, [[a]]);
            var v := AttemptStep(h, Attempt(cfg, Options(false, false, false), [[a]], |acts|));
            h.index.gate && !v.index.gate && b.id !in v.index.vectors && !UpToDate(cfg, false, s, v.index, [a, b])
  {
    hide Exec, AllBatches, Prepared, Genuine;
    var opts := Options(false, false, false);
    var crash := Attempt(cfg, Options(false, true, true), [[a, b]], 3);
    ClearEffect(cfg, true, s);
    var acts := RunActions(cfg, crash.opts, s, crash.batches);
    assert acts[..3] == ReplaceActions(cfg, true, s);
    var empty := Cleared(cfg, true, s);
    assert empty.vectors == map[];
    UnreconciledEffect(cfg, opts, empty, [[a]]);
    BatchesReflect(cfg, false, empty, [[a]]);
    assert Flatten([[a]]) == [a] + Flatten([]) == [a];
    assert [a][..0] == [] && Latest([a]) == map[a.id := a];
    var v := Exec(empty, AllBatches(cfg, false, empty, [[a]]));
    assert SameAt(v.vectors, empty.vectors, b.id);
    assert [a, b][..1] == [a] && b.id in Latest([a, b]);
  }

  // ================ A crash leaves an index the next run can start from ================

  predicate SafeAct(cfg: Config, s: Index, a: Action) {
    match a
    case PutVector(_, row) => Genuine(cfg, row)
    case SetMetadata(id, m) => id in s.vectors ==> Genuine(cfg, s.vectors[id].(metadata := m))
    case _ => true
  }

  predicate SafeActs(cfg: Config, s: Index, acts: seq<Action>)
    decreases |acts|
  {
    acts == [] || (SafeAct(cfg, s, acts[0]) && SafeActs(cfg, Apply(acts[0], s), acts[1..]))
  }

  lemma {:induction false} SafeAppend(cfg: Config, s: Index, a: seq<Action>, b: seq<Action>)
    ensures SafeActs(cfg, s, a + b) <==> SafeActs(cfg, s, a) && SafeActs(cfg, Exec(s, a), b)
    decreases |a|
  {
    hide SafeAct;
    if a == [] {
      assert a + b == b;
    } else {
      assert (a + b)[1..] == a[1..] + b;
      SafeAppend(cfg, Apply(a[0], s), a[1..], b);
    }
  }

  lemma SafeOne(cfg: Config, s: Index, a: Action)
    ensures SafeActs(cfg, s, [a]) <==> SafeAct(cfg, s, a)
    ensures SafeActs(cfg, s, [])
  {}

  lemma {:induction false} SafeKeepsWellFormed(cfg: Config, s: Index, acts: seq<Action>)
    requires WellFormed(cfg, s.vectors) && SafeActs(cfg, s, acts)
    ensures WellFormed(cfg, Exec(s, acts).vectors)
    decreases |acts|
  {
    hide Genuine;
    if acts != [] { SafeKeepsWellFormed(cfg, Apply(acts[0], s), acts[1..]); }
  }

  lemma {:induction false} HarmlessSafe(cfg: Config, s: Index, acts: seq<Action>)
    requires forall i :: 0 <= i < |acts| ==> !acts[i].PutVector? && !acts[i].SetMetadata?
    ensures SafeActs(cfg, s, acts)
    decreases |acts|
  {
    if acts != [] { HarmlessSafe(cfg, Apply(acts[0], s), acts[1..]); }
  }

  lemma {:induction false} VectorWritesSafe(cfg: Config, verdict: Id -> Verdict, rows: seq<SourceRow>, s: Index)
    ensures SafeActs(cfg, s, VectorWrites(cfg, verdict, rows))
  {
    hide SafeActs, Genuine;
    SafeOne(cfg, s, RaiseGate);
    if rows != [] {
      var last, front := rows[|rows| - 1], rows[..|rows| - 1];
      VectorWritesSafe(cfg, verdict, front, s);
      var writes := VectorWrites(cfg, verdict, front);
      PreparedGenuine(cfg, last);
      SafeOne(cfg, Exec(s, writes), PutVector(last.id, Prepared(cfg, last)));
      SafeAppend(cfg, s, writes, [PutVector(last.id, Prepared(cfg, last))]);
      assert verdict(last.id).Changed? || VectorWrites(cfg, verdict, rows) == writes;
    }
  }

  // Rows that share an id inside one batch share their text.
  predicate Consistent(batch: seq<SourceRow>) {
    forall i, j :: 0 <= i < |batch| && 0 <= j < |batch| && batch[i].id == batch[j].id ==>
      batch[i].document == batch[j].document
  }

  lemma {:induction false} MetadataWritesSafe(cfg: Config, verdict: Id -> Verdict, rows: seq<SourceRow>, s: Index)
    requires forall r :: r in rows && verdict(r.id).MetadataOnly? && r.id in s.vectors ==>
               s.vectors[r.id].document == r.document
               && s.vectors[r.id].embedding == Vector(cfg.model, cfg.revision, r.document)
    ensures SafeActs(cfg, s, MetadataWrites(cfg, verdict, rows))
  {
    hide SafeActs;
    SafeOne(cfg, s, RaiseGate);
    if rows != [] {
      var last, front := rows[|rows| - 1], rows[..|rows| - 1];
      MetadataWritesSafe(cfg, verdict, front, s);
      var writes, write := MetadataWrites(cfg, verdict, front), SetMetadata(last.id, PreparedMetadata(cfg, last));
      MetadataEffect(cfg, verdict, front, s, last.id);
      SafeOne(cfg, Exec(s, writes), write);
      SafeAppend(cfg, s, writes, [write]);
      assert verdict(last.id).MetadataOnly? || MetadataWrites(cfg, verdict, rows) == writes;
    }
  }

  lemma {:induction false} LatestMember(rows: seq<SourceRow>, id: Id)
    ensures id in Latest(rows) ==> exists i :: 0 <= i < |rows| && rows[i] == Latest(rows)[id] && rows[i].id == id
  {
    if rows != [] && rows[|rows| - 1].id != id { LatestMember(rows[..|rows| - 1], id); }
  }

  lemma BatchSafe(cfg: Config, force: bool, s: Index, batch: seq<SourceRow>)
    requires WellFormed(cfg, s.vectors) && (force || Consistent(batch))
    ensures SafeActs(cfg, s, BatchActions(cfg, force, s, batch))
  {
    hide SafeActs, Exec, Genuine, Classify, MetadataWrites, VectorWrites, LexicalWrites, Latest;
    var verdict := (i: Id) => VerdictOn(cfg, force, s.vectors, batch, i);
    var meta, vecs, lex := MetadataWrites(cfg, verdict, batch), VectorWrites(cfg, verdict, batch), LexicalWrites(batch);
    var raise := if meta != [] || vecs != [] then [RaiseGate] else [];
    var s1 := Exec(s, raise);
    RaiseEffect(s, raise);
    HarmlessSafe(cfg, s, raise);
    forall r | r in batch && verdict(r.id).MetadataOnly? && r.id in s1.vectors
      ensures s1.vectors[r.id].document == r.document
      ensures s1.vectors[r.id].embedding == Vector(cfg.model, cfg.revision, r.document)
    {
      LatestMember(batch, r.id);
      ClassifySound(cfg, s.vectors[r.id], Latest(batch)[r.id]);
    }
    MetadataWritesSafe(cfg, verdict, batch, s1);
    VectorWritesSafe(cfg, verdict, batch, Exec(s1, meta));
    WritesKinds(cfg, verdict, batch);
    HarmlessSafe(cfg, Exec(Exec(s1, meta), vecs), lex);
    SafeAppend(cfg, s, raise, meta);
    ExecAppend(s, raise, meta);
    SafeAppend(cfg, s, raise + meta, vecs);
    ExecAppend(s, raise + meta, vecs);
    SafeAppend(cfg, s, raise + meta + vecs, lex);
  }

  ghost predicate AllConsistent(batches: seq<seq<SourceRow>>) {
    forall i :: 0 <= i < |batches| ==> Consistent(batches[i])
  }

  lemma {:induction false} BatchesSafe(cfg: Config, force: bool, s: Index, batches: seq<seq<SourceRow>>)
    requires WellFormed(cfg, s.vectors) && (force || AllConsistent(batches))
    ensures SafeActs(cfg, s, AllBatches(cfg, force, s, batches))
    decreases |batches|
  {
    hide SafeActs, BatchActions, Exec, Consistent, WellFormed;
    if batches == [] {
      SafeOne(cfg, s, RaiseGate);
    } else {
      var acts := BatchActions(cfg, force, s, batches[0]);
      BatchSafe(cfg, force, s, batches[0]);
      SafeKeepsWellFormed(cfg, s, acts);
      BatchesSafe(cfg, force, Exec(s, acts), batches[1..]);
      SafeAppend(cfg, s, acts, AllBatches(cfg, force, Exec(s, acts), batches[1..]));
    }
  }

  // ---- Stops that do not fall between two metadata updates ----

  // The run stops with one metadata update done and the next one still to do. The updates of a batch
  // are one executemany call, so this takes an interruption inside that call.
  predicate InsideUpdate(acts: seq<Action>, n: nat) {
    0 < n < |acts| && acts[n - 1].SetMetadata? && acts[n].SetMetadata?
  }

  ghost predicate Settled(cfg: Config, s: Index, acts: seq<Action>) {
    forall n: nat :: n <= |acts| && !InsideUpdate(acts, n) ==> WellFormed(cfg, Exec(s, acts[..n]).vectors)
  }

  lemma SafeSettled(cfg: Config, s: Index, acts: seq<Action>)
    requires WellFormed(cfg, s.vectors) && SafeActs(cfg, s, acts)
    ensures Settled(cfg, s, acts)
  {
    hide SafeActs, WellFormed, Exec;
    forall n: nat | n <= |acts| ensures WellFormed(cfg, Exec(s, acts[..n]).vectors) {
      assert acts == acts[..n] + acts[n..];
      SafeAppend(cfg, s, acts[..n], acts[n..]);
      SafeKeepsWellFormed(cfg, s, acts[..n]);
    }
  }

  lemma SettledAppend(cfg: Config, s: Index, a: seq<Action>, b: seq<Action>)
    requires Settled(cfg, s, a) && Settled(cfg, Exec(s, a), b)
    requires b != [] ==> !b[0].SetMetadata?
    ensures Settled(cfg, s, a + b)
  {
    hide WellFormed, Exec, InsideUpdate;
    forall n: nat | n <= |a + b| && !InsideUpdate(a + b, n) ensures WellFormed(cfg, Exec(s, (a + b)[..n]).vectors) {
      if n <= |a| {
        StopInFirst(a, b, n);
      } else {
        StopInSecond(a, b, n - |a|);
        ExecAppend(s, a, b[..n - |a|]);
      }
    }
  }

  lemma StopInFirst(a: seq<Action>, b: seq<Action>, n: nat)
    requires n <= |a| && !InsideUpdate(a + b, n)
    ensures !InsideUpdate(a, n) && (a + b)[..n] == a[..n]
  {}

  lemma StopInSecond(a: seq<Action>, b: seq<Action>, k: nat)
    requires 0 < k <= |b| && !InsideUpdate(a + b, |a| + k)
    ensures !InsideUpdate(b, k) && (a + b)[..|a| + k] == a + b[..k]
  {}

  // The two ends of a block of metadata updates.
  lemma UpdatesSettled(cfg: Config, s: Index, acts: seq<Action>)
    requires forall i :: 0 <= i < |acts| ==> acts[i].SetMetadata?
    requires WellFormed(cfg, s.vectors) && WellFormed(cfg, Exec(s, acts).vectors)
    ensures Settled(cfg, s, acts)
  {
    hide WellFormed, Exec;
    ExecNothing(s);
    forall n: nat | n <= |acts| && !InsideUpdate(acts, n) ensures WellFormed(cfg, Exec(s, acts[..n]).vectors) {
      assert n == 0 || n == |acts|;
      assert acts[..0] == [] && acts[..|acts|] == acts;
    }
  }

  lemma UpdatedWellFormed(cfg: Config, force: bool, s: Index, batch: seq<SourceRow>, t: Index)
    requires WellFormed(cfg, s.vectors) && t.vectors == s.vectors
    ensures var verdict := (i: Id) => VerdictOn(cfg, force, s.vectors, batch, i);
            WellFormed(cfg, Exec(t, MetadataWrites(cfg, verdict, batch)).vectors)
  {
    hide Exec, Genuine, Classify, MetadataWrites, Latest;
    var verdict := (i: Id) => VerdictOn(cfg, force, s.vectors, batch, i);
    var u := Exec(t, MetadataWrites(cfg, verdict, batch));
    forall id | id in u.vectors ensures Genuine(cfg, u.vectors[id]) {
      MetadataEffect(cfg, verdict, batch, t, id);
      if verdict(id).MetadataOnly? && id in Latest(batch) { ClassifySound'(cfg, s, batch, id); }
    }
  }

  lemma BatchSettled(cfg: Config, force: bool, s: Index, batch: seq<SourceRow>)
    requires WellFormed(cfg, s.vectors)
    ensures var acts := BatchActions(cfg, force, s, batch);
            Settled(cfg, s, acts) && (acts != [] ==> !acts[0].SetMetadata?)
  {
    hide SafeActs, Exec, Genuine, Classify, MetadataWrites, VectorWrites, LexicalWrites, Latest, Settled, WellFormed;
    var verdict := (i: Id) => VerdictOn(cfg, force, s.vectors, batch, i);
    var meta, vecs, lex := MetadataWrites(cfg, verdict, batch), VectorWrites(cfg, verdict, batch), LexicalWrites(batch);
    var raise: seq<Action> := if meta != [] || vecs != [] then [RaiseGate] else [];
    var s1 := Exec(s, raise);
    RaiseEffect(s, raise);
    WritesKinds(cfg, verdict, batch);
    HarmlessSafe(cfg, s, raise);
    SafeSettled(cfg, s, raise);
    UpdatedWellFormed(cfg, force, s, batch, s1);
    UpdatesSettled(cfg, s1, meta);
    var s2 := Exec(s1, meta);
    VectorWritesSafe(cfg, verdict, batch, s2);
    HarmlessSafe(cfg, Exec(s2, vecs), lex);
    SafeAppend(cfg, s2, vecs, lex);
    SafeSettled(cfg, s2, vecs + lex);
    SettledAppend(cfg, s1, meta, vecs + lex);
    FirstIsSafe(cfg, s, raise, meta, vecs + lex);
    assert raise + meta + vecs + lex == raise + (meta + (vecs + lex));
  }

  lemma FirstIsSafe(cfg: Config, s: Index, raise: seq<Action>, meta: seq<Action>, rest: seq<Action>)
    requires raise == [RaiseGate] || (raise == [] && meta == [])
    requires Settled(cfg, s, raise) && Settled(cfg, Exec(s, raise), meta + rest) && WellFormed(cfg, s.vectors)
    ensures Settled(cfg, s, raise + (meta + rest))
  {
    hide WellFormed, Exec;
    var acts := meta + rest;
    ExecNothing(s);
    if raise == [] {
      assert raise + acts == acts;
    } else {
      forall n: nat | n <= |raise + acts| && !InsideUpdate(raise + acts, n)
        ensures WellFormed(cfg, Exec(s, (raise + acts)[..n]).vectors)
      {
        if n == 0 {
          assert (raise + acts)[..0] == [];
        } else {
          assert (raise + acts)[..n] == raise + acts[..n - 1];
          assert InsideUpdate(acts, n - 1) ==> InsideUpdate(raise + acts, n);
          ExecAppend(s, raise, acts[..n - 1]);
        }
      }
    }
  }

  lemma {:induction false} BatchesSettled(cfg: Config, force: bool, s: Index, batches: seq<seq<SourceRow>>)
    requires WellFormed(cfg, s.vectors)
    ensures var acts := AllBatches(cfg, force, s, batches);
            Settled(cfg, s, acts) && (acts != [] ==> !acts[0].SetMetadata?)
    decreases |batches|
  {
    hide BatchActions, Exec, WellFormed, Settled;
    if batches == [] {
      SafeOne(cfg, s, RaiseGate);
      SafeSettled(cfg, s, []);
    } else {
      var acts := BatchActions(cfg, force, s, batches[0]);
      BatchSettled(cfg, force, s, batches[0]);
      SettledEnd(cfg, s, acts);
      BatchesSettled(cfg, force, Exec(s, acts), batches[1..]);
      SettledAppend(cfg, s, acts, AllBatches(cfg, force, Exec(s, acts), batches[1..]));
    }
  }

  lemma SettledEnd(cfg: Config, s: Index, acts: seq<Action>)
    requires Settled(cfg, s, acts)
    ensures WellFormed(cfg, Exec(s, acts).vectors)
  {
    assert acts[..|acts|] == acts && !InsideUpdate(acts, |acts|);
  }

  // Wherever a run stops, the index is well formed again: always for a forced run and for rows of one
  // id that share their text, and otherwise unless it stops between two metadata updates of a batch.
  lemma CrashKeepsWellFormed(cfg: Config, opts: Options, s: Index, batches: seq<seq<SourceRow>>, n: nat)
    requires WellFormed(cfg, s.vectors) && n <= |RunActions(cfg, opts, s, batches)|
    requires opts.force || AllConsistent(batches) || !InsideUpdate(RunActions(cfg, opts, s, batches), n)
    ensures WellFormed(cfg, Exec(s, RunActions(cfg, opts, s, batches)[..n]).vectors)
  {
    hide SafeActs, AllBatches, Exec, WellFormed, Flatten, OfSource, AllConsistent, Settled, InsideUpdate;
    var first := ReplaceActions(cfg, opts.replace, s);
    var cleared := Exec(s, first);
    ClearEffect(cfg, opts.replace, s);
    ClearedWellFormed(cfg, opts.replace, s);
    var writes := AllBatches(cfg, opts.force, cleared, batches);
    var written := Exec(cleared, writes);
    var last := ReconcileActions(cfg, opts.reconcile, written, Ids(Flatten(batches))) + [LowerGate];
    var acts := RunActions(cfg, opts, s, batches);
    assert acts == first + writes + last && acts == acts[..n] + acts[n..];
    ExecAppend(s, first, writes);
    HarmlessSafe(cfg, s, first);
    HarmlessSafe(cfg, written, last);
    if opts.force || AllConsistent(batches) {
      BatchesSafe(cfg, opts.force, cleared, batches);
      SafeAppend(cfg, s, first, writes);
      SafeAppend(cfg, s, first + writes, last);
      SafeAppend(cfg, s, acts[..n], acts[n..]);
      SafeKeepsWellFormed(cfg, s, acts[..n]);
    } else {
      SafeSettled(cfg, s, first);
      BatchesSettled(cfg, opts.force, cleared, batches);
      SettledEnd(cfg, cleared, writes);
      SettledAppend(cfg, s, first, writes);
      SafeSettled(cfg, written, last);
      SettledAppend(cfg, s, first + writes, last);
      SettledAt(cfg, s, acts, n);
    }
  }

  lemma SettledAt(cfg: Config, s: Index, acts: seq<Action>, n: nat)
    requires Settled(cfg, s, acts) && n <= |acts| && !InsideUpdate(acts, n)
    ensures WellFormed(cfg, Exec(s, acts[..n]).vectors)
  {}

  // ---- The tear: a hash of one text beside another text ----

  // The last row `y` of an id as it was stored before, with other metadata.
  function Before(cfg: Config, y: SourceRow, other: Fields): Index {
    Index(map[y.id := Prepared(cfg, y.(fields := other))], map[], false)
  }

  // The metadata with one field set to something else.
  function OtherFields(fields: Fields): Fields {
    fields["changed" := if "changed" in fields && fields["changed"] == Flag(true) then Flag(false) else Flag(true)]
  }

  lemma OtherFieldsDiffer(fields: Fields)
    ensures MetadataHash(OtherFields(fields)) != MetadataHash(fields)
  {
    var before, after := Canonical(fields), Canonical(OtherFields(fields));
    assert "changed" in after && after["changed"] == OtherFields(fields)["changed"];
    if "changed" in fields {
      assert "changed" in before && before["changed"] != after["changed"];
    } else {
      assert "changed" !in before;
    }
  }

  lemma {:induction false} MetadataWritesPrefix(cfg: Config, verdict: Id -> Verdict, rows: seq<SourceRow>, k: nat)
    requires k <= |rows|
    ensures MetadataWrites(cfg, verdict, rows[..k]) <= MetadataWrites(cfg, verdict, rows)
    decreases |rows| - k
  {
    if k < |rows| {
      assert rows[..k + 1][..k] == rows[..k];
      MetadataWritesPrefix(cfg, verdict, rows, k + 1);
    } else {
      assert rows[..k] == rows;
    }
  }

  lemma TornState(cfg: Config, batch: seq<SourceRow>, k: nat, y: SourceRow)
    requires k < |batch| && batch[k].id == y.id && batch[k].document != y.document
    requires y.id in Latest(batch) && Latest(batch)[y.id] == y
    ensures var s := Before(cfg, y, OtherFields(y.fields));
            WellFormed(cfg, s.vectors)
            && exists n :: 0 <= n <= |BatchActions(cfg, false, s, batch)|
                           && !WellFormed(cfg, Exec(s, BatchActions(cfg, false, s, batch)[..n]).vectors)
  {
    hide Exec, MetadataWrites, VectorWrites, LexicalWrites, Latest, OtherFields;
    var s, x := Before(cfg, y, OtherFields(y.fields)), batch[k];
    var verdict := (i: Id) => VerdictOn(cfg, false, s.vectors, batch, i);
    OtherFieldsDiffer(y.fields);
    assert verdict(y.id).MetadataOnly?;
    var part, meta := batch[..k + 1], MetadataWrites(cfg, verdict, batch);
    MetadataWritesPrefix(cfg, verdict, batch, k + 1);
    var done := MetadataWrites(cfg, verdict, part);
    LatestOfLast(part);
    LastIsWritten(cfg, verdict, part);
    var acts := BatchActions(cfg, false, s, batch);
    var n := 1 + |done|;
    assert acts[..n] == [RaiseGate] + done;
    ExecAppend(s, [RaiseGate], done);
    RaiseEffect(s, [RaiseGate]);
    MetadataEffect(cfg, verdict, part, Exec(s, [RaiseGate]), y.id);
    var torn := Exec(s, acts[..n]);
    assert torn.vectors[y.id].metadata == PreparedMetadata(cfg, x) && torn.vectors[y.id].document == y.document;
    assert !Genuine(cfg, torn.vectors[y.id]);
  }

  lemma LatestOfLast(rows: seq<SourceRow>)
    requires rows != []
    ensures var last := rows[|rows| - 1]; last.id in Latest(rows) && Latest(rows)[last.id] == last
  {}

  lemma LastIsWritten(cfg: Config, verdict: Id -> Verdict, rows: seq<SourceRow>)
    requires rows != [] && verdict(rows[|rows| - 1].id).MetadataOnly?
    ensures MetadataWrites(cfg, verdict, rows) != []
  {}

  // Every batch in which two rows of one id differ in their text can tear.
  lemma TornDuplicate(cfg: Config, batch: seq<SourceRow>)
    requires !Consistent(batch)
    ensures exists s: Index, n :: TearsAt(cfg, batch, s, n)
  {
    hide Exec, BatchActions, Latest, WellFormed;
    var i, j :| 0 <= i < |batch| && 0 <= j < |batch| && batch[i].id == batch[j].id && batch[i].document != batch[j].document;
    LatestIds(batch);
    assert batch[i].id in Ids(batch);
    var y := Latest(batch)[batch[i].id];
    var k := if batch[i].document != y.document then i else j;
    TornState(cfg, batch, k, y);
    var s := Before(cfg, y, OtherFields(y.fields));
    var n :| 0 <= n <= |BatchActions(cfg, false, s, batch)|
             && !WellFormed(cfg, Exec(s, BatchActions(cfg, false, s, batch)[..n]).vectors);
    assert TearsAt(cfg, batch, s, n);
  }

  // Stopped after `n` actions, the batch turns a well-formed index into one that is not.
  ghost predicate TearsAt(cfg: Config, batch: seq<SourceRow>, s: Index, n: int) {
    && WellFormed(cfg, s.vectors) && 0 <= n <= |BatchActions(cfg, false, s, batch)|
    && !WellFormed(cfg, Exec(s, BatchActions(cfg, false, s, batch)[..n]).vectors)
  }

  // A batch survives every stop from every well-formed index exactly when rows that share an id
  // share their text.
  lemma SurvivesStopsIff(cfg: Config, batch: seq<SourceRow>)
    ensures Consistent(batch) <==> !exists s: Index, n :: TearsAt(cfg, batch, s, n)
  {
    hide Exec, BatchActions, WellFormed, SafeActs;
    if Consistent(batch) {
      forall s: Index, n: int | WellFormed(cfg, s.vectors) && 0 <= n <= |BatchActions(cfg, false, s, batch)|
        ensures WellFormed(cfg, Exec(s, BatchActions(cfg, false, s, batch)[..n]).vectors)
      {
        var acts := BatchActions(cfg, false, s, batch);
        BatchSafe(cfg, false, s, batch);
        assert acts == acts[..n] + acts[n..];
        SafeAppend(cfg, s, acts[..n], acts[n..]);
        SafeKeepsWellFormed(cfg, s, acts[..n]);
      }
    } else {
      TornDuplicate(cfg, batch);
    }
  }

  // ================ Counts ================

  function CurrentRows(verdict: Id -> Verdict, rows: seq<SourceRow>): seq<Id> {
    if rows == [] then []
    else
      var last := rows[|rows| - 1];
      CurrentRows(verdict, rows[..|rows| - 1]) + if verdict(last.id).Current? then [last.id] else []
  }

  // The current_ids set of a batch.
  function CurrentIds(verdict: Id -> Verdict, rows: seq<SourceRow>): set<Id> {
    set id | id in CurrentRows(verdict, rows)
  }

  ghost predicate NoRepeat(ids: seq<Id>) { forall i, j :: 0 <= i < j < |ids| ==> ids[i] != ids[j] }

  lemma {:induction false} SetSize(ids: seq<Id>)
    ensures |set id | id in ids| <= |ids|
    ensures |set id | id in ids| == |ids| <==> NoRepeat(ids)
  {
    if ids != [] {
      var front, last := ids[..|ids| - 1], ids[|ids| - 1];
      SetSize(front);
      assert ids == front + [last];
      var small, all := set id | id in front, set id | id in ids;
      assert all == small + {last};
      if last in front {
        assert all == small;
        var i :| 0 <= i < |front| && front[i] == last;
        assert ids[i] == ids[|ids| - 1];
      } else {
        assert |all| == |small| + 1;
      }
    }
  }

  lemma {:induction false} RowsPartition(cfg: Config, verdict: Id -> Verdict, rows: seq<SourceRow>)
    ensures |VectorWrites(cfg, verdict, rows)| + |MetadataWrites(cfg, verdict, rows)| + |CurrentRows(verdict, rows)|
         == |rows|
  {
    if rows != [] { RowsPartition(cfg, verdict, rows[..|rows| - 1]); }
  }

  // indexed + metadata_updated + skipped_current = processed, exactly when no current id repeats.
  lemma CountsAddUp(cfg: Config, verdict: Id -> Verdict, batch: seq<SourceRow>)
    ensures var total := |VectorWrites(cfg, verdict, batch)| + |MetadataWrites(cfg, verdict, batch)|
                         + |CurrentIds(verdict, batch)|;
            total <= |batch| && (total == |batch| <==> NoRepeat(CurrentRows(verdict, batch)))
  {
    RowsPartition(cfg, verdict, batch);
    SetSize(CurrentRows(verdict, batch));
  }

  // ---- The totals of a run ----

  datatype Tally = Tally(indexed: nat, metadataUpdated: nat, skippedCurrent: nat)

  function Plus(a: Tally, b: Tally): Tally {
    Tally(a.indexed + b.indexed, a.metadataUpdated + b.metadataUpdated, a.skippedCurrent + b.skippedCurrent)
  }

  function Total(a: Tally): nat { a.indexed + a.metadataUpdated + a.skippedCurrent }

  function BatchTally(cfg: Config, force: bool, s: Index, batch: seq<SourceRow>): Tally {
    var verdict := id => VerdictOn(cfg, force, s.vectors, batch, id);
    Tally(|VectorWrites(cfg, verdict, batch)|, |MetadataWrites(cfg, verdict, batch)|, |CurrentIds(verdict, batch)|)
  }

  function RunTally(cfg: Config, force: bool, s: Index, batches: seq<seq<SourceRow>>): Tally
    decreases |batches|
  {
    if batches == [] then Tally(0, 0, 0)
    else
      Plus(BatchTally(cfg, force, s, batches[0]),
           RunTally(cfg, force, Exec(s, BatchActions(cfg, force, s, batches[0])), batches[1..]))
  }

  // No row that is current when its batch is compared has another row of its id in that batch.
  ghost predicate CurrentOnce(cfg: Config, force: bool, s: Index, batches: seq<seq<SourceRow>>)
    decreases |batches|
  {
    batches == [] ||
      (&& NoRepeat(CurrentRows(id => VerdictOn(cfg, force, s.vectors, batches[0], id), batches[0]))
       && CurrentOnce(cfg, force, Exec(s, BatchActions(cfg, force, s, batches[0])), batches[1..]))
  }

  // The totals of a run never exceed the rows processed, and account for every one of them exactly
  // when no current id repeats inside a batch.
  lemma {:induction false} RunCountsAddUp(cfg: Config, force: bool, s: Index, batches: seq<seq<SourceRow>>)
    ensures var total := Total(RunTally(cfg, force, s, batches));
            && total <= |Flatten(batches)|
            && (total == |Flatten(batches)| <==> CurrentOnce(cfg, force, s, batches))
    decreases |batches|
  {
    hide VerdictOn, BatchActions, Exec, VectorWrites, MetadataWrites, CurrentRows, NoRepeat;
    if batches != [] {
      CountsAddUp(cfg, id => VerdictOn(cfg, force, s.vectors, batches[0], id), batches[0]);
      RunCountsAddUp(cfg, force, Exec(s, BatchActions(cfg, force, s, batches[0])), batches[1..]);
    }
  }
}
