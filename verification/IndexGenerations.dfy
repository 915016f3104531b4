// The slot manifest of src/storage/index_generations.py.
module IndexGenerations {

  import opened Wrappers

  datatype Slot = A | B {
    function Other(): Slot { if A? then B else A }
  }

  datatype Status = Empty | Active | Standby | Ready

  // A generation name is None until the slot is first filled.
  datatype SlotState = SlotState(generation: Option<string>, status: Status)

  datatype Manifest = Manifest(active: Slot, previous: Option<Slot>, a: SlotState, b: SlotState) {
    function At(slot: Slot): SlotState { if slot.A? then a else b }

    function With(slot: Slot, state: SlotState): Manifest {
      if slot.A? then this.(a := state) else this.(b := state)
    }

    // The generation a service built on `slot` is labelled with.
    function Label(slot: Slot): string {
      match At(slot).generation
      case Some(g) => g
      case None => if slot.A? then "uninitialized-a" else "uninitialized-b"
    }
  }

  function DefaultState(): Manifest {
    Manifest(A, None, SlotState(Some("legacy-a"), Active), SlotState(None, Empty))
  }

  function RecordCandidateReady(m: Manifest, slot: Slot, generation: string): Result<Manifest> {
    if slot == m.active then Error("Cannot mark the active index slot as a candidate.")
    else Ok(m.With(slot, SlotState(Some(generation), Ready)))
  }

  function PromoteCandidate(m: Manifest, slot: Slot, generation: string): Result<Manifest> {
    if slot == m.active then Error("Candidate slot is already active.")
    else if m.At(slot).status != Ready then Error("Candidate index generation has not passed validation.")
    else if m.At(slot).generation != Some(generation) then Error("Candidate generation changed before promotion.")
    else Ok(m.(active := slot, previous := Some(m.active))
             .With(slot, m.At(slot).(status := Active))
             .With(m.active, m.At(m.active).(status := Standby)))
  }

  function RestoreActiveSlot(m: Manifest, slot: Slot): Manifest {
    var pointed := m.(active := slot, previous := Some(m.active))
                    .With(slot, m.At(slot).(status := Active));
    if m.active == slot then pointed
    else pointed.With(m.active, pointed.At(m.active).(status := Ready))
  }

  // Exactly one slot is marked active, it is the one pointed at, and the rollback target is
  // never the serving slot.
  predicate Coherent(m: Manifest) {
    && m.At(m.active).status == Active && m.At(m.active.Other()).status != Active
    && m.previous != Some(m.active)
  }

  lemma DefaultIsCoherent()
    ensures Coherent(DefaultState())
  {}

  lemma OperationsKeepCoherence(m: Manifest, slot: Slot, generation: string)
    requires Coherent(m)
    ensures var r := RecordCandidateReady(m, slot, generation);
            (r.Ok? <==> slot != m.active)
            && (r.Ok? ==> Coherent(r.value) && r.value.active == m.active && r.value.previous == m.previous
                          && r.value.At(m.active) == m.At(m.active) && r.value.At(slot) == SlotState(Some(generation), Ready))
    ensures var r := PromoteCandidate(m, slot, generation);
            (r.Ok? <==> slot != m.active && m.At(slot) == SlotState(Some(generation), Ready))
            && (r.Ok? ==> Coherent(r.value) && r.value.active == slot && r.value.previous == Some(m.active)
                          && r.value.Label(slot) == generation && r.value.Label(m.active) == m.Label(m.active)
                          && r.value.At(m.active).status == Standby)
    ensures Coherent(RestoreActiveSlot(m, slot)) <==> slot != m.active
    ensures RestoreActiveSlot(m, slot).active == slot && RestoreActiveSlot(m, slot).previous == Some(m.active)
    ensures forall x: Slot :: RestoreActiveSlot(m, slot).Label(x) == m.Label(x)
  {
    assert RestoreActiveSlot(m, m.active).previous == Some(m.active);
  }

  // A promotion that is rolled back leaves the pool where it was and can be repeated as it is.
  lemma PromoteAgain(m: Manifest, slot: Slot, generation: string)
    requires Coherent(m) && PromoteCandidate(m, slot, generation).Ok?
    ensures var promoted := PromoteCandidate(m, slot, generation).value;
            var back := RestoreActiveSlot(promoted, promoted.previous.value);
            && back.active == m.active && (forall x: Slot :: back.At(x) == m.At(x)) && back.previous == Some(slot)
            && PromoteCandidate(back, slot, generation) == Ok(promoted)
  {}

  // Recording any number of candidates leaves both pointers and the serving label alone.
  function RecordAll(m: Manifest, names: seq<string>): Manifest
    decreases |names|
  {
    if names == [] then m
    else match RecordCandidateReady(m, m.active.Other(), names[0])
      case Ok(n) => RecordAll(n, names[1..])
      case Error(_) => m
  }

  lemma {:induction false} RecordsKeepPointers(m: Manifest, names: seq<string>)
    ensures var n := RecordAll(m, names);
            n.active == m.active && n.previous == m.previous && n.At(m.active) == m.At(m.active)
    decreases |names|
  {
    if names != [] {
      RecordsKeepPointers(RecordCandidateReady(m, m.active.Other(), names[0]).value, names[1..]);
    }
  }

  // Two rollbacks in a row restore the active pointer, whatever candidates are recorded between.
  lemma TwoRollbacks(m: Manifest, names: seq<string>)
    requires m.previous.Some? && m.previous.value != m.active
    ensures var once := RecordAll(RestoreActiveSlot(m, m.previous.value), names);
            once.previous == Some(m.active)
            && RestoreActiveSlot(once, once.previous.value).active == m.active
            && RestoreActiveSlot(once, once.previous.value).previous == m.previous
  {
    RecordsKeepPointers(RestoreActiveSlot(m, m.previous.value), names);
  }
}
