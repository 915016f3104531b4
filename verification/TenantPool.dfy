// TenantServicePool of src/api/tenants.py over the slot manifests: every lock section of get,
// reload, activate, rollback and close, and every start and end of a search, is one step.
module TenantPool {
  import opened IndexGenerations
  import opened Wrappers

  const GRACE: int := 300

  // `id` identifies the service object; slot and generation are its labels.
  datatype Service = Service(id: nat, company: string, slot: Slot, generation: string)

  // What a caller does with the service that get returned at time `at`.
  datatype Phase = Waiting | Searching | Done
  datatype Lease = Lease(service: nat, at: int, phase: Phase)

  // The operation that holds the reload lock, with what it read before building its candidate.
  datatype Operation = Reloading | Activating | RollingBack
  datatype Pending = Nothing | Pending(op: Operation, company: string, slot: Slot, generation: string)

  datatype Retired = Retired(notBefore: int, service: Service)

  datatype World = World(
    manifests: map<string, Manifest>,
    live: seq<(string, Service)>,   // the OrderedDict, least recently used first
    retired: seq<Retired>,
    swept: seq<seq<Service>>,       // per get: what it collected and has still to close
    closed: seq<Service>,           // closed by the get that collected them
    lost: seq<Service>,             // collected by a get that raised before closing them
    shut: seq<seq<Service>>,        // per close(): what it took over and has still to close
    stopped: seq<Service>,          // closed by close()
    abandoned: seq<Service>,        // taken over by a close() that raised before closing them
    leases: seq<Lease>,
    pending: Pending,
    now: int,
    maxServices: Positive,
    issued: seq<Service>)           // every service ever stored, in order

  datatype Event =
    | Tick(seconds: nat)
    | Get(company: string, builds: bool)
    | CloseSwept(sweep: nat)
    | CloseFails(sweep: nat)
    | StartSearch(lease: nat)
    | FinishSearch(lease: nat)
    | BeginReload(company: string)
    | BeginActivate(company: string, slot: Slot, generation: string)
    | BeginRollback(company: string)
    | CandidateFails
    | Swap
    | CandidateRecorded(company: string, slot: Slot, generation: string)
    | ClosePool
    | CloseShut(call: nat)
    | ShutFails(call: nat)

  // ---- The ordered dictionary ----

  function Lookup(live: seq<(string, Service)>, company: string): Option<Service> {
    if live == [] then None
    else if live[0].0 == company then Some(live[0].1)
    else Lookup(live[1..], company)
  }

  function Without(live: seq<(string, Service)>, company: string): seq<(string, Service)> {
    if live == [] then []
    else if live[0].0 == company then Without(live[1..], company)
    else [live[0]] + Without(live[1..], company)
  }

  function Services(live: seq<(string, Service)>): seq<Service> {
    if live == [] then [] else [live[0].1] + Services(live[1..])
  }

  function Unretired(retired: seq<Retired>): seq<Service> {
    if retired == [] then [] else [retired[0].service] + Unretired(retired[1..])
  }

  // ---- _retire_locked and _collect_retired_locked ----

  predicate Busy(w: World, id: nat) {
    exists i :: 0 <= i < |w.leases| && w.leases[i].service == id && w.leases[i].phase == Searching
  }

  predicate Collectable(w: World, r: Retired) { r.notBefore <= w.now && !Busy(w, r.service.id) }

  function Collected(w: World, retired: seq<Retired>): seq<Service> {
    if retired == [] then []
    else (if Collectable(w, retired[0]) then [retired[0].service] else []) + Collected(w, retired[1..])
  }

  function Retained(w: World, retired: seq<Retired>): seq<Retired> {
    if retired == [] then []
    else (if Collectable(w, retired[0]) then [] else [retired[0]]) + Retained(w, retired[1..])
  }

  function RetireAll(services: seq<Service>, now: int): seq<Retired> {
    if services == [] then []
    else [Retired(now + GRACE, services[0])] + RetireAll(services[1..], now)
  }

  // ---- get ----

  function Excess(w: World): nat {
    if |w.live| + 1 > w.maxServices then |w.live| + 1 - w.maxServices else 0
  }

  function GetStep(w: World, company: string, builds: bool): World {
    var ready := Collected(w, w.retired);
    var kept := w.(retired := Retained(w, w.retired));
    match Lookup(w.live, company)
    case Some(service) =>
      kept.(live := Without(w.live, company) + [(company, service)],
            swept := w.swept + [ready],
            leases := w.leases + [Lease(service.id, w.now, Waiting)])
    case None =>
      if !builds || company !in w.manifests then kept.(lost := w.lost + ready)
      else
        var m := w.manifests[company];
        var service := Service(|w.issued|, company, m.active, m.Label(m.active));
        var out := Excess(w);
        kept.(live := w.live[out..] + [(company, service)],
              retired := kept.retired + RetireAll(Services(w.live[..out]), w.now),
              swept := w.swept + [ready],
              leases := w.leases + [Lease(service.id, w.now, Waiting)],
              issued := w.issued + [service])
  }

  // ---- reload, activate, rollback ----

  function Begin(w: World, e: Event): World
    requires e.BeginReload? || e.BeginActivate? || e.BeginRollback?
  {
    if w.pending != Nothing || e.company !in w.manifests then w
    else
      var m := w.manifests[e.company];
      match e
      case BeginReload(company) =>
        var current := Lookup(w.live, company);
        if current.Some? && current.value.generation == m.Label(m.active) && current.value.slot == m.active
        then w
        else w.(pending := Pending(Reloading, company, m.active, m.Label(m.active)))
      case BeginActivate(company, slot, generation) =>
        if slot == m.active || m.At(slot).status != Ready || m.At(slot).generation != Some(generation)
        then w
        else w.(pending := Pending(Activating, company, slot, generation))
      case BeginRollback(company) =>
        if m.previous.None? || m.previous.value == m.active || m.At(m.previous.value).generation.None?
        then w
        else w.(pending := Pending(RollingBack, company, m.previous.value,
                                   m.At(m.previous.value).generation.value))
  }

  // The manifest write of the swap section; Error when promotion refuses.
  function SwapManifest(m: Manifest, p: Pending): Result<Manifest>
    requires p.Pending?
  {
    match p.op
    case Reloading => Ok(m)
    case Activating => PromoteCandidate(m, p.slot, p.generation)
    case RollingBack => Ok(RestoreActiveSlot(m, p.slot))
  }

  function SwapStep(w: World): World {
    if w.pending == Nothing || w.pending.company !in w.manifests then w
    else
      var p := w.pending;
      match SwapManifest(w.manifests[p.company], p)
      case Error(_) => w.(pending := Nothing)
      case Ok(m) =>
        var service := Service(|w.issued|, p.company, p.slot, p.generation);
        var previous := Lookup(w.live, p.company);
        w.(pending := Nothing,
           manifests := w.manifests[p.company := m],
           live := Without(w.live, p.company) + [(p.company, service)],
           retired := w.retired + if previous.Some? then RetireAll([previous.value], w.now) else [],
           issued := w.issued + [service])
  }

  // The loop that closes list i has a next service.
  predicate Pendent(lists: seq<seq<Service>>, i: nat) { i < |lists| && lists[i] != [] }

  // A close that raises ends its loop: the services after it are never closed.
  function Step(w: World, e: Event): World {
    match e
    case Tick(seconds) => w.(now := w.now + seconds)
    case Get(company, builds) => GetStep(w, company, builds)
    case CloseSwept(i) =>
      if !Pendent(w.swept, i) then w
      else w.(swept := w.swept[i := w.swept[i][1..]], closed := w.closed + [w.swept[i][0]])
    case CloseFails(i) =>
      if !Pendent(w.swept, i) then w
      else w.(swept := w.swept[i := []], closed := w.closed + [w.swept[i][0]],
              lost := w.lost + w.swept[i][1..])
    case StartSearch(i) =>
      if i < |w.leases| && w.leases[i].phase == Waiting
      then w.(leases := w.leases[i := w.leases[i].(phase := Searching)]) else w
    case FinishSearch(i) =>
      if i < |w.leases| && w.leases[i].phase == Searching
      then w.(leases := w.leases[i := w.leases[i].(phase := Done)]) else w
    case BeginReload(_) => Begin(w, e)
    case BeginActivate(_, _, _) => Begin(w, e)
    case BeginRollback(_) => Begin(w, e)
    case CandidateFails => w.(pending := Nothing)
    case Swap => SwapStep(w)
    case CandidateRecorded(company, slot, generation) =>
      if company !in w.manifests then w
      else (match RecordCandidateReady(w.manifests[company], slot, generation)
            case Ok(m) => w.(manifests := w.manifests[company := m])
            case Error(_) => w)
    case ClosePool =>
      w.(live := [], retired := [], shut := w.shut + [Services(w.live) + Unretired(w.retired)])
    case CloseShut(i) =>
      if !Pendent(w.shut, i) then w
      else w.(shut := w.shut[i := w.shut[i][1..]], stopped := w.stopped + [w.shut[i][0]])
    case ShutFails(i) =>
      if !Pendent(w.shut, i) then w
      else w.(shut := w.shut[i := []], stopped := w.stopped + [w.shut[i][0]],
              abandoned := w.abandoned + w.shut[i][1..])
  }

  function Run(w: World, events: seq<Event>): World
    decreases |events|
  {
    if events == [] then w else Run(Step(w, events[0]), events[1..])
  }

  predicate Fresh(w: World) {
    && w.live == [] && w.retired == [] && w.swept == [] && w.closed == [] && w.lost == [] && w.shut == []
    && w.stopped == [] && w.abandoned == []
    && w.leases == [] && w.pending == Nothing && w.issued == []
    && forall c :: c in w.manifests ==> Coherent(w.manifests[c])
  }

  // ================ Labels: live services agree with the manifest ================

  ghost predicate Manifests(w: World) {
    && (forall c :: c in w.manifests ==> Coherent(w.manifests[c]))
    && (w.pending != Nothing && w.pending.company in w.manifests ==>
          var (p, m) := (w.pending, w.manifests[w.pending.company]);
          match p.op
          case Reloading => p.slot == m.active && p.generation == m.Label(m.active)
          case Activating => p.slot != m.active
          case RollingBack => p.slot != m.active && m.previous == Some(p.slot))
  }

  predicate Agrees(w: World, company: string, service: Service) {
    && company in w.manifests
    && service.slot == w.manifests[company].active
    && service.generation == w.manifests[company].Label(service.slot)
  }

  ghost predicate InStep(w: World) {
    forall i :: 0 <= i < |w.live| ==> Agrees(w, w.live[i].0, w.live[i].1)
  }

  // A rollback whose slot was re-recorded between its manifest read and its swap.
  predicate StaleRollback(w: World, e: Event) {
    && e.Swap? && w.pending != Nothing && w.pending.company in w.manifests
    && w.pending.op == RollingBack
    && w.manifests[w.pending.company].Label(w.pending.slot) != w.pending.generation
  }

  lemma {:induction false} LookupMember(live: seq<(string, Service)>, company: string)
    ensures var r := Lookup(live, company);
            match r
            case Some(s) => (company, s) in live
            case None => forall i :: 0 <= i < |live| ==> live[i].0 != company
  {
    if live != [] && live[0].0 != company {
      LookupMember(live[1..], company);
      if Lookup(live[1..], company).None? {
        forall i | 0 <= i < |live| ensures live[i].0 != company {
          if i > 0 { assert live[i] == live[1..][i - 1]; }
        }
      }
    }
  }

  lemma {:induction false} WithoutMembers(live: seq<(string, Service)>, company: string)
    ensures forall p :: p in Without(live, company) ==> p in live && p.0 != company
  {
    if live != [] { WithoutMembers(live[1..], company); }
  }

  lemma ManifestsStep(w: World, e: Event)
    requires Manifests(w)
    ensures Manifests(Step(w, e))
  {
    hide Manifests, GetStep, SwapStep, Begin;
    var v := Step(w, e);
    match e {
      case CandidateRecorded(c, slot, generation) => RecordManifests(w, c, slot, generation);
      case Swap => SwapManifests(w);
      case Get(c, builds) =>
        GetKeeps(w, c, builds);
        SameManifests(w, v);
      case CandidateFails => NothingPending(w);
      case _ =>
        if e.BeginReload? || e.BeginActivate? || e.BeginRollback? { BeginManifests(w, e); } else { SameManifests(w, v); }
    }
  }

  lemma SameManifests(w: World, v: World)
    requires Manifests(w) && v.manifests == w.manifests && v.pending == w.pending
    ensures Manifests(v)
  {
    hide Coherent;
  }

  lemma NothingPending(w: World)
    requires Manifests(w)
    ensures Manifests(w.(pending := Nothing))
  {
    hide Coherent;
  }

  lemma RecordManifests(w: World, c: string, slot: Slot, generation: string)
    requires Manifests(w)
    ensures Manifests(Step(w, CandidateRecorded(c, slot, generation)))
  {
    hide Coherent, RestoreActiveSlot, PromoteCandidate;
    if c in w.manifests { OperationsKeepCoherence(w.manifests[c], slot, generation); }
  }

  lemma BeginManifests(w: World, e: Event)
    requires Manifests(w) && (e.BeginReload? || e.BeginActivate? || e.BeginRollback?)
    ensures Manifests(Begin(w, e))
  {
    hide Coherent, Lookup;
  }

  lemma SwapManifests(w: World)
    requires Manifests(w)
    ensures Manifests(SwapStep(w))
  {
    hide Coherent, Lookup, Without;
    if w.pending != Nothing && w.pending.company in w.manifests {
      OperationsKeepCoherence(w.manifests[w.pending.company], w.pending.slot, w.pending.generation);
    }
  }

  lemma GetKeeps(w: World, c: string, builds: bool)
    ensures var v := GetStep(w, c, builds);
            v.manifests == w.manifests && v.pending == w.pending && v.now == w.now
            && v.closed == w.closed && v.shut == w.shut
            && v.stopped == w.stopped && v.abandoned == w.abandoned
  {}

  lemma GetInStep(w: World, c: string, builds: bool)
    requires InStep(w)
    ensures InStep(GetStep(w, c, builds))
  {
    LookupMember(w.live, c);
    WithoutMembers(w.live, c);
    var v := GetStep(w, c, builds);
    forall i | 0 <= i < |v.live| ensures Agrees(v, v.live[i].0, v.live[i].1) {
      if i < |v.live| - 1 && Lookup(w.live, c).Some? { assert v.live[i] in Without(w.live, c); }
    }
  }

  // One swap keeps the labels in step exactly when it is not a stale rollback.
  lemma SwapInStep(w: World)
    requires Manifests(w) && InStep(w)
    ensures InStep(SwapStep(w)) <==> !StaleRollback(w, Swap)
  {
    hide Coherent;
    if w.pending != Nothing && w.pending.company in w.manifests {
      var p, m := w.pending, w.manifests[w.pending.company];
      OperationsKeepCoherence(m, p.slot, p.generation);
      WithoutMembers(w.live, p.company);
      var v := SwapStep(w);
      if SwapManifest(m, p).Ok? {
        assert v.live[|v.live| - 1].1.generation == p.generation;
        forall i | 0 <= i < |v.live| - 1 ensures Agrees(v, v.live[i].0, v.live[i].1) {
          assert v.live[i] in Without(w.live, p.company);
        }
      }
    }
  }

  lemma RecordInStep(w: World, company: string, slot: Slot, generation: string)
    requires Manifests(w) && InStep(w)
    ensures InStep(Step(w, CandidateRecorded(company, slot, generation)))
  {
    hide Coherent, RestoreActiveSlot, PromoteCandidate;
    if company in w.manifests { OperationsKeepCoherence(w.manifests[company], slot, generation); }
  }

  lemma StepInStep(w: World, e: Event)
    requires Manifests(w) && InStep(w)
    ensures InStep(Step(w, e)) <==> !StaleRollback(w, e)
  {
    match e {
      case Get(c, builds) => GetInStep(w, c, builds);
      case Swap => SwapInStep(w);
      case CandidateRecorded(c, slot, generation) => RecordInStep(w, c, slot, generation);
      case _ =>
    }
  }

  predicate NoStaleRollback(w: World, events: seq<Event>)
    decreases |events|
  {
    events == [] || (!StaleRollback(w, events[0]) && NoStaleRollback(Step(w, events[0]), events[1..]))
  }

  lemma {:induction false} LabelsAgree(w: World, events: seq<Event>)
    requires Manifests(w) && InStep(w)
    ensures Manifests(Run(w, events))
    ensures NoStaleRollback(w, events) ==> InStep(Run(w, events))
    decreases |events|
  {
    hide Step, Manifests, InStep;
    if events != [] {
      ManifestsStep(w, events[0]);
      StepInStep(w, events[0]);
      if NoStaleRollback(w, events) { LabelsAgree(Step(w, events[0]), events[1..]); }
      else { ManifestsRun(Step(w, events[0]), events[1..]); }
    }
  }

  lemma {:induction false} ManifestsRun(w: World, events: seq<Event>)
    requires Manifests(w)
    ensures Manifests(Run(w, events))
    decreases |events|
  {
    hide Step, Manifests;
    if events != [] {
      ManifestsStep(w, events[0]);
      ManifestsRun(Step(w, events[0]), events[1..]);
    }
  }

  // The race itself: a rollback read generation "g1", a new candidate "g2" was recorded into the
  // slot, and the swap put a service labelled "g1" on a slot the manifest calls "g2".
  lemma StaleRollbackHappens(w: World)
    requires Fresh(w) && "acme" in w.manifests
    requires w.manifests["acme"] == Manifest(B, Some(A), SlotState(Some("g1"), Standby), SlotState(Some("g0"), Active))
    ensures var v := Run(w, [BeginRollback("acme"), CandidateRecorded("acme", A, "g2"), Swap]);
            Manifests(v) && !InStep(v)
  {
    hide Run, Step, Manifests, InStep;
    var w1 := Step(w, BeginRollback("acme"));
    var w2 := Step(w1, CandidateRecorded("acme", A, "g2"));
    assert Manifests(w) && InStep(w) by { FreshIsSound(w); }
    RollbackReads(w);
    RecordsUnderIt(w1);
    SwapIsStale(w2);
    ManifestsRun(w, [BeginRollback("acme"), CandidateRecorded("acme", A, "g2"), Swap]);
    RunThree(w, BeginRollback("acme"), CandidateRecorded("acme", A, "g2"), Swap);
  }

  lemma RunThree(w: World, a: Event, b: Event, c: Event)
    ensures Run(w, [a, b, c]) == Step(Step(Step(w, a), b), c)
  {
    hide Step;
    var v := Step(w, a);
    assert Run(w, [a, b, c]) == Run(v, [b, c]);
    assert Run(v, [b, c]) == Run(Step(v, b), [c]);
    assert Run(Step(v, b), [c]) == Run(Step(Step(v, b), c), []);
  }

  lemma RollbackReads(w: World)
    requires w.pending == Nothing && "acme" in w.manifests
    requires w.manifests["acme"] == Manifest(B, Some(A), SlotState(Some("g1"), Standby), SlotState(Some("g0"), Active))
    ensures Step(w, BeginRollback("acme")) == w.(pending := Pending(RollingBack, "acme", A, "g1"))
  {}

  lemma RecordsUnderIt(w: World)
    requires "acme" in w.manifests
    requires w.manifests["acme"] == Manifest(B, Some(A), SlotState(Some("g1"), Standby), SlotState(Some("g0"), Active))
    ensures var v := Step(w, CandidateRecorded("acme", A, "g2"));
            && v == w.(manifests := v.manifests) && "acme" in v.manifests && v.manifests["acme"].active == B
            && v.manifests["acme"].Label(A) == "g2"
  {}

  lemma SwapIsStale(w: World)
    requires w.pending == Pending(RollingBack, "acme", A, "g1") && w.live == [] && "acme" in w.manifests
    requires w.manifests["acme"].Label(A) == "g2"
    ensures !InStep(Step(w, Swap))
  {
    var v := Step(w, Swap);
    assert v.live == [("acme", Service(|w.issued|, "acme", A, "g1"))];
    assert v.manifests["acme"].Label(A) == "g2";
    assert !Agrees(v, v.live[0].0, v.live[0].1);
  }

  // ================ Custody: every stored service is in exactly one place ================

  function Join(lists: seq<seq<Service>>): seq<Service> {
    if lists == [] then [] else lists[0] + Join(lists[1..])
  }

  // Out of the pool's hands through a sweep: collected, closed, or collected and forgotten.
  function Gone(w: World): seq<Service> { Join(w.swept) + w.closed + w.lost }

  function Count(s: seq<Service>, x: Service): nat {
    if s == [] then 0 else (if s[0] == x then 1 else 0) + Count(s[1..], x)
  }

  function CountLive(live: seq<(string, Service)>, x: Service): nat {
    if live == [] then 0 else (if live[0].1 == x then 1 else 0) + CountLive(live[1..], x)
  }

  function CountRetired(retired: seq<Retired>, x: Service): nat {
    if retired == [] then 0 else (if retired[0].service == x then 1 else 0) + CountRetired(retired[1..], x)
  }

  // The number of places that hold x.
  function Places(w: World, x: Service): nat {
    CountLive(w.live, x) + CountRetired(w.retired, x)
      + Count(Join(w.swept), x) + Count(w.closed, x) + Count(w.lost, x)
      + Count(Join(w.shut), x) + Count(w.stopped, x) + Count(w.abandoned, x)
  }

  predicate Stored(w: World, x: Service) { x.id < |w.issued| && w.issued[x.id] == x }

  ghost predicate DistinctKeys(live: seq<(string, Service)>) {
    forall i, j :: 0 <= i < j < |live| ==> live[i].0 != live[j].0
  }

  ghost predicate Custody(w: World) {
    && DistinctKeys(w.live)
    && forall x: Service :: Places(w, x) == if Stored(w, x) then 1 else 0
  }

  lemma {:induction false} CountAppend(a: seq<Service>, b: seq<Service>, x: Service)
    ensures Count(a + b, x) == Count(a, x) + Count(b, x)
  {
    if a == [] { assert a + b == b; }
    else { assert (a + b)[1..] == a[1..] + b; CountAppend(a[1..], b, x); }
  }

  lemma {:induction false} JoinAdd(lists: seq<seq<Service>>, t: seq<Service>, x: Service)
    ensures Count(Join(lists + [t]), x) == Count(Join(lists), x) + Count(t, x)
  {
    if lists == [] {
      assert lists + [t] == [t] && Join([t]) == t + Join([]) == t;
    } else {
      assert (lists + [t])[1..] == lists[1..] + [t];
      JoinAdd(lists[1..], t, x);
      CountAppend(lists[0], Join(lists[1..] + [t]), x);
      CountAppend(lists[0], Join(lists[1..]), x);
    }
  }

  lemma {:induction false} JoinUpdate(lists: seq<seq<Service>>, i: nat, t: seq<Service>, x: Service)
    requires i < |lists|
    ensures Count(Join(lists[i := t]), x) + Count(lists[i], x) == Count(Join(lists), x) + Count(t, x)
  {
    var u := lists[i := t];
    CountAppend(lists[0], Join(lists[1..]), x);
    CountAppend(u[0], Join(u[1..]), x);
    if i == 0 {
      assert u[1..] == lists[1..];
    } else {
      assert u[1..] == lists[1..][i - 1 := t];
      JoinUpdate(lists[1..], i - 1, t, x);
    }
  }

  // One turn of a loop that closes list i: the head leaves it and, if its close raises, so does the rest.
  lemma HeadLeaves(lists: seq<seq<Service>>, i: nat, done: seq<Service>, dropped: seq<Service>, x: Service)
    requires Pendent(lists, i)
    ensures Count(Join(lists[i := lists[i][1..]]), x) + Count(done + [lists[i][0]], x)
         == Count(Join(lists), x) + Count(done, x)
    ensures Count(Join(lists[i := []]), x) + Count(done + [lists[i][0]], x) + Count(dropped + lists[i][1..], x)
         == Count(Join(lists), x) + Count(done, x) + Count(dropped, x)
  {
    var head, tail := lists[i][0], lists[i][1..];
    JoinUpdate(lists, i, tail, x);
    JoinUpdate(lists, i, [], x);
    CountAppend(done, [head], x);
    CountAppend(dropped, tail, x);
    assert Count([head], x) == if head == x then 1 else 0;
  }

  lemma {:induction false} CountLiveAppend(a: seq<(string, Service)>, b: seq<(string, Service)>, x: Service)
    ensures CountLive(a + b, x) == CountLive(a, x) + CountLive(b, x)
  {
    if a == [] { assert a + b == b; }
    else { assert (a + b)[1..] == a[1..] + b; CountLiveAppend(a[1..], b, x); }
  }

  lemma {:induction false} CountRetiredAppend(a: seq<Retired>, b: seq<Retired>, x: Service)
    ensures CountRetired(a + b, x) == CountRetired(a, x) + CountRetired(b, x)
  {
    if a == [] { assert a + b == b; }
    else { assert (a + b)[1..] == a[1..] + b; CountRetiredAppend(a[1..], b, x); }
  }

  lemma {:induction false} CountServices(live: seq<(string, Service)>, x: Service)
    ensures Count(Services(live), x) == CountLive(live, x)
  {
    if live != [] {
      CountServices(live[1..], x);
      assert Services(live)[1..] == Services(live[1..]);
    }
  }

  lemma {:induction false} CountUnretired(retired: seq<Retired>, x: Service)
    ensures Count(Unretired(retired), x) == CountRetired(retired, x)
  {
    if retired != [] {
      CountUnretired(retired[1..], x);
      assert Unretired(retired)[1..] == Unretired(retired[1..]);
    }
  }

  lemma {:induction false} CountRetireAll(services: seq<Service>, now: int, x: Service)
    ensures CountRetired(RetireAll(services, now), x) == Count(services, x)
  {
    if services != [] {
      CountRetireAll(services[1..], now, x);
      assert RetireAll(services, now)[1..] == RetireAll(services[1..], now);
    }
  }

  lemma {:induction false} SweepSplits(w: World, retired: seq<Retired>, x: Service)
    ensures CountRetired(retired, x)
         == Count(Collected(w, retired), x) + CountRetired(Retained(w, retired), x)
  {
    hide Collectable;
    if retired != [] {
      SweepSplits(w, retired[1..], x);
      if Collectable(w, retired[0]) {
        assert Collected(w, retired)[1..] == Collected(w, retired[1..]);
        assert Retained(w, retired) == Retained(w, retired[1..]);
      } else {
        assert Retained(w, retired)[1..] == Retained(w, retired[1..]);
        assert Collected(w, retired) == Collected(w, retired[1..]);
      }
    }
  }

  lemma {:induction false} WithoutDistinct(live: seq<(string, Service)>, company: string)
    requires DistinctKeys(live)
    ensures DistinctKeys(Without(live, company))
  {
    if live != [] {
      WithoutDistinct(live[1..], company);
      WithoutMembers(live[1..], company);
      var tail := Without(live[1..], company);
      forall j | 0 <= j < |tail| ensures tail[j].0 != live[0].0 {
        assert tail[j] in live[1..];
      }
    }
  }

  lemma {:induction false} WithoutAbsent(live: seq<(string, Service)>, company: string)
    requires forall i :: 0 <= i < |live| ==> live[i].0 != company
    ensures Without(live, company) == live
  {
    if live != [] { WithoutAbsent(live[1..], company); }
  }

  lemma {:induction false} WithoutCount(live: seq<(string, Service)>, company: string, x: Service)
    requires DistinctKeys(live)
    ensures CountLive(live, x) == CountLive(Without(live, company), x)
              + if Lookup(live, company) == Some(x) then 1 else 0
  {
    if live != [] {
      if live[0].0 == company {
        WithoutAbsent(live[1..], company);
      } else {
        WithoutCount(live[1..], company, x);
        assert Without(live, company)[1..] == Without(live[1..], company);
      }
    }
  }

  // ---- One step at a time, for one service x ----

  lemma AddLive(live: seq<(string, Service)>, p: (string, Service), x: Service)
    ensures CountLive(live + [p], x) == CountLive(live, x) + if p.1 == x then 1 else 0
  {
    CountLiveAppend(live, [p], x);
    assert CountLive([p], x) == if p.1 == x then 1 else 0;
  }

  lemma GetPlaces(w: World, company: string, builds: bool, x: Service)
    requires DistinctKeys(w.live)
    ensures var v := GetStep(w, company, builds);
            Places(v, x) == Places(w, x) + if |v.issued| > |w.issued| && v.issued[|w.issued|] == x then 1 else 0
  {
    var v := GetStep(w, company, builds);
    var ready, kept := Collected(w, w.retired), Retained(w, w.retired);
    SweepSplits(w, w.retired, x);
    JoinAdd(w.swept, ready, x);
    CountAppend(w.lost, ready, x);
    match Lookup(w.live, company) {
      case Some(service) =>
        WithoutCount(w.live, company, x);
        AddLive(Without(w.live, company), (company, service), x);
      case None =>
        var out := Excess(w);
        if |v.issued| > |w.issued| {
          AddLive(w.live[out..], v.live[|v.live| - 1], x);
          EvictCount(w, kept, out, x);
        }
    }
  }

  lemma EvictCount(w: World, kept: seq<Retired>, out: nat, x: Service)
    requires out <= |w.live|
    ensures CountLive(w.live[out..], x) + CountRetired(kept + RetireAll(Services(w.live[..out]), w.now), x)
         == CountLive(w.live, x) + CountRetired(kept, x)
  {
    assert w.live == w.live[..out] + w.live[out..];
    CountLiveAppend(w.live[..out], w.live[out..], x);
    CountServices(w.live[..out], x);
    CountRetireAll(Services(w.live[..out]), w.now, x);
    CountRetiredAppend(kept, RetireAll(Services(w.live[..out]), w.now), x);
  }

  lemma SwapPlaces(w: World, x: Service)
    requires DistinctKeys(w.live)
    ensures var v := SwapStep(w);
            Places(v, x) == Places(w, x) + if |v.issued| > |w.issued| && v.issued[|w.issued|] == x then 1 else 0
  {
    hide SwapManifest;
    var v := SwapStep(w);
    if |v.issued| > |w.issued| {
      var company := w.pending.company;
      WithoutCount(w.live, company, x);
      AddLive(Without(w.live, company), v.live[|v.live| - 1], x);
      var previous := Lookup(w.live, company);
      var out := if previous.Some? then RetireAll([previous.value], w.now) else [];
      CountRetiredAppend(w.retired, out, x);
      if previous.Some? {
        CountRetireAll([previous.value], w.now, x);
        assert Count([previous.value], x) == if previous.value == x then 1 else 0;
      }
    }
  }

  lemma OtherPlaces(w: World, e: Event, x: Service)
    requires !e.Get? && !e.Swap?
    ensures Places(Step(w, e), x) == Places(w, x) && Step(w, e).issued == w.issued
    ensures Step(w, e).live == w.live || Step(w, e).live == []
  {
    hide Places, GetStep, SwapStep, Begin, RecordCandidateReady;
    var v := Step(w, e);
    if e.CloseSwept? || e.CloseFails? {
      SweptPlaces(w, e, x);
    } else if e.CloseShut? || e.ShutFails? {
      ShutPlaces(w, e, x);
    } else if e.ClosePool? {
      ClosePlaces(w, x);
    } else {
      BeginKeepsPlaces(w, e);
      SamePlaces(w, v, x);
    }
  }

  lemma SamePlaces(w: World, v: World, x: Service)
    requires v.live == w.live && v.retired == w.retired && v.swept == w.swept && v.closed == w.closed
    requires v.lost == w.lost && v.shut == w.shut && v.stopped == w.stopped && v.abandoned == w.abandoned
    ensures Places(v, x) == Places(w, x)
  {}

  lemma SweptPlaces(w: World, e: Event, x: Service)
    requires e.CloseSwept? || e.CloseFails?
    ensures Places(Step(w, e), x) == Places(w, x)
  {
    hide Join, Count;
    if Pendent(w.swept, e.sweep) { HeadLeaves(w.swept, e.sweep, w.closed, w.lost, x); }
  }

  lemma ShutPlaces(w: World, e: Event, x: Service)
    requires e.CloseShut? || e.ShutFails?
    ensures Places(Step(w, e), x) == Places(w, x)
  {
    hide Join, Count;
    if Pendent(w.shut, e.call) { HeadLeaves(w.shut, e.call, w.stopped, w.abandoned, x); }
  }

  lemma ClosePlaces(w: World, x: Service)
    ensures Places(Step(w, ClosePool), x) == Places(w, x)
  {
    hide Join, Count;
    JoinAdd(w.shut, Services(w.live) + Unretired(w.retired), x);
    CountAppend(Services(w.live), Unretired(w.retired), x);
    CountServices(w.live, x);
    CountUnretired(w.retired, x);
  }

  lemma BeginKeepsPlaces(w: World, e: Event)
    ensures e.BeginReload? || e.BeginActivate? || e.BeginRollback? ==>
              Begin(w, e) == w || Begin(w, e) == w.(pending := Begin(w, e).pending)
  {}

  // Moving a company to the end keeps the keys distinct.
  lemma RefreshedKeys(live: seq<(string, Service)>, company: string, service: Service)
    requires DistinctKeys(live)
    ensures DistinctKeys(Without(live, company) + [(company, service)])
  {
    WithoutDistinct(live, company);
    WithoutMembers(live, company);
    var rest := Without(live, company);
    forall i | 0 <= i < |rest| ensures rest[i].0 != company { assert rest[i] in rest; }
  }

  ghost predicate IssuedGrows(w: World, v: World) {
    v.issued == w.issued || exists s: Service :: s.id == |w.issued| && v.issued == w.issued + [s]
  }

  lemma GetKeys(w: World, company: string, builds: bool)
    requires DistinctKeys(w.live)
    ensures DistinctKeys(GetStep(w, company, builds).live) && IssuedGrows(w, GetStep(w, company, builds))
  {
    hide Collected, Retained, RetireAll, Without, Lookup;
    LookupMember(w.live, company);
    var found := Lookup(w.live, company);
    if found.Some? { RefreshedKeys(w.live, company, found.value); }
  }

  lemma SwapKeys(w: World)
    requires DistinctKeys(w.live)
    ensures DistinctKeys(SwapStep(w).live) && IssuedGrows(w, SwapStep(w))
  {
    hide SwapManifest, RetireAll, Without, Lookup;
    if w.pending.Pending? {
      RefreshedKeys(w.live, w.pending.company,
                    Service(|w.issued|, w.pending.company, w.pending.slot, w.pending.generation));
    }
  }

  lemma KeysStep(w: World, e: Event)
    requires DistinctKeys(w.live)
    ensures DistinctKeys(Step(w, e).live) && IssuedGrows(w, Step(w, e))
  {
    hide GetStep, SwapStep;
    match e {
      case Get(c, builds) => GetKeys(w, c, builds);
      case Swap => SwapKeys(w);
      case _ =>
    }
  }

  lemma CustodyStep(w: World, e: Event)
    requires Custody(w)
    ensures Custody(Step(w, e))
  {
    hide Places, Step;
    var v := Step(w, e);
    KeysStep(w, e);
    forall x: Service ensures Places(v, x) == if Stored(v, x) then 1 else 0 {
      assert Places(w, x) == if Stored(w, x) then 1 else 0;
      StepPlaces(w, e, x);
    }
  }

  lemma StepPlaces(w: World, e: Event, x: Service)
    requires DistinctKeys(w.live)
    ensures var v := Step(w, e);
            Places(v, x) == Places(w, x) + if |v.issued| > |w.issued| && v.issued[|w.issued|] == x then 1 else 0
  {
    hide Places, GetStep, SwapStep;
    match e {
      case Get(c, builds) => GetPlaces(w, c, builds, x);
      case Swap => SwapPlaces(w, x);
      case _ => OtherPlaces(w, e, x);
    }
  }

  // At every moment of every run, a stored service is in exactly one of: live, retired, waiting in
  // one get's or one close()'s list, closed by it, or dropped by it; nothing else is anywhere. So
  // none is closed twice.
  lemma {:induction false} CustodyAlways(w: World, events: seq<Event>)
    requires Custody(w)
    ensures Custody(Run(w, events))
    decreases |events|
  {
    hide Custody, Step;
    if events != [] {
      CustodyStep(w, events[0]);
      CustodyAlways(Step(w, events[0]), events[1..]);
    }
  }

  // ---- Lost services ----

  // Dropped without being closed.
  function Dropped(w: World): nat { |w.lost| + |w.abandoned| }

  // A get that swept the retired list and then failed to build its own service, or a close that
  // raises, in a get or in close(), with services after it in its list.
  predicate Loses(w: World, e: Event) {
    match e
    case Get(company, builds) =>
      && Lookup(w.live, company).None? && !(builds && company in w.manifests)
      && Collected(w, w.retired) != []
    case CloseFails(i) => i < |w.swept| && |w.swept[i]| > 1
    case ShutFails(i) => i < |w.shut| && |w.shut[i]| > 1
    case _ => false
  }

  predicate NeverLoses(w: World, events: seq<Event>)
    decreases |events|
  {
    events == [] || (!Loses(w, events[0]) && NeverLoses(Step(w, events[0]), events[1..]))
  }

  lemma LosesStep(w: World, e: Event)
    ensures Dropped(Step(w, e)) >= Dropped(w)
    ensures Dropped(Step(w, e)) > Dropped(w) <==> Loses(w, e)
  {
    hide Collected, Retained, SwapManifest;
  }

  // A service is dropped without ever being closed exactly when such a step occurs.
  lemma {:induction false} LostIff(w: World, events: seq<Event>)
    ensures Dropped(Run(w, events)) >= Dropped(w)
    ensures Dropped(Run(w, events)) == Dropped(w) <==> NeverLoses(w, events)
    decreases |events|
  {
    hide Step, Loses, Dropped;
    if events != [] {
      LosesStep(w, events[0]);
      LostIff(Step(w, events[0]), events[1..]);
    }
  }

  lemma FirstGet(w: World, company: string)
    requires Fresh(w) && w.maxServices == 1 && company in w.manifests
    ensures var v := Step(w, Get(company, true));
            && v.live == [(company, Service(0, company, w.manifests[company].active,
                                            w.manifests[company].Label(w.manifests[company].active)))]
            && v == w.(live := v.live, swept := [[]], issued := [v.live[0].1],
                       leases := [Lease(0, w.now, Waiting)])
  {}

  lemma EvictingGet(w: World, oldest: (string, Service), company: string)
    requires w.live == [oldest] && w.maxServices == 1
    requires Collected(w, w.retired) == [] && Retained(w, w.retired) == w.retired
    requires company in w.manifests && company != oldest.0
    ensures var v := Step(w, Get(company, true));
            && v.retired == w.retired + [Retired(w.now + GRACE, oldest.1)] && v.lost == w.lost && v.now == w.now
            && v.swept == w.swept + [[]] && v.manifests == w.manifests && v.maxServices == w.maxServices
            && |v.live| == 1 && v.live[0].0 == v.live[0].1.company == company
            && v.leases == w.leases + [Lease(|w.issued|, w.now, Waiting)]
  {
    assert Lookup(w.live[1..], company).None?;
    assert w.live[..1] == [oldest] && Services([oldest]) == [oldest.1] + Services([]);
    assert RetireAll([oldest.1], w.now) == [Retired(w.now + GRACE, oldest.1)] + RetireAll([], w.now);
  }

  lemma FirstEviction(w: World, company: string)
    requires |w.live| == 1 && w.retired == [] && w.maxServices == 1
    requires company in w.manifests && company != w.live[0].0
    ensures var v := Step(w, Get(company, true));
            && v.retired == [Retired(w.now + GRACE, w.live[0].1)] && v.lost == w.lost && v.now == w.now
            && v.swept == w.swept + [[]] && v.manifests == w.manifests && v.maxServices == w.maxServices
            && |v.live| == 1 && v.live[0].0 == v.live[0].1.company == company
            && v.leases == w.leases + [Lease(|w.issued|, w.now, Waiting)]
  {
    hide GetStep;
    EvictingGet(w, w.live[0], company);
  }

  lemma FailingSweep(w: World, r: Retired, company: string)
    requires w.retired == [r] && Collectable(w, r) && |w.live| == 1 && w.live[0].0 != company
    ensures Step(w, Get(company, false)).lost == w.lost + [r.service]
  {
    assert Lookup(w.live[1..], company).None?;
    assert Collected(w, [r]) == [r.service] + Collected(w, []);
  }

  // Such a run: "a" is evicted by "b", its grace period passes, and the get that sweeps it fails.
  lemma LostHappens(w: World)
    requires Fresh(w) && w.maxServices == 1 && "a" in w.manifests && "b" in w.manifests
    ensures Run(w, [Get("a", true), Get("b", true), Tick(300), Get("c", false)]).lost
            == [Service(0, "a", w.manifests["a"].active, w.manifests["a"].Label(w.manifests["a"].active))]
  {
    hide GetStep, Run;
    var w1 := Step(w, Get("a", true));
    var w2 := Step(w1, Get("b", true));
    var w3 := Step(w2, Tick(300));
    FirstGet(w, "a");
    FirstEviction(w1, "b");
    FailingSweep(w3, w3.retired[0], "c");
    RunFour(w, Get("a", true), Get("b", true), Tick(300), Get("c", false));
  }

  // The same by a close that raises: "a" and "b" are swept by one get, and closing "a" raises.
  lemma RaisingCloseLoses(w: World)
    requires Fresh(w) && w.maxServices == 1 && "a" in w.manifests && "b" in w.manifests && "c" in w.manifests
    ensures var v := Run(w, [Get("a", true), Get("b", true), Get("c", true), Tick(300), Get("c", true), CloseFails(3)]);
            |v.lost| == 1 && v.lost[0].company == "b"
  {
    hide GetStep, Run, Collected, Retained, Busy;
    var w3 := Step(Step(Step(w, Get("a", true)), Get("b", true)), Get("c", true));
    var w4 := Step(w3, Tick(300));
    ThreeGets(w);
    assert !Busy(w4, w4.retired[0].service.id) && !Busy(w4, w4.retired[1].service.id) by { NoneBusy(w4); }
    TwoReady(w4, w4.retired[0], w4.retired[1]);
    HitSweep(w4, "c");
    RunSix(w, Get("a", true), Get("b", true), Get("c", true), Tick(300), Get("c", true), CloseFails(3));
  }

  lemma NoneBusy(w: World)
    requires forall i :: 0 <= i < |w.leases| ==> w.leases[i].phase == Waiting
    ensures forall id :: !Busy(w, id)
  {}

  // Three companies in a pool of one: the first two wait out their grace period.
  lemma ThreeGets(w: World)
    requires Fresh(w) && w.maxServices == 1 && "a" in w.manifests && "b" in w.manifests && "c" in w.manifests
    ensures var v := Step(Step(Step(w, Get("a", true)), Get("b", true)), Get("c", true));
            && |v.retired| == 2 && v.retired[0].service.company == "a" && v.retired[1].service.company == "b"
            && v.retired[0].notBefore == v.retired[1].notBefore == v.now + GRACE
            && |v.live| == 1 && v.live[0].0 == "c" && |v.swept| == 3 && v.lost == []
            && forall i :: 0 <= i < |v.leases| ==> v.leases[i].phase == Waiting
  {
    hide GetStep, Collected, Retained, Busy;
    var w1 := Step(w, Get("a", true));
    var w2 := Step(w1, Get("b", true));
    FirstGet(w, "a");
    FirstEviction(w1, "b");
    NothingReady(w2, w2.retired[0]);
    EvictingGet(w2, w2.live[0], "c");
  }

  lemma NothingReady(w: World, r: Retired)
    requires w.retired == [r] && r.notBefore > w.now
    ensures Collected(w, w.retired) == [] && Retained(w, w.retired) == w.retired
  {}

  lemma OneReady(w: World, r: Retired)
    requires w.retired == [r] && Collectable(w, r)
    ensures Collected(w, w.retired) == [r.service]
  {
    assert Collected(w, [r]) == [r.service] + Collected(w, []);
  }

  lemma TwoReady(w: World, q: Retired, r: Retired)
    requires w.retired == [q, r] && Collectable(w, q) && Collectable(w, r)
    ensures Collected(w, w.retired) == [q.service, r.service]
  {
    assert Collected(w, [q, r]) == [q.service] + Collected(w, [r]);
    assert Collected(w, [r]) == [r.service] + Collected(w, []);
  }

  lemma HitSweep(w: World, company: string)
    requires |w.live| == 1 && w.live[0].0 == company
    ensures var v := Step(w, Get(company, true));
            && v.swept == w.swept + [Collected(w, w.retired)] && v.lost == w.lost
            && v.leases == w.leases + [Lease(w.live[0].1.id, w.now, Waiting)]
  {
    hide Collected, Retained;
  }

  lemma RunFour(w: World, a: Event, b: Event, c: Event, d: Event)
    ensures Run(w, [a, b, c, d]) == Step(Step(Step(Step(w, a), b), c), d)
  {
    hide Step;
    var v := Step(w, a);
    assert Run(w, [a, b, c, d]) == Run(v, [b, c, d]);
    assert Run(v, [b, c, d]) == Run(Step(v, b), [c, d]);
    assert Run(Step(v, b), [c, d]) == Run(Step(Step(v, b), c), [d]);
    assert Run(Step(Step(v, b), c), [d]) == Run(Step(Step(Step(v, b), c), d), []);
  }

  lemma RunFive(w: World, a: Event, b: Event, c: Event, d: Event, e: Event)
    ensures Run(w, [a, b, c, d, e]) == Step(Step(Step(Step(Step(w, a), b), c), d), e)
  {
    hide Step;
    assert [a, b, c, d, e][1..] == [b, c, d, e];
    RunFour(Step(w, a), b, c, d, e);
  }

  lemma RunSix(w: World, a: Event, b: Event, c: Event, d: Event, e: Event, f: Event)
    ensures Run(w, [a, b, c, d, e, f]) == Step(Step(Step(Step(Step(Step(w, a), b), c), d), e), f)
  {
    hide Step;
    assert [a, b, c, d, e, f][1..] == [b, c, d, e, f];
    RunFive(Step(w, a), b, c, d, e, f);
  }

  // ================ Grace: no sweep takes a service that is being searched ================

  // Every caller still waiting on service `id` got it at least the grace period before `until`.
  predicate WaitedOut(w: World, id: nat, until: int) {
    forall i :: 0 <= i < |w.leases| && w.leases[i].service == id && w.leases[i].phase == Waiting ==>
      w.leases[i].at + GRACE <= until
  }

  ghost predicate Timely(w: World) {
    && (forall i :: 0 <= i < |w.leases| ==> w.leases[i].at <= w.now)
    && (forall r :: r in w.retired ==> WaitedOut(w, r.service.id, r.notBefore))
    && (forall s :: s in Gone(w) ==> WaitedOut(w, s.id, w.now) && !Busy(w, s.id))
  }

  // Callers start their search within the grace period after get returned.
  predicate Punctual(w: World, e: Event) {
    e.StartSearch? && e.lease < |w.leases| && w.leases[e.lease].phase == Waiting ==>
      w.now < w.leases[e.lease].at + GRACE
  }

  predicate AllPunctual(w: World, events: seq<Event>)
    decreases |events|
  {
    events == [] || (Punctual(w, events[0]) && AllPunctual(Step(w, events[0]), events[1..]))
  }

  lemma {:induction false} Counted(s: seq<Service>, x: Service)
    ensures x in s <==> Count(s, x) > 0
  {
    if s != [] { Counted(s[1..], x); }
  }

  lemma {:induction false} CountedLive(live: seq<(string, Service)>, company: string, x: Service)
    requires (company, x) in live
    ensures CountLive(live, x) > 0
  {
    if live[0] != (company, x) { CountedLive(live[1..], company, x); }
  }

  lemma {:induction false} CountedRetired(retired: seq<Retired>, r: Retired)
    requires r in retired
    ensures CountRetired(retired, r.service) > 0
  {
    if retired[0] != r { CountedRetired(retired[1..], r); }
  }

  // A live service is not also retired or gone, and no place holds an id not yet issued.
  lemma LiveIsNowhereElse(w: World, company: string, x: Service)
    requires Custody(w) && (company, x) in w.live
    ensures forall r :: r in w.retired ==> r.service.id != x.id
    ensures forall s :: s in Gone(w) ==> s.id != x.id
  {
    CountedLive(w.live, company, x);
    forall r | r in w.retired ensures r.service.id != x.id {
      CountedRetired(w.retired, r);
      assert Places(w, r.service) > 0 && Places(w, x) > 0;
    }
    forall s | s in Gone(w) ensures s.id != x.id {
      GoneCounted(w, s);
      assert Places(w, s) > 0 && Places(w, x) > 0;
    }
  }

  lemma GoneCounted(w: World, s: Service)
    requires s in Gone(w)
    ensures Count(Join(w.swept), s) + Count(w.closed, s) + Count(w.lost, s) > 0
  {
    Counted(Join(w.swept), s);
    Counted(w.closed, s);
    Counted(w.lost, s);
  }

  lemma IdsIssued(w: World)
    requires Custody(w)
    ensures forall r :: r in w.retired ==> r.service.id < |w.issued|
    ensures forall s :: s in Gone(w) ==> s.id < |w.issued|
  {
    forall r | r in w.retired ensures r.service.id < |w.issued| {
      CountedRetired(w.retired, r);
      assert Places(w, r.service) > 0;
    }
    forall s | s in Gone(w) ensures s.id < |w.issued| {
      GoneCounted(w, s);
      assert Places(w, s) > 0;
    }
  }

  lemma {:induction false} CollectedFrom(w: World, retired: seq<Retired>, s: Service)
    requires s in Collected(w, retired)
    ensures exists r :: r in retired && r.service == s && Collectable(w, r)
  {
    hide Collectable;
    if !(Collectable(w, retired[0]) && s == retired[0].service) { CollectedFrom(w, retired[1..], s); }
  }

  lemma {:induction false} RetainedFrom(w: World, retired: seq<Retired>)
    ensures forall r :: r in Retained(w, retired) ==> r in retired
  {
    hide Collectable;
    if retired != [] { RetainedFrom(w, retired[1..]); }
  }

  lemma {:induction false} RetireAllStamps(services: seq<Service>, now: int)
    ensures forall r :: r in RetireAll(services, now) ==> r.notBefore == now + GRACE
  {
    if services != [] { RetireAllStamps(services[1..], now); }
  }

  lemma JoinMembers(lists: seq<seq<Service>>, t: seq<Service>)
    ensures forall s :: s in Join(lists + [t]) ==> s in Join(lists) || s in t
  {
    hide Join, Count;
    forall s | s in Join(lists + [t]) ensures s in Join(lists) || s in t {
      Counted(Join(lists + [t]), s);
      JoinAdd(lists, t, s);
      Counted(Join(lists), s);
      Counted(t, s);
    }
  }

  // Closing a swept service, raising or not, takes nothing new out of the pool's hands.
  lemma ClosingKeepsGone(w: World, e: Event, s: Service)
    requires (e.CloseSwept? || e.CloseFails?) && s in Gone(Step(w, e))
    ensures s in Gone(w)
  {
    hide Join, Count;
    var v := Step(w, e);
    if Pendent(w.swept, e.sweep) {
      HeadLeaves(w.swept, e.sweep, w.closed, w.lost, s);
      GoneCounted(v, s);
      Counted(Join(w.swept), s);
      Counted(w.closed, s);
      Counted(w.lost, s);
    }
  }

  // Adding one waiting lease on `id` disturbs nothing but promises about `id`.
  lemma AddLease(w: World, v: World, id: nat)
    requires v.leases == w.leases + [Lease(id, w.now, Waiting)]
    ensures forall x, until: int :: x != id && WaitedOut(w, x, until) ==> WaitedOut(v, x, until)
    ensures forall x :: Busy(v, x) ==> Busy(w, x)
    ensures (forall i :: 0 <= i < |w.leases| ==> w.leases[i].at <= w.now) ==>
              forall x, until: int :: until >= w.now + GRACE ==> WaitedOut(v, x, until)
  {
    forall x | Busy(v, x) ensures Busy(w, x) {
      var i :| 0 <= i < |v.leases| && v.leases[i].service == x && v.leases[i].phase == Searching;
      assert w.leases[i] == v.leases[i];
    }
  }

  lemma SweepTimely(w: World)
    requires Timely(w)
    ensures forall s :: s in Collected(w, w.retired) ==> WaitedOut(w, s.id, w.now) && !Busy(w, s.id)
    ensures forall r :: r in Retained(w, w.retired) ==> WaitedOut(w, r.service.id, r.notBefore)
  {
    RetainedFrom(w, w.retired);
    forall s | s in Collected(w, w.retired) ensures WaitedOut(w, s.id, w.now) && !Busy(w, s.id) {
      CollectedFrom(w, w.retired, s);
      var r :| r in w.retired && r.service == s && Collectable(w, r);
      assert WaitedOut(w, r.service.id, r.notBefore);
    }
  }

  // Ids that are retired, swept or gone before a get stay below the next id and off the live map.
  lemma CollectedIds(w: World, id: nat)
    requires forall r :: r in w.retired ==> r.service.id != id
    ensures forall s :: s in Collected(w, w.retired) ==> s.id != id
    ensures forall r :: r in Retained(w, w.retired) ==> r.service.id != id
  {
    RetainedFrom(w, w.retired);
    forall s | s in Collected(w, w.retired) ensures s.id != id { CollectedFrom(w, w.retired, s); }
  }

  lemma GetTimely(w: World, company: string, builds: bool)
    requires Custody(w) && Timely(w)
    ensures Timely(GetStep(w, company, builds))
  {
    hide Collected, Retained, Collectable, RetireAll, Custody, WaitedOut, Busy, Without, Services, Join;
    var v := GetStep(w, company, builds);
    SweepTimely(w);
    JoinMembers(w.swept, Collected(w, w.retired));
    LookupMember(w.live, company);
    if v.leases == w.leases {
      SameLeases(w, v);
    } else {
      var id := v.leases[|w.leases|].service;
      AddLease(w, v, id);
      IdsIssued(w);
      if Lookup(w.live, company).Some? { LiveIsNowhereElse(w, company, Lookup(w.live, company).value); }
      CollectedIds(w, id);
      RetireAllStamps(Services(w.live[..Excess(w)]), w.now);
    }
  }

  lemma SameLeases(w: World, v: World)
    requires v.leases == w.leases
    ensures forall x, until: int :: WaitedOut(w, x, until) ==> WaitedOut(v, x, until)
    ensures forall x :: Busy(v, x) <==> Busy(w, x)
  {
    forall x ensures Busy(v, x) <==> Busy(w, x) {}
  }

  lemma SwapTimely(w: World)
    requires Timely(w)
    ensures Timely(SwapStep(w))
  {
    hide SwapManifest, Without, WaitedOut, Busy, Lookup;
    var v := SwapStep(w);
    SameLeases(w, v);
    if w.pending.Pending? {
      var previous := Lookup(w.live, w.pending.company);
      if previous.Some? {
        RetireAllStamps([previous.value], w.now);
        AllWaitedOut(w, v);
      }
    }
  }

  lemma AllWaitedOut(w: World, v: World)
    requires forall i :: 0 <= i < |w.leases| ==> w.leases[i].at <= w.now
    requires v.leases == w.leases
    ensures forall x, until: int :: until >= w.now + GRACE ==> WaitedOut(v, x, until)
  {}

  lemma StartTimely(w: World, i: nat)
    requires Timely(w) && Punctual(w, StartSearch(i))
    ensures Timely(Step(w, StartSearch(i)))
  {
    var v := Step(w, StartSearch(i));
    forall x, until: int | WaitedOut(w, x, until) ensures WaitedOut(v, x, until) {}
    forall s | s in Gone(v) ensures WaitedOut(v, s.id, v.now) && !Busy(v, s.id) {
      assert s in Gone(w);
      assert forall k :: 0 <= k < |v.leases| && k != i ==> v.leases[k] == w.leases[k];
    }
  }

  lemma FinishTimely(w: World, i: nat)
    requires Timely(w)
    ensures Timely(Step(w, FinishSearch(i)))
  {
    var v := Step(w, FinishSearch(i));
    forall x, until: int | WaitedOut(w, x, until) ensures WaitedOut(v, x, until) {}
    forall x | Busy(v, x) ensures Busy(w, x) {
      var k :| 0 <= k < |v.leases| && v.leases[k].service == x && v.leases[k].phase == Searching;
      assert w.leases[k] == v.leases[k];
    }
  }

  lemma RestTimely(w: World, e: Event)
    requires Timely(w)
    requires !e.Get? && !e.Swap? && !e.StartSearch? && !e.FinishSearch?
    ensures Timely(Step(w, e))
  {
    hide Busy, Join;
    var v := Step(w, e);
    SameLeases(w, v);
    forall s | s in Gone(v) ensures s in Gone(w) {
      if e.CloseSwept? || e.CloseFails? { ClosingKeepsGone(w, e, s); }
    }
    forall s, a: int, b: int | WaitedOut(w, s, a) && a <= b ensures WaitedOut(v, s, b) {}
  }

  lemma TimelyStep(w: World, e: Event)
    requires Custody(w) && Timely(w) && Punctual(w, e)
    ensures Timely(Step(w, e))
  {
    hide Custody, Timely, GetStep, SwapStep;
    match e {
      case Get(c, builds) => GetTimely(w, c, builds);
      case Swap => SwapTimely(w);
      case StartSearch(i) => StartTimely(w, i);
      case FinishSearch(i) => FinishTimely(w, i);
      case _ => RestTimely(w, e);
    }
  }

  lemma {:induction false} NoSweepWhileSearching(w: World, events: seq<Event>)
    requires Custody(w) && Timely(w) && AllPunctual(w, events)
    ensures forall s :: s in Gone(Run(w, events)) ==> !Busy(Run(w, events), s.id)
    decreases |events|
  {
    hide Custody, Step, Punctual, Busy, WaitedOut;
    if events != [] {
      CustodyStep(w, events[0]);
      TimelyStep(w, events[0]);
      NoSweepWhileSearching(Step(w, events[0]), events[1..]);
    }
  }

  // The grace period is needed: a caller that starts after it searches a service already swept.
  lemma LateSearchIsSwept(w: World)
    requires Fresh(w) && w.maxServices == 1 && "a" in w.manifests && "b" in w.manifests
    ensures var v := Run(w, [Get("a", true), Get("b", true), Tick(300), Get("b", true), StartSearch(0)]);
            |v.swept| == 3 && |v.swept[2]| == 1 && v.swept[2][0].id == 0 && Busy(v, 0)
  {
    hide GetStep, Run;
    var w1 := Step(w, Get("a", true));
    var w2 := Step(w1, Get("b", true));
    var w3 := Step(w2, Tick(300));
    var w4 := Step(w3, Get("b", true));
    FirstGet(w, "a");
    FirstEviction(w1, "b");
    OneReady(w3, w3.retired[0]);
    HitSweep(w3, "b");
    RunFive(w, Get("a", true), Get("b", true), Tick(300), Get("b", true), StartSearch(0));
    assert w4.leases[0].phase == Waiting;
    assert Step(w4, StartSearch(0)).leases[0] == Lease(0, w.now, Searching);
  }

  // ================ Eviction: only services that others were used after ================

  // How many live services were used after `company` last was.
  function UsedAfter(live: seq<(string, Service)>, company: string): nat {
    if live == [] then 0
    else if live[0].0 == company then |live| - 1
    else UsedAfter(live[1..], company)
  }

  predicate Live(live: seq<(string, Service)>, company: string) { Lookup(live, company).Some? }

  lemma {:induction false} UsedAfterAppend(live: seq<(string, Service)>, p: (string, Service), company: string)
    ensures Live(live, company) ==> Live(live + [p], company) && UsedAfter(live + [p], company) == UsedAfter(live, company) + 1
    ensures !Live(live, company) && p.0 == company ==> Live(live + [p], company) && UsedAfter(live + [p], company) == 0
    ensures UsedAfter(live, company) <= |live| && (Live(live, company) ==> UsedAfter(live, company) < |live|)
  {
    if live != [] {
      assert (live + [p])[1..] == live[1..] + [p];
      UsedAfterAppend(live[1..], p, company);
    }
  }

  lemma {:induction false} UsedAfterWithout(live: seq<(string, Service)>, other: string, company: string)
    ensures |Without(live, other)| <= |live|
    ensures other != company ==> UsedAfter(Without(live, other), company) <= UsedAfter(live, company)
    ensures other != company ==> (Live(Without(live, other), company) <==> Live(live, company))
    ensures !Live(Without(live, company), company)
  {
    if live != [] { UsedAfterWithout(live[1..], other, company); UsedAfterWithout(live[1..], company, company); }
  }

  lemma {:induction false} UsedAfterDrop(live: seq<(string, Service)>, n: nat, company: string)
    requires Live(live, company) && n + UsedAfter(live, company) < |live|
    ensures Live(live[n..], company) && UsedAfter(live[n..], company) == UsedAfter(live, company)
  {
    if n > 0 {
      assert live[n..] == live[1..][n - 1..];
      UsedAfterDrop(live[1..], n - 1, company);
    }
  }

  // The pool is used for another company: a get of it, or a service swapped in for it.
  predicate UsesOther(w: World, e: Event, company: string) {
    (e.Get? && e.company != company) || (e.Swap? && w.pending.Pending? && w.pending.company != company)
  }

  // One step other than close keeps a recently used company live; only other companies age it.
  lemma RecentStep(w: World, e: Event, company: string)
    requires !e.ClosePool? && Live(w.live, company)
    requires UsesOther(w, e, company) ==> UsedAfter(w.live, company) + 2 <= w.maxServices
    ensures var v := Step(w, e);
            && Live(v.live, company) && v.maxServices == w.maxServices
            && UsedAfter(v.live, company) <= UsedAfter(w.live, company) + if UsesOther(w, e, company) then 1 else 0
  {
    hide Collected, Retained, RetireAll, Services, Lookup, UsedAfter, Without, SwapManifest, Begin;
    var v := Step(w, e);
    BeginKeepsLive(w, e);
    LiveIsFound(w.live, company);
    if e.Get? && v.live != w.live {
      var x := v.live[|v.live| - 1];
      UsedAfterWithout(w.live, e.company, company);
      UsedAfterAppend(Without(w.live, e.company), x, company);
      if Lookup(w.live, e.company).None? {
        UsedAfterAppend(w.live, x, company);
        UsedAfterDrop(w.live, Excess(w), company);
        UsedAfterAppend(w.live[Excess(w)..], x, company);
      }
    } else if e.Swap? && w.pending.Pending? && v.live != w.live {
      UsedAfterWithout(w.live, w.pending.company, company);
      UsedAfterAppend(Without(w.live, w.pending.company), v.live[|v.live| - 1], company);
    }
  }

  lemma LiveIsFound(live: seq<(string, Service)>, company: string)
    ensures Live(live, company) <==> Lookup(live, company).Some?
  {}

  lemma BeginKeepsLive(w: World, e: Event)
    ensures e.BeginReload? || e.BeginActivate? || e.BeginRollback? ==>
              Begin(w, e).live == w.live && Begin(w, e).maxServices == w.maxServices
  {}

  function OtherUses(w: World, events: seq<Event>, company: string): nat
    decreases |events|
  {
    if events == [] then 0
    else (if UsesOther(w, events[0], company) then 1 else 0) + OtherUses(Step(w, events[0]), events[1..], company)
  }

  // So a service is evicted only after at least maxServices uses for other companies since its own.
  lemma {:induction false} RecentStaysLive(w: World, events: seq<Event>, company: string)
    requires Live(w.live, company) && UsedAfter(w.live, company) + OtherUses(w, events, company) < w.maxServices
    requires forall i :: 0 <= i < |events| ==> !events[i].ClosePool?
    ensures Live(Run(w, events).live, company)
    decreases |events|
  {
    hide Step, Live, UsedAfter, UsesOther;
    if events != [] {
      RecentStep(w, events[0], company);
      RecentStaysLive(Step(w, events[0]), events[1..], company);
    }
  }

  // ================ What get hands out ================

  // Services live under the company they were built for.
  ghost predicate OwnNames(w: World) { forall i :: 0 <= i < |w.live| ==> w.live[i].1.company == w.live[i].0 }

  lemma OwnNamesStep(w: World, e: Event)
    requires OwnNames(w)
    ensures OwnNames(Step(w, e))
  {
    hide Begin, SwapManifest, Collected, Retained, RetireAll, Without;
    var v := Step(w, e);
    LookupMember(w.live, if e.Get? then e.company else "");
    WithoutMembers(w.live, if e.Get? then e.company else if w.pending.Pending? then w.pending.company else "");
    BeginKeepsPlaces(w, e);
    forall i | 0 <= i < |v.live| ensures v.live[i].1.company == v.live[i].0 {
      if i < |v.live| - 1 && e.Get? && Lookup(w.live, e.company).Some? {
        assert v.live[i] in Without(w.live, e.company);
      } else if i < |v.live| - 1 && e.Swap? && v.live != w.live {
        assert v.live[i] in Without(w.live, w.pending.company);
      }
    }
  }

  lemma {:induction false} OwnNamesRun(w: World, events: seq<Event>)
    requires OwnNames(w)
    ensures OwnNames(Run(w, events))
    decreases |events|
  {
    hide OwnNames, Step;
    if events != [] {
      OwnNamesStep(w, events[0]);
      OwnNamesRun(Step(w, events[0]), events[1..]);
    }
  }

  // The most recently used place of the pool is the company's, and the caller holds that service.
  ghost predicate HandsOut(w: World, v: World, company: string, x: Service) {
    && v.live != [] && v.live[|v.live| - 1] == (company, x) && x.company == company
    && v.leases == w.leases + [Lease(x.id, w.now, Waiting)]
  }

  // A get hands out the company's live service if there is one, otherwise a new one of the manifest's
  // active slot and generation, and hands out nothing exactly when that one cannot be built.
  lemma GetHandsOut(w: World, company: string, builds: bool)
    requires OwnNames(w)
    ensures var v, found := Step(w, Get(company, builds)), Lookup(w.live, company);
            && (found.Some? ==> HandsOut(w, v, company, found.value) && v.issued == w.issued)
            && (found.None? && builds && company in w.manifests ==>
                  var m := w.manifests[company];
                  var x := Service(|w.issued|, company, m.active, m.Label(m.active));
                  HandsOut(w, v, company, x) && v.issued == w.issued + [x])
            && (found.None? && !(builds && company in w.manifests) ==>
                  v.leases == w.leases && v.live == w.live && v.issued == w.issued)
  {
    hide Collected, Retained, RetireAll, Without, Services;
    LookupMember(w.live, company);
  }

  // Over every run of a new pool: whatever happened before, a caller of get that is handed a service is
  // handed one built for its own company, live at that moment; while labels agree it is the one of
  // the active slot and generation.
  lemma GetIsOwn(w: World, events: seq<Event>, company: string, builds: bool)
    requires Fresh(w)
    ensures var u := Run(w, events);
            var v := Step(u, Get(company, builds));
            v.leases != u.leases ==>
              && |v.leases| == |u.leases| + 1
              && var x := v.leases[|u.leases|].service;
                 && x < |v.issued| && v.issued[x].company == company && (company, v.issued[x]) in v.live
                 && (InStep(u) ==> Agrees(v, company, v.issued[x]))
  {
    hide Run, Step, Custody, InStep, OwnNames, Lookup;
    var u := Run(w, events);
    var v := Step(u, Get(company, builds));
    FreshIsSound(w);
    FreshOwnNames(w);
    CustodyAlways(w, events);
    OwnNamesRun(w, events);
    GetHandsOut(u, company, builds);
    CustodyStep(u, Get(company, builds));
    if v.leases != u.leases {
      var x := v.live[|v.live| - 1].1;
      assert (company, x) in v.live;
      CountedLive(v.live, company, x);
      PlacedIsStored(v, x);
      if InStep(u) {
        GetAgrees(u, company, builds);
      }
    }
  }

  lemma GetAgrees(w: World, company: string, builds: bool)
    requires InStep(w)
    ensures InStep(Step(w, Get(company, builds)))
  {
    GetInStep(w, company, builds);
  }

  lemma FreshOwnNames(w: World)
    requires Fresh(w)
    ensures OwnNames(w)
  {}

  lemma PlacedIsStored(w: World, x: Service)
    requires Custody(w) && CountLive(w.live, x) > 0
    ensures Stored(w, x)
  {}

  // ---- What reload, activate and rollback do when nothing comes between ----

  // The operation stores a new service under the company, as the most recently used, retires the one it
  // replaces, and leaves every other company's service where it was.
  ghost predicate Replaces(w: World, v: World, company: string, slot: Slot, generation: string) {
    var x := Service(|w.issued|, company, slot, generation);
    && v.issued == w.issued + [x] && v.live == Without(w.live, company) + [(company, x)]
    && v.pending == Nothing && company in w.manifests && v.manifests.Keys == w.manifests.Keys
    && (forall c :: c in w.manifests && c != company ==> v.manifests[c] == w.manifests[c])
    && v.retired == w.retired + (match Lookup(w.live, company)
                                 case Some(was) => [Retired(w.now + GRACE, was)]
                                 case None => [])
    && Agrees(v, company, x)
  }

  // Activation happens exactly for the validated candidate of the inactive slot; otherwise nothing does.
  lemma ActivateIff(w: World, company: string, slot: Slot, generation: string)
    requires w.pending == Nothing && Manifests(w)
    ensures var v := Step(Step(w, BeginActivate(company, slot, generation)), Swap);
            if company in w.manifests && slot == w.manifests[company].active.Other()
               && w.manifests[company].At(slot) == SlotState(Some(generation), Ready)
            then Replaces(w, v, company, slot, generation) && v.manifests[company].active == slot
                 && v.manifests[company].previous == Some(w.manifests[company].active)
            else v == w
  {
    hide Coherent, Without, Lookup, RestoreActiveSlot;
    if company in w.manifests { OperationsKeepCoherence(w.manifests[company], slot, generation); }
    RetireOne(w);
  }

  // A reload replaces the live service exactly when it is missing or not labelled as the manifest says.
  lemma ReloadIff(w: World, company: string)
    requires w.pending == Nothing
    ensures var v, found := Step(Step(w, BeginReload(company)), Swap), Lookup(w.live, company);
            if company in w.manifests && (found.Some? ==>
                 found.value.generation != w.manifests[company].Label(w.manifests[company].active)
                 || found.value.slot != w.manifests[company].active)
            then Replaces(w, v, company, w.manifests[company].active, w.manifests[company].Label(w.manifests[company].active))
                 && v.manifests == w.manifests
            else v == w
  {
    hide Without, Lookup, RestoreActiveSlot, PromoteCandidate;
    RetireOne(w);
  }

  // A rollback returns to the recorded previous slot exactly when there is one that was ever filled.
  lemma RollbackIff(w: World, company: string)
    requires w.pending == Nothing && Manifests(w)
    ensures var v := Step(Step(w, BeginRollback(company)), Swap);
            if company in w.manifests && w.manifests[company].previous.Some?
               && w.manifests[company].At(w.manifests[company].previous.value).generation.Some?
            then var slot := w.manifests[company].previous.value;
                 Replaces(w, v, company, slot, w.manifests[company].Label(slot))
                 && v.manifests[company].active == slot && v.manifests[company].previous == Some(w.manifests[company].active)
            else v == w
  {
    hide Without, Lookup, PromoteCandidate;
    RetireOne(w);
  }

  lemma RetireOne(w: World)
    ensures forall x :: RetireAll([x], w.now) == [Retired(w.now + GRACE, x)]
  {
    forall x: Service ensures RetireAll([x], w.now) == [Retired(w.now + GRACE, x)] {
      assert RetireAll([x], w.now) == [Retired(w.now + GRACE, x)] + RetireAll([x][1..], w.now);
    }
  }

  // ---- The size of the pool ----

  // A swap that puts a service under a company the full pool does not hold.
  predicate Overfills(w: World, e: Event) {
    && e.Swap? && w.pending.Pending? && w.pending.company in w.manifests
    && SwapManifest(w.manifests[w.pending.company], w.pending).Ok?
    && Lookup(w.live, w.pending.company).None? && |w.live| == w.maxServices
  }

  // max_services holds from step to step except at such a swap; the next get that builds evicts down to it.
  lemma SizeStep(w: World, e: Event)
    requires |w.live| <= w.maxServices && DistinctKeys(w.live)
    ensures |Step(w, e).live| <= w.maxServices <==> !Overfills(w, e)
  {
    hide Begin, SwapManifest, Collected, Retained, RetireAll, Services;
    BeginKeepsPlaces(w, e);
    if e.Get? { WithoutSize(w.live, e.company); }
    if w.pending.Pending? { WithoutSize(w.live, w.pending.company); }
  }

  // A pool of one: a company is served, another is reloaded, and both are live.
  lemma OverfillHappens(w: World)
    requires Fresh(w) && w.maxServices == 1 && "a" in w.manifests && "b" in w.manifests
    ensures |Run(w, [Get("a", true), BeginReload("b"), Swap]).live| == 2
  {
    hide Run, Step, Replaces;
    RunThree(w, Get("a", true), BeginReload("b"), Swap);
    var w1 := Step(w, Get("a", true));
    FirstGet(w, "a");
    NotLive(w1, "b");
    ReloadIff(w1, "b");
    assert Replaces(w1, Step(Step(w1, BeginReload("b")), Swap), "b", w1.manifests["b"].active,
                    w1.manifests["b"].Label(w1.manifests["b"].active));
    ReplacesGrows(w1, Step(Step(w1, BeginReload("b")), Swap), "b");
  }

  lemma NotLive(w: World, company: string)
    requires |w.live| == 1 && w.live[0].0 != company
    ensures Lookup(w.live, company).None? && Without(w.live, company) == w.live
  {
    assert w.live == [w.live[0]];
  }

  lemma ReplacesGrows(w: World, v: World, company: string)
    requires exists slot, generation :: Replaces(w, v, company, slot, generation)
    requires |w.live| == 1 && Without(w.live, company) == w.live
    ensures |v.live| == 2
  {}

  lemma {:induction false} WithoutSize(live: seq<(string, Service)>, company: string)
    requires DistinctKeys(live)
    ensures |Without(live, company)| + (if Lookup(live, company).Some? then 1 else 0) == |live|
  {
    if live != [] {
      if live[0].0 == company { WithoutAbsent(live[1..], company); } else { WithoutSize(live[1..], company); }
    }
  }

  // A get that builds keeps the most recently used and retires exactly the others.
  lemma GetEvicts(w: World, company: string)
    requires Lookup(w.live, company).None? && company in w.manifests
    ensures var v := Step(w, Get(company, true));
            && |v.live| == (if |w.live| < w.maxServices then |w.live| + 1 else w.maxServices)
            && v.live[..|v.live| - 1] == w.live[|w.live| + 1 - |v.live|..]
            && v.retired == Retained(w, w.retired) + RetireAll(Services(w.live[..|w.live| + 1 - |v.live|]), w.now)
  {
    hide Collected, Retained, RetireAll, Services, Lookup;
    var v, out := Step(w, Get(company, true)), Excess(w);
    assert v.live[..|v.live| - 1] == w.live[out..];
    assert |w.live| + 1 - |v.live| == out;
  }

  // A pool starts with every invariant in place.
  lemma FreshIsSound(w: World)
    requires Fresh(w)
    ensures Manifests(w) && InStep(w) && Custody(w) && Timely(w)
  {}
}
