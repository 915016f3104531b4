// DatabaseConnectionPool of src/storage/database.py as a state machine: any number of threads,
// each between two lock sections, queue operations or driver calls of the pool's methods.
module ConnectionPool {
  import opened Sorting

  type Conn = nat  // the identity of a live connection object

  // Where a thread goes once a discard, an undo or a put is finished.
  datatype Cont = ToOut | ToGet | ToSweep(todo: seq<Conn>, good: seq<Conn>)
                | ToRestore(good: seq<Conn>) | ToFill | ToShut

  datatype Task =
    | Out                                   // not inside the pool
    | Get                                   // _acquire: get_nowait
    | Miss                                  // queue was empty: about to reserve
    | Wait                                  // reservation refused: get with timeout
    | Connect(filling: bool)                // slot reserved, driver is connecting
    | Mark(c: Conn, filling: bool)          // connected, not yet recorded as validated
    | Probe(c: Conn)                        // _usable on an acquired connection
    | Use(c: Conn)                          // checked out to the caller
    | Leave(c: Conn)                        // clean exit: reads _closed
    | Refresh(c: Conn)                      // exit passed the check: marks validated
    | Put(c: Conn, k: Cont)                 // idle.put
    | Shed(c: Conn, k: Cont)                // _discard: close, then forget the timestamp
    | Undo(k: Cont)                         // _unreserve
    | Drain(found: seq<Conn>)               // maintenance empties the queue
    | Sweep(todo: seq<Conn>, good: seq<Conn>)  // maintenance validates what it took
    | Restore(good: seq<Conn>)              // maintenance gives the healthy ones back
    | Fill                                  // maintenance: below min_size?
    | FillReserve
    | Fresh(c: Conn)                        // maintenance opened one: reads _closed
    | Shut                                  // close: empties the queue

  // What the environment decides: which method is entered, whether a driver call succeeds,
  // whether validation needed a ping (Yes, which records a time) or not (Fast).
  datatype Choice = Acquire | Maintain | Close | Yes(c: Conn, now: int) | Fast | No

  datatype Pool = Pool(minSize: nat, maxSize: nat, idle: seq<Conn>, created: nat, closed: bool,
                       validated: map<Conn, int>)

  datatype State = State(pool: Pool, tasks: seq<Task>)

  function Resume(k: Cont): Task {
    match k
    case ToOut => Out
    case ToGet => Get
    case ToSweep(todo, good) => Sweep(todo, good)
    case ToRestore(good) => Restore(good)
    case ToFill => Fill
    case ToShut => Shut
  }

  // LIFO: the newest idle connection, when there is one.
  function Pop(p: Pool): (Pool, Conn)
    requires p.idle != []
  {
    var last := |p.idle| - 1;
    (p.(idle := p.idle[..last]), p.idle[last])
  }

  function Reserve(p: Pool): (Pool, bool) {
    if p.closed || p.created >= p.maxSize then (p, false) else (p.(created := p.created + 1), true)
  }

  function Unreserve(p: Pool): Pool {
    p.(created := if p.created > 0 then p.created - 1 else 0)
  }

  function MarkValidated(p: Pool, c: Conn, ch: Choice): Pool {
    if ch.Yes? then p.(validated := p.validated[c := ch.now]) else p
  }

  // One atomic step of a thread that is at `t`.
  function Move(p: Pool, t: Task, ch: Choice): (Pool, Task) {
    match t
    case Out =>
      if ch.Acquire? then (p, Get)
      else if ch.Maintain? then (p, Drain([]))
      else if ch.Close? then (p.(closed := true), Shut)
      else (p, Out)
    case Get =>
      if p.idle == [] then (p, Miss) else var (q, c) := Pop(p); (q, Probe(c))
    case Miss =>
      var (q, ok) := Reserve(p); (q, if ok then Connect(false) else Wait)
    case Wait =>
      if ch.No? then (p, Out)
      else if p.idle == [] then (p, Wait)
      else var (q, c) := Pop(p); (q, Probe(c))
    case Connect(filling) =>
      if ch.Yes? then (p, Mark(ch.c, filling)) else (p, Undo(ToOut))
    case Mark(c, filling) =>
      (p.(validated := p.validated[c := if ch.Yes? then ch.now else 0]),
       if filling then Fresh(c) else Use(c))
    case Probe(c) =>
      if ch.No? then (p, Shed(c, ToGet)) else (MarkValidated(p, c, ch), Use(c))
    case Use(c) =>
      if ch.No? then (p, Shed(c, ToOut)) else (p, Leave(c))
    case Leave(c) =>
      if p.closed || ch.No? then (p, Shed(c, ToOut)) else (p, Refresh(c))
    case Refresh(c) =>
      (MarkValidated(p, c, ch), Put(c, ToOut))
    case Put(c, k) =>
      if |p.idle| < p.maxSize then (p.(idle := p.idle + [c]), Resume(k)) else (p, t)
    case Shed(c, k) =>
      (p.(validated := p.validated - {c}), Undo(k))
    case Undo(k) =>
      (Unreserve(p), Resume(k))
    case Drain(found) =>
      if p.idle == [] then (p, Sweep(found, [])) else var (q, c) := Pop(p); (q, Drain(found + [c]))
    case Sweep(todo, good) =>
      if todo == [] then (p, Restore(good))
      else if ch.No? then (p, Shed(todo[0], ToSweep(todo[1..], good)))
      else (MarkValidated(p, todo[0], ch), Sweep(todo[1..], good + [todo[0]]))
    case Restore(good) =>
      if good == [] then (p, Fill)
      else if p.closed then (p, Shed(good[0], ToRestore(good[1..])))
      else (p, Put(good[0], ToRestore(good[1..])))
    case Fill =>
      (p, if !p.closed && p.created < p.minSize then FillReserve else Out)
    case FillReserve =>
      var (q, ok) := Reserve(p); (q, if ok then Connect(true) else Out)
    case Fresh(c) =>
      if p.closed then (p, Shed(c, ToOut)) else (p, Put(c, ToFill))
    case Shut =>
      if p.idle == [] then (p, Out) else var (q, c) := Pop(p); (q, Shed(c, ToShut))
  }

  // A driver never hands out an object that is still alive.
  ghost predicate NewObject(s: State, c: Conn) {
    c !in s.pool.validated && forall t :: t in s.tasks && t.Mark? ==> t.c != c
  }

  ghost function Step(s: State, i: nat, ch: Choice): State {
    if i >= |s.tasks| || (s.tasks[i].Connect? && ch.Yes? && !NewObject(s, ch.c)) then s
    else
      var (pool, task) := Move(s.pool, s.tasks[i], ch);
      State(pool, s.tasks[i := task])
  }

  type Schedule = seq<(nat, Choice)>

  ghost function Run(s: State, schedule: Schedule): State
    decreases |schedule|
  {
    if schedule == [] then s else Run(Step(s, schedule[0].0, schedule[0].1), schedule[1..])
  }

  // ---- Accounting ----

  function HeldBy(k: Cont): seq<Conn> {
    match k
    case ToSweep(todo, good) => todo + good
    case ToRestore(good) => good
    case _ => []
  }

  // The recorded connections a thread holds outside the queue.
  function Held(t: Task): seq<Conn> {
    match t
    case Probe(c) => [c]
    case Use(c) => [c]
    case Leave(c) => [c]
    case Refresh(c) => [c]
    case Fresh(c) => [c]
    case Put(c, k) => [c] + HeldBy(k)
    case Shed(c, k) => [c] + HeldBy(k)
    case Undo(k) => HeldBy(k)
    case Drain(found) => found
    case Sweep(todo, good) => todo + good
    case Restore(good) => good
    case _ => []
  }

  // The slots of `created` a thread accounts for: its connections, plus one for a slot that is
  // reserved but not yet (or no longer) backed by a recorded connection.
  function Slots(t: Task): nat {
    |Held(t)| + if t.Connect? || t.Mark? || t.Undo? then 1 else 0
  }

  function AllSlots(tasks: seq<Task>): nat {
    if tasks == [] then 0 else Slots(tasks[0]) + AllSlots(tasks[1..])
  }

  function AllHeld(tasks: seq<Task>): multiset<Conn> {
    if tasks == [] then multiset{} else multiset(Held(tasks[0])) + AllHeld(tasks[1..])
  }

  ghost predicate Conserved(s: State) {
    && s.pool.created == |s.pool.idle| + AllSlots(s.tasks)
    && s.pool.created <= s.pool.maxSize
    && multiset(s.pool.validated.Keys) == multiset(s.pool.idle) + AllHeld(s.tasks)
  }

  ghost predicate MarksFresh(s: State) {
    && (forall i :: 0 <= i < |s.tasks| && s.tasks[i].Mark? ==> s.tasks[i].c !in s.pool.validated)
    && (forall i, j :: 0 <= i < j < |s.tasks| && s.tasks[i].Mark? && s.tasks[j].Mark? ==>
          s.tasks[i].c != s.tasks[j].c)
  }

  ghost predicate Inv(s: State) { Conserved(s) && MarksFresh(s) }

  lemma {:induction false} SlotsUpdate(tasks: seq<Task>, i: nat, t: Task)
    requires i < |tasks|
    ensures AllSlots(tasks[i := t]) + Slots(tasks[i]) == AllSlots(tasks) + Slots(t)
  {
    if i > 0 {
      SlotsUpdate(tasks[1..], i - 1, t);
      assert tasks[i := t][1..] == tasks[1..][i - 1 := t];
    } else {
      assert tasks[0 := t][1..] == tasks[1..];
    }
  }

  lemma {:induction false} HeldUpdate(tasks: seq<Task>, i: nat, t: Task)
    requires i < |tasks|
    ensures AllHeld(tasks[i := t]) + multiset(Held(tasks[i])) == AllHeld(tasks) + multiset(Held(t))
  {
    hide Held;
    var changed := tasks[i := t];
    if i > 0 {
      HeldUpdate(tasks[1..], i - 1, t);
      assert changed[1..] == tasks[1..][i - 1 := t];
      AddBoth(multiset(Held(tasks[0])), AllHeld(changed[1..]), multiset(Held(tasks[i])),
              AllHeld(tasks[1..]), multiset(Held(t)));
    } else {
      assert changed[1..] == tasks[1..];
    }
  }

  lemma AddBoth(h: multiset<Conn>, a: multiset<Conn>, x: multiset<Conn>, b: multiset<Conn>,
                y: multiset<Conn>)
    requires a + x == b + y
    ensures (h + a) + x == (h + b) + y
  {
    assert (h + a) + x == h + (a + x);
  }

  // The conservation law over one step, on the three multisets alone.
  lemma BooksBalance(keys: multiset<Conn>, idle: multiset<Conn>, all: multiset<Conn>,
                     held: multiset<Conn>, keys': multiset<Conn>, idle': multiset<Conn>,
                     all': multiset<Conn>, held': multiset<Conn>)
    requires keys == idle + all && all' + held == all + held'
    requires keys' + idle + held == keys + idle' + held'
    ensures keys' == idle' + all'
  {
    forall c ensures keys'[c] == (idle' + all')[c] {
      assert (keys' + idle + held)[c] == (keys + idle' + held')[c];
      assert (all' + held)[c] == (all + held')[c];
    }
  }

  lemma {:induction false} OneOfAll(tasks: seq<Task>, i: nat)
    requires i < |tasks|
    ensures Slots(tasks[i]) <= AllSlots(tasks)
    ensures multiset(Held(tasks[i])) <= AllHeld(tasks)
  {
    if i > 0 { OneOfAll(tasks[1..], i - 1); }
  }

  // What one move owes the books, whichever method it belongs to.
  ghost predicate Balanced(p: Pool, t: Task, q: Pool, u: Task) {
    && q.created + |p.idle| + Slots(t) == p.created + |q.idle| + Slots(u)
    && multiset(q.validated.Keys) + multiset(p.idle) + multiset(Held(t))
       == multiset(p.validated.Keys) + multiset(q.idle) + multiset(Held(u))
    && (q.created <= p.created || q.created <= q.maxSize)
    && q.maxSize == p.maxSize
  }

  lemma PopSplits(p: Pool)
    requires p.idle != []
    ensures multiset(p.idle) == multiset(Pop(p).0.idle) + multiset{Pop(p).1}
  {
    assert p.idle == p.idle[..|p.idle| - 1] + [p.idle[|p.idle| - 1]];
  }

  lemma RecordedKeys(p: Pool, c: Conn, at: int)
    ensures c in p.validated ==> p.validated[c := at].Keys == p.validated.Keys
    ensures c !in p.validated ==>
              multiset(p.validated[c := at].Keys) == multiset(p.validated.Keys) + multiset{c}
    ensures c in p.validated ==>
              multiset((p.validated - {c}).Keys) + multiset{c} == multiset(p.validated.Keys)
  {
    assert p.validated[c := at].Keys == p.validated.Keys + {c};
    assert (p.validated - {c}).Keys == p.validated.Keys - {c};
  }

  // Nothing enters or leaves the queue or the timestamp table.
  lemma QuietMove(p: Pool, t: Task, q: Pool, u: Task)
    requires q.idle == p.idle && q.validated.Keys == p.validated.Keys && q.maxSize == p.maxSize
    requires multiset(Held(t)) == multiset(Held(u)) && q.created + Slots(t) == p.created + Slots(u)
    requires q.created <= p.created || q.created <= q.maxSize
    ensures Balanced(p, t, q, u)
  {}

  lemma PopMove(p: Pool, t: Task, u: Task)
    requires p.idle != [] && Held(u) == Held(t) + [Pop(p).1] && Slots(u) == Slots(t) + 1
    ensures Balanced(p, t, Pop(p).0, u)
  {
    hide Held, Slots;
    PopSplits(p);
    assert multiset(Held(u)) == multiset(Held(t)) + multiset{Pop(p).1};
  }

  lemma PutMove(p: Pool, t: Task, c: Conn, u: Task)
    requires Held(t) == [c] + Held(u) && Slots(t) == 1 + Slots(u)
    ensures Balanced(p, t, p.(idle := p.idle + [c]), u)
  {
    hide Held, Slots;
    assert multiset(Held(t)) == multiset{c} + multiset(Held(u));
    assert multiset(p.idle + [c]) == multiset(p.idle) + multiset{c};
  }

  lemma ShedMove(p: Pool, t: Task, c: Conn, u: Task)
    requires Held(t) == [c] + Held(u) && Slots(t) == Slots(u) && c in p.validated
    ensures Balanced(p, t, p.(validated := p.validated - {c}), u)
  {
    hide Held, Slots;
    RecordedKeys(p, c, 0);
    assert multiset(Held(t)) == multiset{c} + multiset(Held(u));
  }

  lemma MarkMove(p: Pool, t: Task, c: Conn, at: int, u: Task)
    requires Held(t) == [] && Held(u) == [c] && Slots(t) == Slots(u) && c !in p.validated
    ensures Balanced(p, t, p.(validated := p.validated[c := at]), u)
  {
    hide Held, Slots;
    RecordedKeys(p, c, at);
  }

  lemma MarkValidatedKeys(p: Pool, c: Conn, ch: Choice)
    requires c in p.validated
    ensures var q := MarkValidated(p, c, ch);
            q.validated.Keys == p.validated.Keys && q == p.(validated := q.validated)
  {}

  lemma HeldReordered(todo: seq<Conn>, good: seq<Conn>)
    requires todo != []
    ensures multiset(todo[1..] + (good + [todo[0]])) == multiset(todo + good)
    ensures todo + good == [todo[0]] + (todo[1..] + good)
  {
    assert todo == [todo[0]] + todo[1..];
  }

  lemma SweepBalances(p: Pool, todo: seq<Conn>, good: seq<Conn>, ch: Choice)
    requires todo != [] && todo[0] in p.validated
    ensures var t := Sweep(todo, good); Balanced(p, t, Move(p, t, ch).0, Move(p, t, ch).1)
  {
    hide Balanced;
    var t := Sweep(todo, good);
    var (q, u) := Move(p, t, ch);
    HeldReordered(todo, good);
    MarkValidatedKeys(p, todo[0], ch);
    if ch.No? {
      assert Held(u) == Held(t);
    }
    QuietMove(p, t, q, u);
  }

  predicate Quiet(p: Pool, t: Task, ch: Choice) {
    && !t.Mark? && !t.Shed? && (t.Sweep? ==> t.todo == []) && (t.Put? ==> |p.idle| >= p.maxSize)
    && (t.Get? || t.Drain? || t.Shut? || (t.Wait? && !ch.No?) ==> p.idle == [])
  }

  lemma ResumeHolds(k: Cont)
    ensures Held(Resume(k)) == HeldBy(k)
  {}

  lemma QuietHeld(p: Pool, t: Task, ch: Choice)
    requires Quiet(p, t, ch)
    ensures Held(Move(p, t, ch).1) == Held(t)
  {
    hide Move, Held;
    if t.Restore? || t.Drain? || t.Sweep? { QuietRound(p, t, ch); } else { QuietCaller(p, t, ch); }
  }

  lemma QuietRound(p: Pool, t: Task, ch: Choice)
    requires Quiet(p, t, ch) && (t.Restore? || t.Drain? || t.Sweep?)
    ensures Held(Move(p, t, ch).1) == Held(t)
  {
    match t {
      case Restore(good) => if good != [] { assert good == [good[0]] + good[1..]; }
      case Drain(found) => assert found + [] == found;
      case Sweep(todo, good) => assert todo + good == good;
    }
  }

  lemma QuietCaller(p: Pool, t: Task, ch: Choice)
    requires Quiet(p, t, ch) && !t.Restore? && !t.Drain? && !t.Sweep?
    ensures Held(Move(p, t, ch).1) == Held(t)
  {
    hide Pop, MarkValidated, Reserve, Unreserve, Resume;
    if t.Undo? { ResumeHolds(t.k); }
  }

  lemma QuietPool(p: Pool, t: Task, ch: Choice)
    requires Quiet(p, t, ch) && (t.Undo? ==> p.created > 0)
    requires forall c :: c in Held(t) ==> c in p.validated
    ensures var (q, u) := Move(p, t, ch);
            && q.idle == p.idle && q.validated.Keys == p.validated.Keys && q.maxSize == p.maxSize
            && q.created + Slots(t) == p.created + Slots(u)
            && (q.created <= p.created || q.created <= q.maxSize)
  {
    hide Pop, MarkValidated;
    QuietHeld(p, t, ch);
    if t.Probe? || t.Refresh? { MarkValidatedKeys(p, t.c, ch); }
  }

  lemma MoveBalances(p: Pool, t: Task, ch: Choice)
    requires forall c :: c in Held(t) ==> c in p.validated
    requires t.Mark? ==> t.c !in p.validated
    requires t.Undo? ==> p.created > 0
    ensures Balanced(p, t, Move(p, t, ch).0, Move(p, t, ch).1)
  {
    hide Balanced, Pop, MarkValidated;
    var (q, u) := Move(p, t, ch);
    if p.idle != [] && (t.Get? || t.Drain? || t.Shut? || (t.Wait? && !ch.No?)) {
      PopMove(p, t, u);
    } else if t.Put? && |p.idle| < p.maxSize {
      PutMove(p, t, t.c, u);
    } else if t.Shed? {
      ShedMove(p, t, t.c, u);
    } else if t.Mark? {
      MarkMove(p, t, t.c, if ch.Yes? then ch.now else 0, u);
    } else if t.Sweep? && t.todo != [] {
      SweepBalances(p, t.todo, t.good, ch);
    } else {
      QuietHeld(p, t, ch);
      QuietPool(p, t, ch);
      QuietMove(p, t, q, u);
    }
  }

  lemma HeldIsRecorded(s: State, i: nat)
    requires Conserved(s) && i < |s.tasks|
    ensures forall c :: c in Held(s.tasks[i]) ==> c in s.pool.validated
    ensures s.tasks[i].Undo? ==> s.pool.created > 0
  {
    OneOfAll(s.tasks, i);
    forall c | c in Held(s.tasks[i]) ensures c in s.pool.validated {
      assert c in multiset(Held(s.tasks[i]));
      assert c in multiset(s.pool.validated.Keys);
    }
  }

  lemma StepConserves(s: State, i: nat, ch: Choice)
    requires Inv(s)
    ensures Conserved(Step(s, i, ch))
  {
    hide Move, Held, Slots;
    if i < |s.tasks| {
      var t := s.tasks[i];
      HeldIsRecorded(s, i);
      MoveBalances(s.pool, t, ch);
      var u := Move(s.pool, t, ch).1;
      SlotsUpdate(s.tasks, i, u);
      HeldUpdate(s.tasks, i, u);
      var q := Move(s.pool, t, ch).0;
      BooksBalance(multiset(s.pool.validated.Keys), multiset(s.pool.idle), AllHeld(s.tasks),
                   multiset(Held(t)), multiset(q.validated.Keys), multiset(q.idle),
                   AllHeld(s.tasks[i := u]), multiset(Held(u)));
    }
  }

  lemma MoveMarks(p: Pool, t: Task, ch: Choice)
    ensures var (q, u) := Move(p, t, ch);
            && (u.Mark? ==> t.Connect? && ch.Yes? && u.c == ch.c && q == p)
            && (forall c :: c in q.validated ==> c in p.validated || (t.Mark? && c == t.c) || c in Held(t))
  {}

  lemma StepMarks(s: State, i: nat, ch: Choice)
    requires Inv(s)
    ensures MarksFresh(Step(s, i, ch))
  {
    hide Move, Held, Slots;
    if i < |s.tasks| {
      HeldIsRecorded(s, i);
      MoveMarks(s.pool, s.tasks[i], ch);
    }
  }

  lemma {:induction false} RunInv(s: State, schedule: Schedule)
    requires Inv(s)
    ensures Inv(Run(s, schedule))
    decreases |schedule|
  {
    hide Step, Inv;
    if schedule != [] {
      var (i, ch) := schedule[0];
      assert Inv(Step(s, i, ch)) by { InvStep(s, i, ch); }
      RunInv(Step(s, i, ch), schedule[1..]);
    }
  }

  lemma InvStep(s: State, i: nat, ch: Choice)
    requires Inv(s)
    ensures Inv(Step(s, i, ch))
  {
    StepConserves(s, i, ch);
    StepMarks(s, i, ch);
  }

  // ---- What the constructor leaves, and what every later state satisfies ----

  ghost predicate Constructed(s: State) {
    && s.pool.minSize <= s.pool.maxSize && s.pool.maxSize > 0
    && s.pool.created == |s.pool.idle| == s.pool.minSize
    && !s.pool.closed
    && multiset(s.pool.idle) == multiset(s.pool.validated.Keys)
    && forall i :: 0 <= i < |s.tasks| ==> s.tasks[i] == Out
  }

  lemma {:induction false} IdleThreads(tasks: seq<Task>)
    requires forall i :: 0 <= i < |tasks| ==> tasks[i] == Out
    ensures AllSlots(tasks) == 0 && AllHeld(tasks) == multiset{}
  {
    if tasks != [] { IdleThreads(tasks[1..]); }
  }

  lemma StartsFresh(s: State)
    requires Constructed(s)
    ensures MarksFresh(s)
  {}

  // Every state reachable under any schedule: the bound and the conservation law, each recorded
  // connection in exactly one place, a put that never blocks, a clamp that never fires.
  ghost predicate Safe(s: State) {
    && s.pool.created == |s.pool.idle| + AllSlots(s.tasks) <= s.pool.maxSize
    && multiset(s.pool.validated.Keys) == multiset(s.pool.idle) + AllHeld(s.tasks)
    && (forall i :: 0 <= i < |s.tasks| && s.tasks[i].Put? ==> |s.pool.idle| < s.pool.maxSize)
    && (forall i :: 0 <= i < |s.tasks| && s.tasks[i].Undo? ==> s.pool.created > 0)
  }

  lemma PoolSafety(start: State, schedule: Schedule)
    requires Constructed(start)
    ensures Safe(Run(start, schedule))
  {
    hide Run, MarksFresh;
    IdleThreads(start.tasks);
    StartsFresh(start);
    RunInv(start, schedule);
    var s := Run(start, schedule);
    forall i | 0 <= i < |s.tasks| ensures Slots(s.tasks[i]) <= AllSlots(s.tasks) {
      OneOfAll(s.tasks, i);
    }
  }

  // Once closed, a pool stays closed and never opens another connection.
  lemma {:induction false} NoGrowthAfterClose(s: State, schedule: Schedule)
    requires s.pool.closed
    ensures Run(s, schedule).pool.closed
    ensures Run(s, schedule).pool.created <= s.pool.created
    decreases |schedule|
  {
    if schedule != [] { NoGrowthAfterClose(Step(s, schedule[0].0, schedule[0].1), schedule[1..]); }
  }

  // ---- When close leaves a connection behind ----

  // A thread that has read `_closed` as false and is about to put its connection back.
  predicate PastCheck(t: Task) { t.Refresh? || t.Put? }

  // The closing thread is still inside close().
  predicate Closing(t: Task) { t == Shut || (t.Shed? && t.k == ToShut) || (t.Undo? && t.k == ToShut) }

  ghost predicate NoLateReturn(s: State, closer: nat) {
    && closer < |s.tasks| && s.pool.closed
    && (forall j :: 0 <= j < |s.tasks| ==> !PastCheck(s.tasks[j]))
    && (Closing(s.tasks[closer]) || s.pool.idle == [])
  }

  lemma LateReturnStep(s: State, closer: nat, i: nat, ch: Choice)
    requires NoLateReturn(s, closer)
    ensures NoLateReturn(Step(s, i, ch), closer)
  {
    if i < |s.tasks| {
      var (q, u) := Move(s.pool, s.tasks[i], ch);
      assert !PastCheck(s.tasks[i]);
      assert q.closed && !PastCheck(u) && (s.pool.idle == [] ==> q.idle == []);
      assert Closing(s.tasks[i]) ==> Closing(u) || q.idle == [];
    }
  }

  lemma {:induction false} ClosedStaysEmpty(s: State, closer: nat, schedule: Schedule)
    requires NoLateReturn(s, closer)
    ensures NoLateReturn(Run(s, schedule), closer)
    decreases |schedule|
  {
    hide NoLateReturn, Step;
    if schedule != [] {
      var (i, ch) := schedule[0];
      LateReturnStep(s, closer, i, ch);
      ClosedStaysEmpty(Step(s, i, ch), closer, schedule[1..]);
    }
  }

  ghost predicate Strands(s: State, closer: nat, schedule: Schedule) {
    var end := Run(s, schedule);
    closer < |end.tasks| && !Closing(end.tasks[closer]) && end.pool.idle != []
  }

  lemma {:induction false} RunAppend(s: State, a: Schedule, b: Schedule)
    ensures Run(s, a + b) == Run(Run(s, a), b)
    decreases |a|
  {
    if a == [] {
      assert a + b == b;
    } else {
      assert (a + b)[1..] == a[1..] + b;
      RunAppend(Step(s, a[0].0, a[0].1), a[1..], b);
    }
  }

  // Left alone, the closing thread empties the queue and returns.
  lemma {:induction false} CloserFinishes(s: State, closer: nat) returns (schedule: Schedule)
    requires closer < |s.tasks| && s.tasks[closer] == Shut
    ensures var end := Run(s, schedule);
            end.pool.idle == [] && end.pool.maxSize == s.pool.maxSize && end.tasks == s.tasks[closer := Out]
    decreases |s.pool.idle|
  {
    var go := (closer, Fast);
    var s1 := Step(s, closer, Fast);
    if s.pool.idle == [] {
      schedule := [go];
      assert Run(s, [go]) == Run(s1, []);
    } else {
      var s2 := Step(s1, closer, Fast);
      var s3 := Step(s2, closer, Fast);
      assert s3.tasks == s.tasks;
      var rest := CloserFinishes(s3, closer);
      schedule := [go] + ([go] + ([go] + rest));
      assert Run(s, schedule) == Run(s1, [go] + ([go] + rest));
      assert Run(s1, [go] + ([go] + rest)) == Run(s2, [go] + rest);
      assert Run(s2, [go] + rest) == Run(s3, rest);
    }
  }

  lemma PutStrands(s: State, j: nat) returns (schedule: Schedule)
    requires j < |s.tasks| && PastCheck(s.tasks[j]) && s.pool.idle == [] && s.pool.maxSize > 0
    ensures var end := Run(s, schedule);
            end.pool.idle != [] && |end.tasks| == |s.tasks|
            && forall i :: 0 <= i < |s.tasks| && i != j ==> end.tasks[i] == s.tasks[i]
  {
    var s1 := Step(s, j, Fast);
    if s.tasks[j].Put? {
      schedule := [(j, Fast)];
      assert Run(s, schedule) == Run(s1, []);
    } else {
      var s2 := Step(s1, j, Fast);
      schedule := [(j, Fast), (j, Fast)];
      assert Run(s, schedule) == Run(s1, [(j, Fast)]);
      assert Run(s1, [(j, Fast)]) == Run(s2, []);
    }
  }

  // close() can return and leave an idle connection open afterwards exactly when, at the moment
  // it set the flag, some thread had already passed its own closed check.
  lemma StrandedIff(s: State, closer: nat)
    requires closer < |s.tasks| && s.pool.closed && s.tasks[closer] == Shut && s.pool.maxSize > 0
    ensures (exists schedule :: Strands(s, closer, schedule))
       <==> (exists j :: 0 <= j < |s.tasks| && PastCheck(s.tasks[j]))
  {
    if j :| 0 <= j < |s.tasks| && PastCheck(s.tasks[j]) {
      var first := CloserFinishes(s, closer);
      var mid := Run(s, first);
      var second := PutStrands(mid, j);
      RunAppend(s, first, second);
      assert Strands(s, closer, first + second);
    } else {
      forall schedule ensures !Strands(s, closer, schedule) {
        ClosedStaysEmpty(s, closer, schedule);
      }
    }
  }

  // Two threads on a new pool of one: the first opens a connection, uses it and passes its check.
  function TwoThreads(): State { State(Pool(0, 1, [], 0, false, map[]), [Out, Out]) }

  function OpenOne(rest: Schedule): Schedule {
    [(0, Acquire)] + ([(0, Fast)] + ([(0, Fast)] + ([(0, Yes(7, 0))] + rest)))
  }

  function ReturnThenClose(): Schedule {
    OpenOne([(0, Fast)] + ([(0, Fast)] + ([(0, Fast)] + ([(1, Close)] + []))))
  }

  lemma RunStep(s: State, i: nat, ch: Choice, rest: Schedule, next: State)
    requires Step(s, i, ch) == next
    ensures Run(s, [(i, ch)] + rest) == Run(next, rest)
  {
    assert ([(i, ch)] + rest)[1..] == rest;
  }

  lemma OpensOne(rest: Schedule)
    ensures Run(TwoThreads(), OpenOne(rest)) == Run(State(Pool(0, 1, [], 1, false, map[]), [Mark(7, false), Out]), rest)
  {
    hide Run;
    var p := TwoThreads().pool;
    var asked, missed := State(p, [Get, Out]), State(p, [Miss, Out]);
    var opening, marked := State(p.(created := 1), [Connect(false), Out]), State(p.(created := 1), [Mark(7, false), Out]);
    RunStep(TwoThreads(), 0, Acquire, [(0, Fast)] + ([(0, Fast)] + ([(0, Yes(7, 0))] + rest)), asked);
    RunStep(asked, 0, Fast, [(0, Fast)] + ([(0, Yes(7, 0))] + rest), missed);
    RunStep(missed, 0, Fast, [(0, Yes(7, 0))] + rest, opening);
    assert NewObject(opening, 7);
    RunStep(opening, 0, Yes(7, 0), rest, marked);
  }

  lemma ReturnThenCloseEnds()
    ensures Run(TwoThreads(), ReturnThenClose())
         == State(Pool(0, 1, [], 1, true, map[7 := 0]), [Refresh(7), Shut])
  {
    hide Run;
    var p := Pool(0, 1, [], 1, false, map[7 := 0]);
    var used, left, checked := State(p, [Use(7), Out]), State(p, [Leave(7), Out]), State(p, [Refresh(7), Out]);
    var closed := State(p.(closed := true), [Refresh(7), Shut]);
    OpensOne([(0, Fast)] + ([(0, Fast)] + ([(0, Fast)] + ([(1, Close)] + []))));
    RunStep(State(p.(validated := map[]), [Mark(7, false), Out]), 0, Fast,
            [(0, Fast)] + ([(0, Fast)] + ([(1, Close)] + [])), used);
    RunStep(used, 0, Fast, [(0, Fast)] + ([(1, Close)] + []), left);
    RunStep(left, 0, Fast, [(1, Close)] + [], checked);
    RunStep(checked, 1, Close, [], closed);
    RunNothing(closed);
  }

  lemma RunNothing(s: State)
    ensures Run(s, []) == s
  {}

  // From a new pool a connection can outlive close.
  lemma StrandingHappens()
    ensures Constructed(TwoThreads())
    ensures exists schedule :: Strands(Run(TwoThreads(), ReturnThenClose()), 1, schedule)
  {
    hide Run, Strands, Step;
    ReturnThenCloseEnds();
    var end := Run(TwoThreads(), ReturnThenClose());
    assert PastCheck(end.tasks[0]);
    StrandedIff(end, 1);
  }

  // ================ Reuse ================

  // The queue is a stack: the next thread that asks gets the connection returned last.
  lemma NewestIsReused(p: Pool, c: Conn, give: Choice, take: Choice)
    requires |p.idle| < p.maxSize
    ensures var (q, t) := Move(p, Put(c, ToOut), give);
            t == Out && Move(q, Get, take).1 == Probe(c) && Move(q, Get, take).0 == p
  {
    assert (p.idle + [c])[..|p.idle|] == p.idle;
  }

  // ================ What a caller is given, and what is discarded ================

  // A thread comes to use a connection exactly by taking one that passed its check or by opening one.
  lemma LentIff(p: Pool, t: Task, ch: Choice, c: Conn)
    ensures Move(p, t, ch).1 == Use(c) <==> (t == Probe(c) && !ch.No?) || t == Mark(c, false)
  {}

  // It discards a connection exactly when the check fails, the caller raised, the connection came back
  // broken or to a closed pool, maintenance found it bad or the pool closed, or close() took it.
  lemma DiscardedIff(p: Pool, t: Task, ch: Choice, c: Conn)
    ensures (exists k :: Move(p, t, ch).1 == Shed(c, k)) <==>
              || (ch.No? && (t == Probe(c) || t == Use(c)))
              || ((ch.No? || p.closed) && t == Leave(c))
              || (ch.No? && t.Sweep? && t.todo != [] && t.todo[0] == c)
              || (p.closed && ((t.Restore? && t.good != [] && t.good[0] == c) || t == Fresh(c)))
              || (t == Shut && p.idle != [] && p.idle[|p.idle| - 1] == c)
  {
    hide MarkValidated, Reserve, Unreserve;
    var u := Move(p, t, ch).1;
    if u.Shed? { assert u == Shed(u.c, u.k); }
    if t.Sweep? && t.todo != [] && ch.No? { assert u == Shed(t.todo[0], ToSweep(t.todo[1..], t.good)); }
    if t.Restore? && t.good != [] && p.closed { assert u == Shed(t.good[0], ToRestore(t.good[1..])); }
  }

  // A thread opens a connection exactly when the queue was empty and the pool has room, and the pool
  // is not closed.
  lemma OpensIff(p: Pool, ch: Choice)
    ensures Move(p, Get, ch).1 == Miss <==> p.idle == []
    ensures Move(p, Miss, ch).1 == Connect(false) <==> !p.closed && p.created < p.maxSize
    ensures Move(p, Fill, ch).1 == FillReserve <==> !p.closed && p.created < p.minSize
  {}

  // Thread i is closing c, or c is closed and unknown to the pool.
  ghost predicate Doomed(s: State, i: nat, c: Conn) {
    || (i < |s.tasks| && s.tasks[i].Shed? && s.tasks[i].c == c)
    || (c !in s.pool.validated && forall j :: 0 <= j < |s.tasks| && s.tasks[j].Mark? ==> s.tasks[j].c != c)
  }

  // The driver does not open an object of that identity.
  predicate Unopened(schedule: Schedule, c: Conn) { forall k :: 0 <= k < |schedule| && schedule[k].1.Yes? ==> schedule[k].1.c != c }

  lemma {:induction false} HeldOnce(tasks: seq<Task>, i: nat, j: nat, c: Conn)
    requires i < j < |tasks| && c in Held(tasks[i]) && c in Held(tasks[j])
    ensures AllHeld(tasks)[c] >= 2
  {
    hide Held;
    if i == 0 {
      OneOfAll(tasks[1..], j - 1);
      assert multiset(Held(tasks[0]))[c] >= 1 && multiset(Held(tasks[1..][j - 1]))[c] >= 1;
    } else {
      HeldOnce(tasks[1..], i - 1, j - 1, c);
    }
  }

  // A connection a thread holds is held by no other and not in the queue.
  lemma HeldAlone(s: State, i: nat, c: Conn)
    requires Conserved(s) && i < |s.tasks| && c in Held(s.tasks[i])
    ensures c !in s.pool.idle && forall j :: 0 <= j < |s.tasks| && j != i ==> c !in Held(s.tasks[j])
  {
    hide Held;
    OneOfAll(s.tasks, i);
    assert multiset(Held(s.tasks[i]))[c] >= 1;
    assert multiset(s.pool.validated.Keys)[c] <= 1;
    assert c in s.pool.idle ==> multiset(s.pool.idle)[c] >= 1;
    forall j | 0 <= j < |s.tasks| && j != i ensures c !in Held(s.tasks[j]) {
      if c in Held(s.tasks[j]) { if i < j { HeldOnce(s.tasks, i, j, c); } else { HeldOnce(s.tasks, j, i, c); } }
    }
  }

  lemma UnknownIsNowhere(s: State, c: Conn)
    requires Conserved(s) && c !in s.pool.validated
    ensures c !in s.pool.idle && forall j :: 0 <= j < |s.tasks| ==> c !in Held(s.tasks[j])
  {
    hide Held;
    assert multiset(s.pool.validated.Keys)[c] == 0;
    assert c in s.pool.idle ==> multiset(s.pool.idle)[c] >= 1;
    forall j | 0 <= j < |s.tasks| ensures c !in Held(s.tasks[j]) { HeldIsRecorded(s, j); }
  }

  lemma MoveDooms(p: Pool, t: Task, ch: Choice, c: Conn)
    requires c !in Held(t) && c !in p.idle && (t.Mark? ==> t.c != c) && (ch.Yes? ==> ch.c != c)
    ensures var (q, u) := Move(p, t, ch);
            (c !in p.validated ==> c !in q.validated) && (u.Mark? ==> u.c != c)
  {}

  lemma DoomedStep(s: State, i: nat, c: Conn, j: nat, ch: Choice)
    requires Inv(s) && Doomed(s, i, c) && (ch.Yes? ==> ch.c != c)
    ensures Doomed(Step(s, j, ch), i, c)
  {
    hide Move, Conserved, Held;
    if j < |s.tasks| {
      assert Inv(s) ==> Conserved(s) && MarksFresh(s);
      if c !in s.pool.validated {
        UnknownIsNowhere(s, c);
        if !s.tasks[j].Mark? || s.tasks[j].c != c { MoveDooms(s.pool, s.tasks[j], ch, c); }
        if i < |s.tasks| && s.tasks[i].Shed? && s.tasks[i].c == c { ShedHolds(s.tasks[i]); }
      } else if j == i {
        ShedMoves(s.pool, s.tasks[i], ch);
      }
    }
  }

  lemma ShedHolds(t: Task)
    requires t.Shed?
    ensures t.c in Held(t)
  {}

  lemma ShedMoves(p: Pool, t: Task, ch: Choice)
    requires t.Shed?
    ensures t.c !in Move(p, t, ch).0.validated && !Move(p, t, ch).1.Mark?
  {}

  lemma DoomedIsNotLent(s: State, i: nat, c: Conn)
    requires Inv(s) && Doomed(s, i, c)
    ensures c !in s.pool.idle && forall j :: 0 <= j < |s.tasks| ==> s.tasks[j] != Use(c)
  {
    assert Conserved(s);
    hide Conserved;
    if c !in s.pool.validated {
      UnknownIsNowhere(s, c);
      assert Held(Use(c)) == [c];
    } else {
      ShedHolds(s.tasks[i]);
      HeldAlone(s, i, c);
      assert Held(Use(c)) == [c];
    }
  }

  // Once a thread is discarding a connection, which is where every failed check leads, no thread is
  // given it and it is never queued again, under any schedule that does not open it anew.
  lemma {:induction false} DiscardedStaysOut(s: State, i: nat, c: Conn, schedule: Schedule)
    requires Inv(s) && Doomed(s, i, c) && Unopened(schedule, c)
    ensures var end := Run(s, schedule);
            c !in end.pool.idle && forall j :: 0 <= j < |end.tasks| ==> end.tasks[j] != Use(c)
    decreases |schedule|
  {
    hide Step, Inv, Doomed;
    if schedule == [] {
      DoomedIsNotLent(s, i, c);
    } else {
      var (j, ch) := schedule[0];
      DoomedStep(s, i, c, j, ch);
      InvStep(s, j, ch);
      DiscardedStaysOut(Step(s, j, ch), i, c, schedule[1..]);
    }
  }

  // ================ A round of maintenance ================

  function Reversed(s: seq<Conn>): seq<Conn> { if s == [] then [] else [s[|s| - 1]] + Reversed(s[..|s| - 1]) }

  lemma {:induction false} DrainsAll(s: State, i: nat, found: seq<Conn>) returns (schedule: Schedule)
    requires i < |s.tasks| && s.tasks[i] == Drain(found)
    ensures Run(s, schedule) == State(s.pool.(idle := []), s.tasks[i := Sweep(found + Reversed(s.pool.idle), [])])
    decreases |s.pool.idle|
  {
    hide Run;
    var next := Step(s, i, Fast);
    if s.pool.idle == [] {
      assert found + Reversed([]) == found;
      schedule := [(i, Fast)] + [];
      RunNothing(next);
      RunStep(s, i, Fast, [], next);
    } else {
      var last := s.pool.idle[|s.pool.idle| - 1];
      var rest := DrainsAll(next, i, found + [last]);
      assert found + Reversed(s.pool.idle) == found + [last] + Reversed(next.pool.idle);
      schedule := [(i, Fast)] + rest;
      RunStep(s, i, Fast, rest, next);
    }
  }

  lemma ShedsOne(s: State, i: nat, todo: seq<Conn>, good: seq<Conn>)
    requires i < |s.tasks| && s.tasks[i] == Sweep(todo, good) && todo != [] && s.pool.created > 0
    ensures Step(Step(Step(s, i, No), i, Fast), i, Fast)
         == State(s.pool.(created := s.pool.created - 1, validated := s.pool.validated - {todo[0]}),
                  s.tasks[i := Sweep(todo[1..], good)])
  {
    var shed := Step(s, i, No);
    assert shed == State(s.pool, s.tasks[i := Shed(todo[0], ToSweep(todo[1..], good))]);
    var undo := Step(shed, i, Fast);
    assert undo.tasks[i] == Undo(ToSweep(todo[1..], good));
  }

  lemma {:induction false} SweepsAll(s: State, i: nat, todo: seq<Conn>, good: seq<Conn>, healthy: Conn -> bool)
    returns (schedule: Schedule)
    requires i < |s.tasks| && s.tasks[i] == Sweep(todo, good) && s.pool.created >= |todo|
    ensures var end, kept := Run(s, schedule), Filter(todo, healthy);
            && end.tasks == s.tasks[i := Restore(good + kept)] && |kept| <= |todo|
            && end.pool == s.pool.(created := s.pool.created - (|todo| - |kept|), validated := end.pool.validated)
    decreases |todo|
  {
    hide Run, Filter;
    if todo == [] {
      var next := Step(s, i, Fast);
      FilterEmpty(healthy, todo);
      assert good + [] == good;
      schedule := [(i, Fast)] + [];
      RunNothing(next);
      RunStep(s, i, Fast, [], next);
    } else if healthy(todo[0]) {
      FilterHead(todo, healthy);
      var next := Step(s, i, Fast);
      var rest := SweepsAll(next, i, todo[1..], good + [todo[0]], healthy);
      assert good + Filter(todo, healthy) == (good + [todo[0]]) + Filter(todo[1..], healthy);
      schedule := [(i, Fast)] + rest;
      RunStep(s, i, Fast, rest, next);
    } else {
      FilterHead(todo, healthy);
      ShedsOne(s, i, todo, good);
      var shed := Step(s, i, No);
      var undo := Step(shed, i, Fast);
      var next := Step(undo, i, Fast);
      hide Step;
      var rest := SweepsAll(next, i, todo[1..], good, healthy);
      schedule := [(i, No)] + ([(i, Fast)] + ([(i, Fast)] + rest));
      RunStep(s, i, No, [(i, Fast)] + ([(i, Fast)] + rest), shed);
      RunStep(shed, i, Fast, [(i, Fast)] + rest, undo);
      RunStep(undo, i, Fast, rest, next);
    }
  }

  lemma FilterHead(s: seq<Conn>, p: Conn -> bool)
    requires s != []
    ensures Filter(s, p) == if p(s[0]) then [s[0]] + Filter(s[1..], p) else Filter(s[1..], p)
  {}

  lemma {:induction false} RestoresAll(s: State, i: nat, good: seq<Conn>) returns (schedule: Schedule)
    requires i < |s.tasks| && s.tasks[i] == Restore(good) && !s.pool.closed && |s.pool.idle| + |good| <= s.pool.maxSize
    ensures Run(s, schedule) == State(s.pool.(idle := s.pool.idle + good), s.tasks[i := Fill])
    decreases |good|
  {
    hide Run;
    var put := Step(s, i, Fast);
    if good == [] {
      assert s.pool.idle + good == s.pool.idle;
      schedule := [(i, Fast)] + [];
      RunNothing(put);
      RunStep(s, i, Fast, [], put);
    } else {
      var next := Step(put, i, Fast);
      var rest := RestoresAll(next, i, good[1..]);
      assert s.pool.idle + good == (s.pool.idle + [good[0]]) + good[1..];
      schedule := [(i, Fast)] + ([(i, Fast)] + rest);
      RunStep(s, i, Fast, [(i, Fast)] + rest, put);
      RunStep(put, i, Fast, rest, next);
    }
  }

  // Alone with an open pool, maintenance checks every idle connection once, closes the bad ones, frees
  // their slots and puts the others back; the queue, a stack, then holds them the other way round.
  lemma MaintenanceRound(s: State, i: nat, healthy: Conn -> bool) returns (schedule: Schedule)
    requires Conserved(s) && !s.pool.closed && i < |s.tasks| && s.tasks[i] == Out
    ensures var end, kept := Run(s, schedule), Filter(Reversed(s.pool.idle), healthy);
            && end.tasks == s.tasks[i := Fill] && end.pool.idle == kept && !end.pool.closed
            && end.pool.created == s.pool.created - (|s.pool.idle| - |kept|)
  {
    hide Run, Filter;
    ReversedLength(s.pool.idle);
    var entered := Step(s, i, Maintain);
    var drain := DrainsAll(entered, i, []);
    var drained := Run(entered, drain);
    var all := Reversed(s.pool.idle);
    assert [] + all == all;
    var sweep := SweepsAll(drained, i, all, [], healthy);
    var swept := Run(drained, sweep);
    assert [] + Filter(all, healthy) == Filter(all, healthy);
    var restore := RestoresAll(swept, i, Filter(all, healthy));
    schedule := [(i, Maintain)] + (drain + (sweep + restore));
    RunStep(s, i, Maintain, drain + (sweep + restore), entered);
    RunAppend(entered, drain, sweep + restore);
    RunAppend(drained, sweep, restore);
    assert [] + Filter(all, healthy) == Filter(all, healthy);
  }

  lemma {:induction false} ReversedLength(s: seq<Conn>)
    ensures |Reversed(s)| == |s|
  {
    if s != [] { ReversedLength(s[..|s| - 1]); }
  }
}
