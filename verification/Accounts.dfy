// Logins, sliding sessions and lockout of src/analytics_service/auth.py, as operations on the two
// tables; module AccountStore holds the class. Times are microseconds, clocks never go back.
module Accounts {
  import opened IsoTime
  import opened TextOrder
  import opened Wrappers

  datatype Role = InternalAdmin | CompanyUser
  datatype Portal = InternalPortal | CompanyPortal

  // A timestamp column: the isoformat of a time, or text that datetime.fromisoformat rejects.
  datatype Stamp = At(time: Time) | Garbled(garbled: string)

  // `password` stands for its salted hash: verification succeeds on exactly this text.
  datatype User = User(name: string, role: Role, company: Option<string>, password: string,
                       active: bool, failed: nat, lockedUntil: Option<Stamp>)

  datatype Session = Session(user: nat, portal: Portal, role: Role, company: Option<string>,
                             created: Time, lastSeen: Time, idleUntil: Stamp, absoluteUntil: Stamp, revoked: bool)

  datatype Store = Store(users: seq<User>, sessions: map<string, Session>)

  // Durations in microseconds.
  datatype Policy = Policy(idle: Positive, absolute: Positive)
  datatype Config = Config(company: Policy, internal: Policy, maxAttempts: Positive, lock: Positive, minLength: nat)

  predicate ValidConfig(cfg: Config) {
    cfg.company.idle <= cfg.company.absolute && cfg.internal.idle <= cfg.internal.absolute
  }

  function PolicyOf(cfg: Config, role: Role): Policy { if role.CompanyUser? then cfg.company else cfg.internal }
  function PortalOf(role: Role): Portal { if role.CompanyUser? then CompanyPortal else InternalPortal }
  function Min(a: Time, b: Time): Time { if a < b then a else b }

  datatype Principal = Principal(user: nat, role: Role, company: Option<string>, portal: Portal, expires: Time)
  datatype Login = Raised | Rejected | Granted(principal: Principal)

  // ---- Rows ----

  predicate Matches(u: User, name: string, role: Option<Role>, company: Option<string>) {
    u.name == name && (role.Some? ==> u.role == role.value) && (company.Some? ==> u.company == company)
  }

  // Positions of the users a WHERE clause selects.
  function Matching(users: seq<User>, name: string, role: Option<Role>, company: Option<string>): seq<nat> {
    if users == [] then []
    else
      var n := |users| - 1;
      Matching(users[..n], name, role, company) + if Matches(users[n], name, role, company) then [n] else []
  }

  function TheRow(users: seq<User>, name: string, role: Option<Role>, company: Option<string>): Option<nat> {
    var rows := Matching(users, name, role, company);
    if |rows| == 1 then Some(rows[0]) else None
  }

  lemma {:induction false} MatchingRows(users: seq<User>, name: string, role: Option<Role>, company: Option<string>)
    ensures var rows := Matching(users, name, role, company);
            forall i :: i in rows ==> i < |users| && Matches(users[i], name, role, company)
  {
    if users != [] { MatchingRows(users[..|users| - 1], name, role, company); }
  }

  // _resolve_user_id: without a company, an internal administrator.
  function TargetRow(users: seq<User>, name: string, company: Option<string>): Option<nat> {
    if company.None? then TheRow(users, name, Some(InternalAdmin), None) else TheRow(users, name, None, company)
  }

  // ---- authenticate ----

  predicate Locked(u: User, now: Time) {
    match u.lockedUntil
    case None => false
    case Some(At(t)) => t > now
    case Some(Garbled(text)) => text != ""
  }

  function WrongAttempt(cfg: Config, u: User, now: Time): User {
    u.(failed := u.failed + 1,
       lockedUntil := if u.failed + 1 >= cfg.maxAttempts then Some(At(now + cfg.lock)) else None)
  }

  function NewSession(cfg: Config, i: nat, u: User, now: Time): Session {
    var policy := PolicyOf(cfg, u.role);
    Session(i, PortalOf(u.role), u.role, u.company, now, now, At(now + policy.idle), At(now + policy.absolute), false)
  }

  function Authenticate(cfg: Config, s: Store, now: Time, name: string, password: string,
                        role: Option<Role>, company: Option<string>, token: string): (Store, Login)
  {
    if company.Some? && role != Some(CompanyUser) then (s, Raised)
    else
      match TheRow(s.users, name, role, company)
      case None => (s, Rejected)
      case Some(i) =>
        if i >= |s.users| || !s.users[i].active || Locked(s.users[i], now) then (s, Rejected)
        else if s.users[i].password != password then
          (s.(users := s.users[i := WrongAttempt(cfg, s.users[i], now)]), Rejected)
        else
          var u := s.users[i];
          var session := NewSession(cfg, i, u, now);
          var policy := PolicyOf(cfg, u.role);
          (Store(s.users[i := u.(failed := 0, lockedUntil := None)], s.sessions[token := session]),
           Granted(Principal(i, u.role, u.company, session.portal, now + Min(policy.idle, policy.absolute))))
  }

  // ---- resolve_session ----

  // Everything resolve_session asks of a session except the portal its caller wants.
  predicate Usable(s: Store, now: Time, token: string) {
    && token != "" && token in s.sessions
    && var x := s.sessions[token];
       && x.user < |s.users|
       && s.users[x.user].active && !x.revoked
       && x.role == s.users[x.user].role && x.company == s.users[x.user].company
       && x.portal == PortalOf(x.role)
       && x.idleUntil.At? && x.absoluteUntil.At?
       && now < x.idleUntil.time && now < x.absoluteUntil.time
  }

  function Resolve(cfg: Config, s: Store, now: Time, token: string, portal: Option<Portal>): (Store, Option<Principal>) {
    if !Usable(s, now, token) || (portal.Some? && portal.value != s.sessions[token].portal) then (s, None)
    else
      var x := s.sessions[token];
      var expires := Min(now + PolicyOf(cfg, x.role).idle, x.absoluteUntil.time);
      (s.(sessions := s.sessions[token := x.(lastSeen := now, idleUntil := At(expires))]),
       Some(Principal(x.user, x.role, x.company, x.portal, expires)))
  }

  // ---- The operations that end sessions ----

  function Revoke(s: Store, token: string, portal: Option<Portal>): Store {
    if token == "" || token !in s.sessions then s
    else
      var x := s.sessions[token];
      if x.user < |s.users| && portal.Some? && x.portal != portal.value then s
      else s.(sessions := s.sessions[token := x.(revoked := true)])
  }

  function RevokeAll(sessions: map<string, Session>, user: nat): map<string, Session> {
    map t | t in sessions :: if sessions[t].user == user then sessions[t].(revoked := true) else sessions[t]
  }

  function SetPassword(cfg: Config, s: Store, name: string, password: string, company: Option<string>): Result<Store> {
    var row := TargetRow(s.users, name, company);
    if name == "" then Error("username")
    else if |password| < cfg.minLength || |password| > 1024 then Error("password")
    else if row.None? || row.value >= |s.users| then Error("user")
    else
      var u := s.users[row.value].(password := password, failed := 0, lockedUntil := None);
      Ok(Store(s.users[row.value := u], RevokeAll(s.sessions, row.value)))
  }

  function SetActive(s: Store, name: string, active: bool, company: Option<string>): Result<Store> {
    var row := TargetRow(s.users, name, company);
    if name == "" then Error("username")
    else if row.None? || row.value >= |s.users| then Error("user")
    else
      Ok(Store(s.users[row.value := s.users[row.value].(active := active)],
               if active then s.sessions else RevokeAll(s.sessions, row.value)))
  }

  // The two unique indexes: one internal user per name, one company user per company and name.
  function CreateUser(cfg: Config, s: Store, name: string, password: string, role: Role, company: Option<string>): Result<Store> {
    if name == "" then Error("username")
    else if role.InternalAdmin? != company.None? then Error("binding")
    else if |password| < cfg.minLength || |password| > 1024 then Error("password")
    else if Matching(s.users, name, Some(role), company) != [] then Error("exists")
    else Ok(s.(users := s.users + [User(name, role, company, password, true, 0, None)]))
  }

  // ---- prune_expired_sessions: a comparison of texts ----

  function Text(stamp: Stamp): string { if stamp.At? then Iso(stamp.time) else stamp.garbled }

  predicate Prunable(x: Session, now: Time) {
    NotAfter(Text(x.idleUntil), Iso(now)) || NotAfter(Text(x.absoluteUntil), Iso(now)) || x.revoked
  }

  function Prune(s: Store, now: Time): Store {
    s.(sessions := map t | t in s.sessions && !Prunable(s.sessions[t], now) :: s.sessions[t])
  }

  // ================ Runs ================

  // Times at which a token was issued and then accepted, and the role it was issued for.
  datatype Life = Life(role: Role, times: seq<Time>)

  datatype World = World(cfg: Config, store: Store, now: Time, lives: map<string, Life>)

  datatype Event =
    | Tick(micros: nat)
    | LogIn(name: string, password: string, wanted: Option<Role>, company: Option<string>, token: string)
    | Use(token: string, portal: Option<Portal>)
    | LogOut(token: string, portal: Option<Portal>)
    | ChangePassword(name: string, password: string, company: Option<string>)
    | Activate(name: string, active: bool, company: Option<string>)
    | Register(name: string, password: string, role: Role, company: Option<string>)
    | PruneSessions

  function Longest(cfg: Config): nat {
    var a, b := cfg.company.idle + cfg.company.absolute, cfg.internal.idle + cfg.internal.absolute;
    a + b + cfg.lock
  }

  // Every time the operations compute can still be written down (years up to 9999).
  predicate InEra(cfg: Config, now: Time) { Representable(now + Longest(cfg)) }

  datatype Observation = Quiet | LoggedIn(login: Login) | Resolved(principal: Option<Principal>)

  function Settle(s: Store, r: Result<Store>): Store { if r.Ok? then r.value else s }

  // A login draws a token that was never issued before; the clock stays within the era.
  function Act(w: World, e: Event): (World, Observation) {
    match e
    case Tick(d) => (if InEra(w.cfg, w.now + d) then w.(now := w.now + d) else w, Quiet)
    case LogIn(name, password, wanted, company, token) =>
      if token == "" || token in w.lives then (w, Quiet)
      else
        var (s, login) := Authenticate(w.cfg, w.store, w.now, name, password, wanted, company, token);
        var lives := if login.Granted? then w.lives[token := Life(login.principal.role, [w.now])] else w.lives;
        (w.(store := s, lives := lives), LoggedIn(login))
    case Use(token, portal) =>
      var (s, principal) := Resolve(w.cfg, w.store, w.now, token, portal);
      var lives := if principal.Some? && token in w.lives
                   then w.lives[token := w.lives[token].(times := w.lives[token].times + [w.now])] else w.lives;
      (w.(store := s, lives := lives), Resolved(principal))
    case LogOut(token, portal) => (w.(store := Revoke(w.store, token, portal)), Quiet)
    case ChangePassword(name, password, company) =>
      (w.(store := Settle(w.store, SetPassword(w.cfg, w.store, name, password, company))), Quiet)
    case Activate(name, active, company) =>
      (w.(store := Settle(w.store, SetActive(w.store, name, active, company))), Quiet)
    case Register(name, password, role, company) =>
      (w.(store := Settle(w.store, CreateUser(w.cfg, w.store, name, password, role, company))), Quiet)
    case PruneSessions => (w.(store := Prune(w.store, w.now)), Quiet)
  }

  function Step(w: World, e: Event): World { Act(w, e).0 }

  function Run(w: World, events: seq<Event>): World
    decreases |events|
  {
    if events == [] then w else Run(Step(w, events[0]), events[1..])
  }

  // ================ Sliding and absolute expiry over whole runs ================

  // Gaps below the idle limit, and everything before creation plus the absolute limit.
  predicate Spaced(cfg: Config, life: Life) {
    var policy := PolicyOf(cfg, life.role);
    && life.times != []
    && (forall i :: 0 < i < |life.times| ==>
          && life.times[i - 1] <= life.times[i] < life.times[i - 1] + policy.idle
          && life.times[i] < life.times[0] + policy.absolute)
  }

  // A stored session says exactly what its life so far implies.
  predicate Faithful(w: World, token: string)
    requires token in w.store.sessions
  {
    var x := w.store.sessions[token];
    && token != "" && token in w.lives && w.lives[token].times != []
    && var life := w.lives[token]; var policy := PolicyOf(w.cfg, life.role);
       && x.user < |w.store.users|
       && x.role == life.role == w.store.users[x.user].role
       && x.company == w.store.users[x.user].company && x.portal == PortalOf(x.role)
       && x.created == life.times[0] && x.lastSeen == life.times[|life.times| - 1]
       && x.created <= x.lastSeen <= w.now
       && x.absoluteUntil == At(x.created + policy.absolute)
       && x.idleUntil == At(Min(x.lastSeen + policy.idle, x.created + policy.absolute))
       && (!x.revoked ==> w.store.users[x.user].active)
  }

  ghost predicate Sound(w: World) {
    && ValidConfig(w.cfg) && InEra(w.cfg, w.now)
    && (forall t :: t in w.store.sessions ==> Faithful(w, t))
    && (forall t :: t in w.lives ==> Spaced(w.cfg, w.lives[t]))
  }

  // A login that is not granted only touches one user's counter; a granted one adds one session.
  ghost predicate LoginEffect(w: World, e: Event, v: World)
    requires e.LogIn?
  {
    && v.cfg == w.cfg && v.now == w.now && |v.store.users| == |w.store.users|
    && (forall i :: 0 <= i < |w.store.users| ==>
          && v.store.users[i].role == w.store.users[i].role && v.store.users[i].company == w.store.users[i].company
          && v.store.users[i].active == w.store.users[i].active)
    && ((v.store.sessions == w.store.sessions && v.lives == w.lives)
        || exists i :: 0 <= i < |w.store.users| && GrantsTo(w, e, v, i))
  }

  ghost predicate GrantsTo(w: World, e: Event, v: World, i: nat)
    requires e.LogIn? && i < |w.store.users|
  {
    var u := w.store.users[i];
    && u.active && e.token != "" && e.token !in w.lives
    && v.store.sessions == w.store.sessions[e.token := NewSession(w.cfg, i, u, w.now)]
    && v.lives == w.lives[e.token := Life(u.role, [w.now])]
  }

  lemma LoginEffects(w: World, e: Event)
    requires e.LogIn?
    ensures LoginEffect(w, e, Step(w, e))
  {
    hide TheRow, Matching, Matches, Locked, NewSession;
    var v := Step(w, e);
    var row := TheRow(w.store.users, e.name, e.wanted, e.company);
    if v.lives != w.lives { assert GrantsTo(w, e, v, row.value); }
  }

  lemma GrantSound(w: World, e: Event, v: World, i: nat, t: string)
    requires Sound(w) && e.LogIn? && LoginEffect(w, e, v) && i < |w.store.users| && GrantsTo(w, e, v, i)
    requires t in v.store.sessions
    ensures Faithful(v, t)
  {
    hide Representable, Spaced;
    if t in w.store.sessions { assert Faithful(w, t); }
  }

  lemma LogInSound(w: World, e: Event)
    requires Sound(w) && e.LogIn?
    ensures Sound(Step(w, e))
  {
    hide Representable, Step, GrantsTo, Faithful;
    LoginEffects(w, e);
    var v := Step(w, e);
    if v.store.sessions == w.store.sessions && v.lives == w.lives {
      forall t | t in v.store.sessions ensures Faithful(v, t) { StaysFaithful(w, v, t); }
    } else {
      var i :| 0 <= i < |w.store.users| && GrantsTo(w, e, v, i);
      forall t | t in v.store.sessions ensures Faithful(v, t) { GrantSound(w, e, v, i, t); }
      GrantSpaced(w, e, v, i);
    }
  }

  lemma StaysFaithful(w: World, v: World, t: string)
    requires t in w.store.sessions && Faithful(w, t) && v == w.(store := v.store)
    requires v.store.sessions == w.store.sessions && |v.store.users| == |w.store.users|
    requires forall i :: 0 <= i < |w.store.users| ==>
               && v.store.users[i].role == w.store.users[i].role && v.store.users[i].company == w.store.users[i].company
               && v.store.users[i].active == w.store.users[i].active
    ensures Faithful(v, t)
  {}

  lemma GrantSpaced(w: World, e: Event, v: World, i: nat)
    requires Sound(w) && e.LogIn? && v.cfg == w.cfg && i < |w.store.users| && GrantsTo(w, e, v, i)
    ensures forall t :: t in v.lives ==> Spaced(v.cfg, v.lives[t])
  {
    hide Representable, Faithful;
    forall t | t in v.lives ensures Spaced(v.cfg, v.lives[t]) {
      if t != e.token { assert Spaced(w.cfg, w.lives[t]); }
    }
  }

  lemma UseFaithful(w: World, e: Event, t: string)
    requires Sound(w) && e.Use? && t in Step(w, e).store.sessions
    ensures Faithful(Step(w, e), t)
  {
    hide Representable, Spaced;
    assert Faithful(w, t);
  }

  lemma SpacedUse(cfg: Config, life: Life, now: Time)
    requires Spaced(cfg, life) && life.times[|life.times| - 1] <= now
    requires now < life.times[|life.times| - 1] + PolicyOf(cfg, life.role).idle
    requires now < life.times[0] + PolicyOf(cfg, life.role).absolute
    ensures Spaced(cfg, life.(times := life.times + [now]))
  {
    var n, times := |life.times|, life.times + [now];
    var policy := PolicyOf(cfg, life.role);
    assert forall i :: 0 <= i < n ==> times[i] == life.times[i];
    forall i | 0 < i < |times|
      ensures times[i - 1] <= times[i] < times[i - 1] + policy.idle && times[i] < times[0] + policy.absolute
    {
      if i < n { assert life.times[i - 1] <= life.times[i] < life.times[i - 1] + policy.idle; }
    }
  }

  lemma UseSpaced(w: World, e: Event, t: string)
    requires Sound(w) && e.Use? && t in w.lives
    ensures Spaced(w.cfg, Step(w, e).lives[t])
  {
    hide Representable, Spaced;
    assert Spaced(w.cfg, w.lives[t]);
    if t == e.token && t in w.store.sessions {
      assert Faithful(w, t);
      if Usable(w.store, w.now, t) { SpacedUse(w.cfg, w.lives[t], w.now); }
    }
  }

  lemma UseSound(w: World, e: Event)
    requires Sound(w) && e.Use?
    ensures Sound(Step(w, e))
  {
    hide Representable, Spaced, Faithful, Resolve;
    var v := Step(w, e);
    forall t | t in v.store.sessions ensures Faithful(v, t) { UseFaithful(w, e, t); }
    forall t | t in v.lives ensures Spaced(v.cfg, v.lives[t]) { UseSpaced(w, e, t); }
  }

  // From `s` to `r` users keep their bindings, and sessions only disappear or are revoked; the
  // sessions of a user who is switched off are.
  ghost predicate Narrows(s: Store, r: Store) {
    && |s.users| <= |r.users|
    && (forall i :: 0 <= i < |s.users| ==>
          r.users[i].role == s.users[i].role && r.users[i].company == s.users[i].company)
    && (forall t :: t in r.sessions ==>
          && t in s.sessions
          && (r.sessions[t] == s.sessions[t] || r.sessions[t] == s.sessions[t].(revoked := true))
          && (!r.sessions[t].revoked && s.sessions[t].user < |s.users| && s.users[s.sessions[t].user].active ==>
                r.users[s.sessions[t].user].active))
  }

  lemma OthersNarrow(w: World, e: Event)
    requires !e.LogIn? && !e.Use? && !e.Tick?
    ensures Narrows(w.store, Step(w, e).store)
    ensures Step(w, e) == w.(store := Step(w, e).store)
  {
    hide TargetRow, Matching, Prunable;
  }

  lemma NarrowSound(w: World, s: Store)
    requires Sound(w) && Narrows(w.store, s)
    ensures Sound(w.(store := s))
  {
    hide Representable, Spaced;
    forall t | t in s.sessions ensures Faithful(w.(store := s), t) { assert Faithful(w, t); }
  }

  lemma TickSound(w: World, micros: nat)
    requires Sound(w)
    ensures Sound(Step(w, Tick(micros)))
  {
    hide Representable, Spaced;
    var v := Step(w, Tick(micros));
    forall t | t in v.store.sessions ensures Faithful(v, t) { assert Faithful(w, t); }
  }

  lemma StepSound(w: World, e: Event)
    requires Sound(w)
    ensures Sound(Step(w, e))
  {
    hide Step, Sound;
    match e {
      case LogIn(_, _, _, _, _) => LogInSound(w, e);
      case Use(_, _) => UseSound(w, e);
      case Tick(micros) => TickSound(w, micros);
      case _ =>
        OthersNarrow(w, e);
        NarrowSound(w, Step(w, e).store);
    }
  }

  lemma {:induction false} RunSound(w: World, events: seq<Event>)
    requires Sound(w)
    ensures Sound(Run(w, events))
    decreases |events|
  {
    hide Sound, Step;
    if events != [] {
      StepSound(w, events[0]);
      RunSound(Step(w, events[0]), events[1..]);
    }
  }

  // A store without sessions, whatever its users: every run keeps every session's life spaced.
  lemma SessionsExpire(w: World, events: seq<Event>, token: string)
    requires ValidConfig(w.cfg) && InEra(w.cfg, w.now) && w.store.sessions == map[] && w.lives == map[]
    ensures token in Run(w, events).lives ==> Spaced(w.cfg, Run(w, events).lives[token])
  {
    hide Step;
    RunSound(w, events);
    ConfigKept(w, events);
  }

  lemma {:induction false} ConfigKept(w: World, events: seq<Event>)
    ensures Run(w, events).cfg == w.cfg
    decreases |events|
  {
    if events != [] { ConfigKept(Step(w, events[0]), events[1..]); }
  }

  // ================ Once dead, always dead ================

  // Issued, and gone, revoked or past one of its two limits.
  predicate Dead(w: World, token: string) {
    && token in w.lives
    && (token in w.store.sessions ==>
          var x := w.store.sessions[token];
          var policy := PolicyOf(w.cfg, x.role);
          x.revoked || x.created + policy.absolute <= w.now || x.lastSeen + policy.idle <= w.now)
  }

  // An issued session resolves exactly while it is not dead, for callers of its own portal.
  lemma ResolvesIff(w: World, token: string, portal: Option<Portal>)
    requires Sound(w) && token in w.lives
    ensures Resolve(w.cfg, w.store, w.now, token, portal).1.Some? <==>
              !Dead(w, token) && token in w.store.sessions && (portal.None? || portal.value == w.store.sessions[token].portal)
  {
    hide Representable, Spaced;
    if token in w.store.sessions { assert Faithful(w, token); }
  }

  lemma NarrowDead(w: World, s: Store, token: string)
    requires Dead(w, token) && Narrows(w.store, s)
    ensures Dead(w.(store := s), token)
  {}

  lemma BusyDead(w: World, e: Event, token: string)
    requires Sound(w) && Dead(w, token) && (e.LogIn? || e.Use? || e.Tick?)
    ensures Dead(Step(w, e), token)
  {
    hide Representable, Spaced, TheRow, Faithful;
    if e.Use? && e.token == token { ResolvesIff(w, token, e.portal); }
  }

  lemma DeadStep(w: World, e: Event, token: string)
    requires Sound(w) && Dead(w, token)
    ensures Dead(Step(w, e), token)
  {
    hide Sound, Dead, Step;
    if e.LogIn? || e.Use? || e.Tick? {
      BusyDead(w, e, token);
    } else {
      OthersNarrow(w, e);
      NarrowDead(w, Step(w, e).store, token);
    }
  }

  lemma {:induction false} DeadForever(w: World, events: seq<Event>, token: string, portal: Option<Portal>)
    requires Sound(w) && Dead(w, token)
    ensures var v := Run(w, events);
            Dead(v, token) && Resolve(v.cfg, v.store, v.now, token, portal).1.None?
    decreases |events|
  {
    hide Sound, Dead, Step;
    if events == [] {
      DeadIsIssued(w, token);
      ResolvesIff(w, token, portal);
    } else {
      StepSound(w, events[0]);
      DeadStep(w, events[0], token);
      DeadForever(Step(w, events[0]), events[1..], token, portal);
    }
  }

  lemma DeadIsIssued(w: World, token: string)
    requires Dead(w, token)
    ensures token in w.lives
  {}

  // A password change or a deactivation that finds its user kills all sessions of that user.
  lemma OwnerChangesKill(w: World, e: Event, token: string)
    requires Sound(w) && token in w.store.sessions
    requires e.ChangePassword? || (e.Activate? && !e.active)
    requires if e.ChangePassword? then SetPassword(w.cfg, w.store, e.name, e.password, e.company).Ok?
             else SetActive(w.store, e.name, false, e.company).Ok?
    requires TargetRow(w.store.users, e.name, e.company) == Some(w.store.sessions[token].user)
    ensures Dead(Step(w, e), token)
  {
    hide Representable, TargetRow;
    assert Faithful(w, token);
  }

  // A logout kills its session unless it comes from another portal, and only then.
  lemma LogOutKills(w: World, token: string, portal: Option<Portal>)
    requires Sound(w) && token in w.lives
    ensures Dead(Step(w, LogOut(token, portal)), token) <==>
              Dead(w, token) || portal.None? || (token in w.store.sessions && portal.value == w.store.sessions[token].portal)
  {
    if token in w.store.sessions { assert Faithful(w, token); }
  }

  // ================ Pruning is invisible ================

  function Observe(w: World, events: seq<Event>): seq<Observation>
    decreases |events|
  {
    if events == [] then []
    else
      (if events[0].PruneSessions? then [] else [Act(w, events[0]).1]) + Observe(Step(w, events[0]), events[1..])
  }

  function WithoutPrunes(events: seq<Event>): seq<Event> {
    if events == [] then []
    else (if events[0].PruneSessions? then [] else [events[0]]) + WithoutPrunes(events[1..])
  }

  // `pruned` lacks only sessions that are dead in `full`.
  ghost predicate Trimmed(pruned: World, full: World) {
    && pruned == full.(store := full.store.(sessions := pruned.store.sessions))
    && (forall t :: t in pruned.store.sessions ==> t in full.store.sessions && pruned.store.sessions[t] == full.store.sessions[t])
    && (forall t :: t in full.store.sessions && t !in pruned.store.sessions ==> Dead(full, t))
  }

  lemma {:induction false} YearsAscend(a: nat, b: nat)
    requires a <= b
    ensures DateOf(a).year <= DateOf(b).year
  {
    hide DateOf;
    if a < b { DatesAscend(a, b); }
  }

  lemma EraCovers(cfg: Config, now: Time, t: Time)
    requires InEra(cfg, now) && t <= now + Longest(cfg)
    ensures Representable(t)
  {
    hide DateOf;
    assert Day(t) <= Day(now + Longest(cfg));
    YearsAscend(Day(t), Day(now + Longest(cfg)));
  }

  // The texts compared select exactly the dead sessions.
  lemma PrunedIsDead(w: World, token: string)
    requires Sound(w) && token in w.store.sessions
    ensures Prunable(w.store.sessions[token], w.now) <==> Dead(w, token)
    ensures token in Step(w, PruneSessions).store.sessions <==> !Dead(w, token)
  {
    hide Representable, Iso, Before, Spaced;
    assert Faithful(w, token);
    var x := w.store.sessions[token];
    EraCovers(w.cfg, w.now, w.now);
    EraCovers(w.cfg, w.now, x.idleUntil.time);
    EraCovers(w.cfg, w.now, x.absoluteUntil.time);
    IsoNotAfter(x.idleUntil.time, w.now);
    IsoNotAfter(x.absoluteUntil.time, w.now);
  }

  lemma TrimmedPrune(w: World, v: World)
    requires Sound(w) && Sound(v) && Trimmed(w, v)
    ensures Trimmed(Step(w, PruneSessions), v)
  {
    hide Sound, Prunable, Dead;
    forall t | t in w.store.sessions && Prunable(w.store.sessions[t], w.now) ensures Dead(v, t) {
      PrunedIsDead(v, t);
    }
  }

  lemma TrimmedUse(w: World, v: World, token: string, portal: Option<Portal>)
    requires Sound(w) && Sound(v) && Trimmed(w, v)
    ensures Covered(Step(w, Use(token, portal)), Step(v, Use(token, portal)))
    ensures Act(w, Use(token, portal)).1 == Act(v, Use(token, portal)).1
    ensures forall t :: t in Step(v, Use(token, portal)).store.sessions ==> t in v.store.sessions
    ensures forall t :: t in w.store.sessions ==> t in Step(w, Use(token, portal)).store.sessions
  {
    hide Sound, Dead, Representable;
    if token in v.store.sessions && token !in w.store.sessions {
      DeadIsIssued(v, token);
      ResolvesIff(v, token, portal);
    }
  }

  // What does not depend on the sessions that only `v` has.
  ghost predicate Covered(w: World, v: World) {
    && w == v.(store := v.store.(sessions := w.store.sessions))
    && (forall t :: t in w.store.sessions ==> t in v.store.sessions && w.store.sessions[t] == v.store.sessions[t])
  }

  lemma CoveredOther(w: World, v: World, e: Event)
    requires Covered(w, v) && !e.PruneSessions? && !e.Use?
    ensures Covered(Step(w, e), Step(v, e)) && Act(w, e).1 == Act(v, e).1
    ensures forall t :: t in Step(v, e).store.sessions ==> t in v.store.sessions || t in Step(w, e).store.sessions
    ensures forall t :: t in w.store.sessions ==> t in Step(w, e).store.sessions
  {
    hide Representable, TargetRow, Matching, Authenticate;
    if e.LogIn? {
      LoginAlike(w.cfg, w.store, v.store, w.now, e.name, e.password, e.wanted, e.company, e.token);
    }
  }

  // A login reads the users only, and at most adds the new session.
  lemma LoginAlike(cfg: Config, s: Store, r: Store, now: Time, name: string, password: string,
                   role: Option<Role>, company: Option<string>, token: string)
    requires s.users == r.users
    ensures var (s', login) := Authenticate(cfg, s, now, name, password, role, company, token);
            var (r', again) := Authenticate(cfg, r, now, name, password, role, company, token);
            && login == again && s'.users == r'.users
            && if login.Granted?
               then && token in s'.sessions && s'.sessions == s.sessions[token := s'.sessions[token]]
                    && r'.sessions == r.sessions[token := s'.sessions[token]]
               else s'.sessions == s.sessions && r'.sessions == r.sessions
  {
    hide TheRow, Locked, WrongAttempt, NewSession;
  }

  lemma TrimmedStep(w: World, v: World, e: Event)
    requires Sound(w) && Sound(v) && Trimmed(w, v) && !e.PruneSessions?
    ensures Trimmed(Step(w, e), Step(v, e)) && Act(w, e).1 == Act(v, e).1
  {
    hide Sound, Dead, Act;
    if e.Use? { TrimmedUse(w, v, e.token, e.portal); } else { CoveredOther(w, v, e); }
    var w', v' := Step(w, e), Step(v, e);
    forall t | t in v'.store.sessions && t !in w'.store.sessions ensures Dead(v', t) { DeadStep(v, e, t); }
  }

  // The same events with and without the prunes: every login and every resolve answers the same.
  lemma {:induction false} PruningIsInvisible(w: World, v: World, events: seq<Event>)
    requires Sound(w) && Sound(v) && Trimmed(w, v)
    ensures Observe(w, events) == Observe(v, WithoutPrunes(events))
    decreases |events|
  {
    hide Sound, Trimmed, Act, Step;
    if events != [] {
      var e, rest := events[0], events[1..];
      StepSound(w, e);
      if e.PruneSessions? {
        TrimmedPrune(w, v);
        PruningIsInvisible(Step(w, e), v, rest);
        assert [] + WithoutPrunes(rest) == WithoutPrunes(rest);
      } else {
        StepSound(v, e);
        TrimmedStep(w, v, e);
        PruningIsInvisible(Step(w, e), Step(v, e), rest);
        assert ([e] + WithoutPrunes(rest))[1..] == WithoutPrunes(rest);
      }
    }
  }

  // ================ Lockout ================

  // A successful login of user `i` or a password reset for it.
  predicate Resets(w: World, e: Event, i: nat) {
    || (e.LogIn? && Act(w, e).1.LoggedIn? && Act(w, e).1.login.Granted? && Act(w, e).1.login.principal.user == i)
    || (e.ChangePassword? && TargetRow(w.store.users, e.name, e.company) == Some(i)
        && SetPassword(w.cfg, w.store, e.name, e.password, e.company).Ok?)
  }

  predicate NeverResets(w: World, events: seq<Event>, i: nat)
    decreases |events|
  {
    events == [] || (!Resets(w, events[0], i) && NeverResets(Step(w, events[0]), events[1..], i))
  }

  predicate ResetsPassword(w: World, e: Event, i: nat) { e.ChangePassword? && Resets(w, e, i) }

  predicate NoPasswordReset(w: World, events: seq<Event>, i: nat)
    decreases |events|
  {
    events == [] || (!ResetsPassword(w, events[0], i) && NoPasswordReset(Step(w, events[0]), events[1..], i))
  }

  lemma LockedStep(w: World, e: Event, i: nat, until: Time)
    requires i < |w.store.users| && w.store.users[i].lockedUntil == Some(At(until)) && w.now < until
    requires !ResetsPassword(w, e, i)
    ensures !Resets(w, e, i) && |Step(w, e).store.users| >= |w.store.users|
    ensures Step(w, e).store.users[i].failed == w.store.users[i].failed
    ensures Step(w, e).store.users[i].lockedUntil == w.store.users[i].lockedUntil
  {
    hide Resets, Step;
    LockRefuses(w, e, i);
    CounterStep(w, e, i);
  }

  lemma LockRefuses(w: World, e: Event, i: nat)
    requires i < |w.store.users| && Locked(w.store.users[i], w.now) && !ResetsPassword(w, e, i)
    ensures !Resets(w, e, i)
  {
    hide Matching, TargetRow, WrongAttempt, Locked, NewSession, Usable;
  }

  lemma {:induction false} ClockAdvances(w: World, events: seq<Event>)
    ensures Run(w, events).now >= w.now
    decreases |events|
  {
    hide Step;
    if events != [] {
      UsersGrow(w, events[0]);
      ClockAdvances(Step(w, events[0]), events[1..]);
    }
  }

  // Until a lock runs out no password is accepted and nothing is counted, whatever is tried.
  lemma {:induction false} LockHolds(w: World, events: seq<Event>, i: nat, until: Time)
    requires i < |w.store.users| && w.store.users[i].lockedUntil == Some(At(until))
    requires Run(w, events).now < until && NoPasswordReset(w, events, i)
    ensures NeverResets(w, events, i) && CountedAt(w, events, i) == []
    decreases |events|
  {
    hide Step, Resets, ResetsPassword;
    ClockAdvances(w, events);
    if events != [] {
      LockedStep(w, events[0], i, until);
      LockHolds(Step(w, events[0]), events[1..], i, until);
    }
  }

  // The times at which a wrong password was counted against user `i`.
  function CountedAt(w: World, events: seq<Event>, i: nat): seq<Time>
    requires i < |w.store.users|
    decreases |events|
  {
    if events == [] then []
    else
      var v := Step(w, events[0]);
      if |v.store.users| < |w.store.users| then []
      else (if v.store.users[i].failed > w.store.users[i].failed then [w.now] else []) + CountedAt(v, events[1..], i)
  }

  lemma UsersGrow(w: World, e: Event)
    ensures |Step(w, e).store.users| >= |w.store.users|
    ensures Step(w, e).now >= w.now && Step(w, e).cfg == w.cfg
  {
    hide Matching, TargetRow, Usable, Representable;
  }

  // What a step that is not a reset can do to a user's counter and lock.
  lemma CounterStep(w: World, e: Event, i: nat)
    requires i < |w.store.users| && !Resets(w, e, i)
    ensures var u := w.store.users[i];
            |Step(w, e).store.users| >= |w.store.users| && var u' := Step(w, e).store.users[i];
            || (u'.failed == u.failed && u'.lockedUntil == u.lockedUntil)
            || (!Locked(u, w.now) && u'.failed == u.failed + 1 && u'.lockedUntil == WrongAttempt(w.cfg, u, w.now).lockedUntil)
  {
    hide Matching, TargetRow, Usable, Representable, Locked;
  }

  // A successful login and a password change both start the count again.
  lemma ResetClears(w: World, e: Event, i: nat)
    requires i < |w.store.users| && Resets(w, e, i)
    ensures |Step(w, e).store.users| >= |w.store.users|
    ensures Step(w, e).store.users[i].failed == 0 && Step(w, e).store.users[i].lockedUntil.None?
  {
    hide Matching, TargetRow, Usable, Representable, Locked, WrongAttempt, NewSession;
  }

  // After a reset the account is not locked before max_login_attempts wrong passwords were counted.
  lemma {:induction false} RoomBeforeLock(w: World, events: seq<Event>, i: nat)
    requires i < |w.store.users| && w.store.users[i].lockedUntil.None? && NeverResets(w, events, i)
    requires w.store.users[i].failed + |CountedAt(w, events, i)| < w.cfg.maxAttempts
    ensures var users := Run(w, events).store.users;
            i < |users| && users[i].lockedUntil.None? && users[i].failed == w.store.users[i].failed + |CountedAt(w, events, i)|
    decreases |events|
  {
    hide Step, Resets;
    if events != [] {
      var v := Step(w, events[0]);
      UsersGrow(w, events[0]);
      CounterStep(w, events[0], i);
      var hit := v.store.users[i].failed > w.store.users[i].failed;
      assert CountedAt(w, events, i) == (if hit then [w.now] else []) + CountedAt(v, events[1..], i);
      RoomBeforeLock(v, events[1..], i);
    }
  }

  // The earliest time for attempt number `n` (from 0) when attempt 0 was at `first`.
  function Earliest(cfg: Config, first: Time, n: nat): int {
    if n >= cfg.maxAttempts then first + (n - cfg.maxAttempts + 1) * cfg.lock else first
  }

  // `k` attempts counted since the first at `first`: the counter and the lock know it.
  predicate Ledger(w: World, i: nat, k: nat, first: Time) {
    && i < |w.store.users|
    && k <= w.store.users[i].failed && first <= w.now
    && (k >= w.cfg.maxAttempts ==>
          var until := w.store.users[i].lockedUntil;
          until.Some? && (until.value.At? ==> until.value.time >= Earliest(w.cfg, first, k))
          && (until.value.Garbled? ==> until.value.garbled != ""))
  }

  lemma LedgerHas(w: World, i: nat, k: nat, first: Time)
    requires Ledger(w, i, k, first)
    ensures i < |w.store.users|
  {}

  lemma LedgerStep(w: World, e: Event, i: nat, k: nat, first: Time)
    requires Ledger(w, i, k, first) && !Resets(w, e, i)
    ensures var v := Step(w, e);
            |v.store.users| >= |w.store.users| &&
            if v.store.users[i].failed > w.store.users[i].failed
            then Ledger(v, i, k + 1, first) && w.now >= Earliest(w.cfg, first, k)
            else Ledger(v, i, k, first)
  {
    hide Step, Resets;
    UsersGrow(w, e);
    CounterStep(w, e, i);
    var v := Step(w, e);
    var max, lock := w.cfg.maxAttempts, w.cfg.lock;
    if v.store.users[i].failed > w.store.users[i].failed && k + 1 >= max {
      assert (k + 1 - max + 1) * lock == (k - max + 1) * lock + lock;
    }
  }

  lemma {:induction false} CountedLater(w: World, events: seq<Event>, i: nat, k: nat, first: Time)
    requires Ledger(w, i, k, first) && NeverResets(w, events, i)
    ensures forall j :: 0 <= j < |CountedAt(w, events, i)| ==>
              CountedAt(w, events, i)[j] >= Earliest(w.cfg, first, k + j)
    decreases |events|
  {
    hide Step, Resets, Ledger, Earliest;
    if events != [] {
      var v := Step(w, events[0]);
      UsersGrow(w, events[0]);
      LedgerHas(w, i, k, first);
      LedgerStep(w, events[0], i, k, first);
      LedgerHas(v, i, if v.store.users[i].failed > w.store.users[i].failed then k + 1 else k, first);
      var hit := v.store.users[i].failed > w.store.users[i].failed;
      CountedLater(v, events[1..], i, if hit then k + 1 else k, first);
      var ts, later := CountedAt(w, events, i), CountedAt(v, events[1..], i);
      assert forall j :: 0 <= j < |later| ==> later[j] >= Earliest(v.cfg, first, (if hit then k + 1 else k) + j);
      assert ts == (if hit then [w.now] else []) + later;
      forall j | 0 <= j < |ts| ensures ts[j] >= Earliest(w.cfg, first, k + j) {
        if hit && j > 0 { assert later[j - 1] >= Earliest(v.cfg, first, (k + 1) + (j - 1)); }
      }
    }
  }

  // The attempt number k + max after the first one comes at least k locks after it.
  lemma {:induction false} AttemptsSpread(w: World, events: seq<Event>, i: nat)
    requires i < |w.store.users| && NeverResets(w, events, i)
    ensures var ts := CountedAt(w, events, i);
            forall j :: 0 <= j < |ts| ==> ts[j] >= Earliest(w.cfg, ts[0], j)
    decreases |events|
  {
    hide Step, Resets, Ledger;
    if events != [] {
      var v := Step(w, events[0]);
      UsersGrow(w, events[0]);
      CounterStep(w, events[0], i);
      if v.store.users[i].failed > w.store.users[i].failed {
        FirstAttempt(w, events[0], i);
        CountedLater(v, events[1..], i, 1, w.now);
        var ts := CountedAt(w, events, i);
        assert ts[0] == w.now && Earliest(w.cfg, w.now, 0) == w.now;
        forall j | 1 <= j < |ts| ensures ts[j] >= Earliest(w.cfg, ts[0], j) {
          assert ts[j] == CountedAt(v, events[1..], i)[j - 1];
        }
      } else {
        AttemptsSpread(v, events[1..], i);
        assert CountedAt(w, events, i) == CountedAt(v, events[1..], i);
      }
    }
  }

  lemma FirstAttempt(w: World, e: Event, i: nat)
    requires i < |w.store.users| && !Resets(w, e, i) && |Step(w, e).store.users| >= |w.store.users|
    requires Step(w, e).store.users[i].failed > w.store.users[i].failed
    ensures Ledger(Step(w, e), i, 1, w.now)
  {
    hide Step, Resets;
    UsersGrow(w, e);
    CounterStep(w, e, i);
    assert (1 - 1 + 1) * w.cfg.lock == w.cfg.lock;
  }

  // Within `span` of the first counted attempt, at most max + floor(span / lock) are counted.
  lemma LockoutBound(w: World, events: seq<Event>, i: nat, span: nat, n: nat)
    requires i < |w.store.users| && NeverResets(w, events, i)
    requires var ts := CountedAt(w, events, i); 0 < n <= |ts| && ts[n - 1] <= ts[0] + span
    ensures n <= w.cfg.maxAttempts + span / w.cfg.lock
  {
    hide CountedAt, NeverResets;
    AttemptsSpread(w, events, i);
    var max, lock := w.cfg.maxAttempts, w.cfg.lock;
    if n > max {
      assert (n - 1 - max + 1) * lock <= span;
      Quotient(n - max, lock, span);
    }
  }

  lemma Scaled(x: nat, y: nat, b: Positive)
    requires x <= y
    ensures x * b <= y * b
  {}

  lemma Quotient(a: nat, b: Positive, c: nat)
    requires a * b <= c
    ensures a <= c / b
  {
    var q := c / b;
    if a > q {
      Scaled(q + 1, a, b);
      assert false;
    }
  }
}
