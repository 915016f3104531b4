// Who src/analytics_service/auth.py lets in, and as whom: the answers of login, session resolution and
// the account operations, on the specification that module AccountStore implements.
module AccountIdentity {
  import opened Accounts
  import opened IsoTime
  import opened Wrappers

  // ================ Which row a request names ================

  // Row i has the name and, where asked for, the role and the company.
  predicate Named(users: seq<User>, i: nat, name: string, role: Option<Role>, company: Option<string>)
    requires i < |users|
  {
    && users[i].name == name
    && (role == None || role == Some(users[i].role))
    && (company == None || company == users[i].company)
  }

  ghost predicate OnlyRow(users: seq<User>, i: nat, name: string, role: Option<Role>, company: Option<string>) {
    && i < |users| && Named(users, i, name, role, company)
    && forall j :: 0 <= j < |users| && j != i ==> !Named(users, j, name, role, company)
  }

  lemma {:induction false} MatchingIff(users: seq<User>, name: string, role: Option<Role>, company: Option<string>)
    ensures var rows := Matching(users, name, role, company);
            && (forall k :: k in rows ==> k < |users| && Named(users, k, name, role, company))
            && (forall i, j :: 0 <= i < j < |rows| ==> rows[i] < rows[j])
            && (forall k: nat :: k < |users| && Named(users, k, name, role, company) ==> k in rows)
  {
    if users != [] {
      var n := |users| - 1;
      MatchingIff(users[..n], name, role, company);
      var rows, all := Matching(users[..n], name, role, company), Matching(users, name, role, company);
      LastMatches(users, name, role, company);
      hide Matching, Matches, Named;
      forall k | k in all ensures k < |users| && Named(users, k, name, role, company) {
        if k < n { assert k in rows; SameNamed(users, k, name, role, company); }
      }
      forall i, j | 0 <= i < j < |all| ensures all[i] < all[j] {
        assert all[i] == rows[i] && rows[i] in rows;
      }
      forall k: nat | k < n && Named(users, k, name, role, company) ensures k in all {
        SameNamed(users, k, name, role, company);
        assert k in rows;
      }
    }
  }

  lemma LastMatches(users: seq<User>, name: string, role: Option<Role>, company: Option<string>)
    requires users != []
    ensures var n := |users| - 1;
            Matching(users, name, role, company)
            == Matching(users[..n], name, role, company) + if Named(users, n, name, role, company) then [n] else []
  {}

  lemma SameNamed(users: seq<User>, k: nat, name: string, role: Option<Role>, company: Option<string>)
    requires k < |users| - 1
    ensures Named(users[..|users| - 1], k, name, role, company) == Named(users, k, name, role, company)
  {}

  lemma TheRowIff(users: seq<User>, name: string, role: Option<Role>, company: Option<string>, i: nat)
    ensures TheRow(users, name, role, company) == Some(i) <==> OnlyRow(users, i, name, role, company)
  {
    hide Matching, Named;
    var rows := Matching(users, name, role, company);
    MatchingIff(users, name, role, company);
    if |rows| > 1 {
      assert rows[0] < rows[1];
      var k := if rows[0] == i then rows[1] else rows[0];
      assert k in rows && k != i;
      assert !OnlyRow(users, i, name, role, company);
    } else if OnlyRow(users, i, name, role, company) {
      assert i in rows;
    }
    if |rows| == 1 && rows[0] == i {
      assert i in rows;
      forall j: nat | j < |users| && j != i ensures !Named(users, j, name, role, company) {
        assert j !in rows;
      }
    }
  }

  // ================ Login ================

  predicate Free(u: User, now: Time) {
    match u.lockedUntil
    case None => true
    case Some(At(t)) => t <= now
    case Some(Garbled(text)) => text == ""
  }

  // A login is granted exactly when the request names one account, which is active and not locked, with
  // its password; the session is that account's. A company may only be named for a company user.
  lemma GrantedIff(cfg: Config, s: Store, now: Time, name: string, password: string, role: Option<Role>,
                   company: Option<string>, token: string, i: nat)
    ensures var (after, login) := Authenticate(cfg, s, now, name, password, role, company, token);
            && (login.Raised? <==> company.Some? && role != Some(CompanyUser))
            && (login.Granted? && login.principal.user == i <==>
                  !login.Raised? && OnlyRow(s.users, i, name, role, company)
                  && s.users[i].active && Free(s.users[i], now) && s.users[i].password == password)
            && (login.Granted? && login.principal.user == i ==>
                  && login.principal.role == s.users[i].role && login.principal.company == s.users[i].company
                  && login.principal.portal == (if s.users[i].role == CompanyUser then CompanyPortal else InternalPortal)
                  && token in after.sessions && after.sessions[token].user == i && !after.sessions[token].revoked
                  && var policy := if s.users[i].role == CompanyUser then cfg.company else cfg.internal;
                     && after.sessions[token].idleUntil == At(now + policy.idle)
                     && after.sessions[token].absoluteUntil == At(now + policy.absolute))
  {
    hide TheRow, OnlyRow;
    TheRowIff(s.users, name, role, company, i);
    var row := TheRow(s.users, name, role, company);
    if row.Some? { TheRowIff(s.users, name, role, company, row.value); RowExists(s.users, name, role, company, row.value); }
    assert OnlyRow(s.users, i, name, role, company) ==> row == Some(i);
  }

  lemma RowExists(users: seq<User>, name: string, role: Option<Role>, company: Option<string>, i: nat)
    requires OnlyRow(users, i, name, role, company)
    ensures i < |users|
  {}

  // A wrong password counts against the one active, unlocked account named, and nothing else changes;
  // the attempt that fills the allowance locks it for the configured time.
  lemma WrongPasswordCounts(cfg: Config, s: Store, now: Time, name: string, password: string, role: Option<Role>,
                            company: Option<string>, token: string, i: nat)
    requires (company.Some? ==> role == Some(CompanyUser)) && OnlyRow(s.users, i, name, role, company)
    requires s.users[i].active && Free(s.users[i], now) && s.users[i].password != password
    ensures var (after, login) := Authenticate(cfg, s, now, name, password, role, company, token);
            && login == Rejected && after.sessions == s.sessions && |after.users| == |s.users|
            && (forall j :: 0 <= j < |s.users| && j != i ==> after.users[j] == s.users[j])
            && after.users[i].failed == s.users[i].failed + 1
            && after.users[i].lockedUntil == (if s.users[i].failed + 1 < cfg.maxAttempts then None else Some(At(now + cfg.lock)))
            && after.users[i] == s.users[i].(failed := after.users[i].failed, lockedUntil := after.users[i].lockedUntil)
  {
    hide TheRow;
    TheRowIff(s.users, name, role, company, i);
  }

  // ================ Sessions ================

  // A session that resolves answers for its account, as the account is now, until the idle limit from
  // now or the end of its life, and no other session is touched.
  lemma ResolvedIs(w: World, token: string, portal: Option<Portal>)
    requires Sound(w) && token in w.lives
    ensures var (after, p) := Resolve(w.cfg, w.store, w.now, token, portal);
            && after.users == w.store.users && after.sessions.Keys == w.store.sessions.Keys
            && (forall t :: t in w.store.sessions && t != token ==> after.sessions[t] == w.store.sessions[t])
            && (p.None? ==> after == w.store)
            && (p.Some? ==>
                  var x := w.store.sessions[token];
                  var u := w.store.users[x.user];
                  && p.value == Principal(x.user, u.role, u.company, PortalOf(u.role), p.value.expires)
                  && p.value.expires == Min(w.now + PolicyOf(w.cfg, u.role).idle, w.lives[token].times[0] + PolicyOf(w.cfg, u.role).absolute)
                  && after.sessions[token] == x.(lastSeen := w.now, idleUntil := At(p.value.expires)))
  {
    hide Representable, Spaced;
    if token in w.store.sessions { assert Faithful(w, token); }
  }

  // The account of a stored session never changes.
  ghost predicate SameOwners(w: World, v: World) {
    && (forall t :: t in w.lives ==> t in v.lives)
    && (forall t :: t in v.store.sessions && t in w.store.sessions ==>
          v.store.sessions[t].user == w.store.sessions[t].user && v.store.sessions[t].role == w.store.sessions[t].role
          && v.store.sessions[t].company == w.store.sessions[t].company)
    && (forall t :: t in v.store.sessions && t in w.lives ==> t in w.store.sessions)
  }

  lemma OwnersStep(w: World, e: Event)
    requires Sound(w)
    ensures SameOwners(w, Step(w, e))
  {
    hide Representable, Spaced, Act, TheRow, Narrows, LoginEffect;
    forall t | t in w.store.sessions ensures t in w.lives { assert Faithful(w, t); }
    if e.LogIn? {
      LoginEffects(w, e);
      LoginOwners(w, e, Step(w, e));
    } else if e.Use? {
      UseOwners(w, e.token, e.portal);
    } else if !e.Tick? {
      OthersNarrow(w, e);
      NarrowOwners(w, Step(w, e));
    } else {
      TickOwners(w, e.micros);
    }
  }

  lemma TickOwners(w: World, micros: nat)
    ensures SameOwners(w, Step(w, Tick(micros)))
  {}

  lemma LoginOwners(w: World, e: Event, v: World)
    requires e.LogIn? && LoginEffect(w, e, v) && forall t :: t in w.store.sessions ==> t in w.lives
    ensures SameOwners(w, v)
  {
    hide NewSession;
  }

  lemma UseOwners(w: World, token: string, portal: Option<Portal>)
    ensures SameOwners(w, Step(w, Use(token, portal)))
  {
    hide Usable;
    if token !in w.store.sessions { Unresolved(w.store, w.now, token); }
  }

  lemma Unresolved(s: Store, now: Time, token: string)
    requires token !in s.sessions
    ensures !Usable(s, now, token)
  {}

  lemma NarrowOwners(w: World, v: World)
    requires Narrows(w.store, v.store) && v.lives == w.lives
    ensures SameOwners(w, v)
  {}

  // Over every run: a token that still resolves, resolves to the account it was issued to.
  lemma {:induction false} OwnerKept(w: World, events: seq<Event>, token: string)
    requires Sound(w) && token in w.store.sessions && token in w.lives
    ensures var v := Run(w, events);
            token in v.lives
            && (token in v.store.sessions ==>
                  v.store.sessions[token].user == w.store.sessions[token].user
                  && v.store.sessions[token].company == w.store.sessions[token].company)
    decreases |events|
  {
    hide Sound, Step;
    if events != [] {
      var v := Step(w, events[0]);
      OwnersStep(w, events[0]);
      StepSound(w, events[0]);
      if token in v.store.sessions { OwnerKept(v, events[1..], token); } else { StaysGone(v, events[1..], token); }
    }
  }

  lemma {:induction false} StaysGone(w: World, events: seq<Event>, token: string)
    requires Sound(w) && token !in w.store.sessions && token in w.lives
    ensures token in Run(w, events).lives && token !in Run(w, events).store.sessions
    decreases |events|
  {
    hide Sound, Step;
    if events != [] {
      OwnersStep(w, events[0]);
      StepSound(w, events[0]);
      StaysGone(Step(w, events[0]), events[1..], token);
    }
  }

  // A logout, a password change, a deactivation or an activation spares every other session.
  lemma OthersSpared(w: World, e: Event, t: string)
    requires t in w.store.sessions
    requires match e
             case LogOut(token, _) => token != t
             case ChangePassword(name, _, company) => TargetRow(w.store.users, name, company) != Some(w.store.sessions[t].user)
             case Activate(name, active, company) => active || TargetRow(w.store.users, name, company) != Some(w.store.sessions[t].user)
             case _ => false
    ensures t in Step(w, e).store.sessions && Step(w, e).store.sessions[t] == w.store.sessions[t]
  {
    hide TargetRow;
  }

  // ================ Account operations ================

  ghost predicate Addressed(users: seq<User>, i: nat, name: string, company: Option<string>) {
    OnlyRow(users, i, name, if company.None? then Some(InternalAdmin) else None, company)
  }

  lemma TargetIff(users: seq<User>, name: string, company: Option<string>, i: nat)
    ensures TargetRow(users, name, company) == Some(i) <==> Addressed(users, i, name, company)
  {
    TheRowIff(users, name, if company.None? then Some(InternalAdmin) else None, company, i);
  }

  // A password is changed exactly for the one account addressed, when it is long enough and not too
  // long; it unlocks the account, and only the password, the counter and the lock change.
  lemma SetPasswordIff(cfg: Config, s: Store, name: string, password: string, company: Option<string>)
    ensures var r := SetPassword(cfg, s, name, password, company);
            && (r.Ok? <==> name != "" && cfg.minLength <= |password| <= 1024 && exists i: nat :: Addressed(s.users, i, name, company))
            && forall i: nat :: Addressed(s.users, i, name, company) && r.Ok? ==>
                 i < |s.users| && r.value.users == s.users[i := s.users[i].(password := password, failed := 0, lockedUntil := None)]
  {
    hide TargetRow, Addressed;
    var row := TargetRow(s.users, name, company);
    forall i: nat ensures Addressed(s.users, i, name, company) <==> row == Some(i) { TargetIff(s.users, name, company, i); }
    if row.Some? {
      assert Addressed(s.users, row.value, name, company);
      AddressedExists(s.users, row.value, name, company);
    }
  }

  lemma AddressedExists(users: seq<User>, i: nat, name: string, company: Option<string>)
    requires Addressed(users, i, name, company)
    ensures i < |users|
  {}

  lemma SetActiveIff(s: Store, name: string, active: bool, company: Option<string>)
    ensures var r := SetActive(s, name, active, company);
            && (r.Ok? <==> name != "" && exists i: nat :: Addressed(s.users, i, name, company))
            && forall i: nat :: Addressed(s.users, i, name, company) && r.Ok? ==>
                 i < |s.users| && r.value.users == s.users[i := s.users[i].(active := active)]
                 && (active ==> r.value.sessions == s.sessions)
  {
    hide TargetRow, Addressed;
    var row := TargetRow(s.users, name, company);
    forall i: nat ensures Addressed(s.users, i, name, company) <==> row == Some(i) { TargetIff(s.users, name, company, i); }
    if row.Some? {
      assert Addressed(s.users, row.value, name, company);
      AddressedExists(s.users, row.value, name, company);
    }
  }

  // An internal account is named once, a company account once in its company.
  ghost predicate Unique(users: seq<User>) {
    forall i, j :: 0 <= i < j < |users| ==>
      !(users[i].name == users[j].name && users[i].role == users[j].role && users[i].company == users[j].company)
  }

  ghost predicate Bound(users: seq<User>) {
    forall i :: 0 <= i < |users| ==> (users[i].role.InternalAdmin? <==> users[i].company.None?)
  }

  // An account is created exactly when its name is free, its role and company belong together and its
  // password is acceptable; it is then active, unlocked and the last one.
  lemma CreateUserIff(cfg: Config, s: Store, name: string, password: string, role: Role, company: Option<string>)
    requires Bound(s.users)
    ensures var r := CreateUser(cfg, s, name, password, role, company);
            && (r.Ok? <==>
                  && name != "" && (role.InternalAdmin? <==> company.None?) && cfg.minLength <= |password| <= 1024
                  && forall i :: 0 <= i < |s.users| ==>
                       !(s.users[i].name == name && s.users[i].role == role && s.users[i].company == company))
            && (r.Ok? ==> r.value == s.(users := s.users + [User(name, role, company, password, true, 0, None)]))
  {
    hide Matching, Named;
    SomeMatchIff(s.users, name, Some(role), company);
    forall i: nat | i < |s.users|
      ensures Named(s.users, i, name, Some(role), company) <==>
                s.users[i].name == name && s.users[i].role == role && (company == None || s.users[i].company == company)
    {
      NamedIs(s.users, i, name, role, company);
    }
  }

  lemma SomeMatchIff(users: seq<User>, name: string, role: Option<Role>, company: Option<string>)
    ensures Matching(users, name, role, company) != [] <==> exists i: nat :: i < |users| && Named(users, i, name, role, company)
  {
    var rows := Matching(users, name, role, company);
    MatchingIff(users, name, role, company);
    hide Matching, Named;
    if rows != [] { assert rows[0] in rows; }
  }

  lemma NamedIs(users: seq<User>, i: nat, name: string, role: Role, company: Option<string>)
    requires i < |users|
    ensures Named(users, i, name, Some(role), company) <==>
              users[i].name == name && users[i].role == role && (company == None || users[i].company == company)
  {}

  ghost predicate SameIdentities(a: seq<User>, b: seq<User>) {
    |a| == |b| && forall i :: 0 <= i < |a| ==> a[i].name == b[i].name && a[i].role == b[i].role && a[i].company == b[i].company
  }

  lemma IdentitiesStep(w: World, e: Event)
    requires !e.Register?
    ensures SameIdentities(w.store.users, Step(w, e).store.users)
  {
    hide TheRow, TargetRow, Prunable, NewSession, PolicyOf, Locked;
  }

  lemma {:induction false} NamesStayUnique(w: World, events: seq<Event>)
    requires Unique(w.store.users) && Bound(w.store.users)
    ensures Unique(Run(w, events).store.users) && Bound(Run(w, events).store.users)
    decreases |events|
  {
    hide Step;
    if events != [] {
      UniqueStep(w, events[0]);
      NamesStayUnique(Step(w, events[0]), events[1..]);
    }
  }

  lemma UniqueStep(w: World, e: Event)
    requires Unique(w.store.users) && Bound(w.store.users)
    ensures Unique(Step(w, e).store.users) && Bound(Step(w, e).store.users)
  {
    if e.Register? {
      hide CreateUser;
      CreateUserIff(w.cfg, w.store, e.name, e.password, e.role, e.company);
    } else {
      hide Step;
      IdentitiesStep(w, e);
    }
  }

  // So under unique names every account can be reached: its own name, role and company name it alone.
  lemma EveryAccountIsNamed(users: seq<User>, i: nat)
    requires Unique(users) && Bound(users) && i < |users|
    ensures TheRow(users, users[i].name, Some(users[i].role), users[i].company) == Some(i)
  {
    hide TheRow;
    var u := users[i];
    forall j | 0 <= j < |users| && j != i ensures !Named(users, j, u.name, Some(u.role), u.company) {
      assert users[i].name == users[j].name && users[i].role == users[j].role ==> users[i].company != users[j].company;
    }
    TheRowIff(users, u.name, Some(u.role), u.company, i);
  }
}
