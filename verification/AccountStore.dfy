// AnalyticsAuthStore of src/analytics_service/auth.py: the statements of each transaction, proved
// to be the operations of module Accounts. The clock value and the new token are arguments.
module AccountStore {
  import opened IsoTime
  import opened Wrappers
  import opened Accounts

  class AuthStore {
    const cfg: Config
    var users: seq<User>
    var sessions: map<string, Session>

    // An invalid expiration policy is refused.
    static method Open(cfg: Config) returns (r: Result<AuthStore>)
      ensures r.Ok? <==> ValidConfig(cfg)
      ensures r.Ok? ==> fresh(r.value) && r.value.cfg == cfg && r.value.State() == Store([], map[])
    {
      if cfg.company.absolute < cfg.company.idle { return Error("company"); }
      if cfg.internal.absolute < cfg.internal.idle { return Error("internal"); }
      var store := new AuthStore(cfg);
      r := Ok(store);
    }

    constructor (cfg: Config)
      ensures this.cfg == cfg && State() == Store([], map[])
    {
      this.cfg, users, sessions := cfg, [], map[];
    }

    function State(): Store
      reads this
    {
      Store(users, sessions)
    }

    // SELECT ... FROM analytics_users WHERE ...
    method Select(name: string, role: Option<Role>, company: Option<string>) returns (rows: seq<nat>)
      ensures rows == Matching(users, name, role, company)
      ensures forall i :: i in rows ==> i < |users|
    {
      rows := [];
      var i := 0;
      while i < |users|
        invariant i <= |users| && rows == Matching(users[..i], name, role, company)
      {
        assert users[..i + 1][..i] == users[..i];
        if Matches(users[i], name, role, company) { rows := rows + [i]; }
        i := i + 1;
      }
      assert users[..i] == users;
      MatchingRows(users, name, role, company);
    }

    method AuthenticateUser(name: string, password: string, role: Option<Role>, company: Option<string>,
                            now: Time, token: string)
      returns (login: Login)
      modifies this
      ensures (State(), login) == Authenticate(cfg, old(State()), now, name, password, role, company, token)
    {
      if company.Some? && role != Some(CompanyUser) { return Raised; }
      var rows := Select(name, role, company);
      if |rows| != 1 { return Rejected; }
      var i := rows[0];
      assert i in rows;
      MatchingRows(users, name, role, company);
      var row := users[i];
      var verified := row.password == password;
      var roleAllowed := role.None? || row.role == role.value;
      var locked := false;
      if row.lockedUntil.Some? {
        match row.lockedUntil.value {
          case At(t) => locked := t > now;
          case Garbled(text) => locked := text != "";
        }
      }
      if !row.active || locked || !verified || !roleAllowed {
        if !locked && row.active && !verified {
          var failedAttempts := row.failed + 1;
          var lockedUntil := None;
          if failedAttempts >= cfg.maxAttempts { lockedUntil := Some(At(now + cfg.lock)); }
          users := users[i := row.(failed := failedAttempts, lockedUntil := lockedUntil)];
        }
        return Rejected;
      }
      var policy := PolicyOf(cfg, row.role);
      var idleExpiresAt, absoluteExpiresAt := now + policy.idle, now + policy.absolute;
      users := users[i := row.(failed := 0, lockedUntil := None)];
      sessions := sessions[token := Session(i, PortalOf(row.role), row.role, row.company, now, now,
                                            At(idleExpiresAt), At(absoluteExpiresAt), false)];
      login := Granted(Principal(i, row.role, row.company, PortalOf(row.role), Min(idleExpiresAt, absoluteExpiresAt)));
    }

    method ResolveSession(token: string, portal: Option<Portal>, now: Time) returns (principal: Option<Principal>)
      modifies this`sessions
      ensures (State(), principal) == Resolve(cfg, old(State()), now, token, portal)
    {
      if token == "" || token !in sessions { return None; }
      var row := sessions[token];
      if row.user >= |users| { return None; }
      var user := users[row.user];
      if !user.active || row.revoked || row.role != user.role || row.company != user.company { return None; }
      if row.idleUntil.Garbled? || row.absoluteUntil.Garbled? { return None; }
      var idleExpiresAt, absoluteExpiresAt := row.idleUntil.time, row.absoluteUntil.time;
      if row.portal != PortalOf(user.role) || (portal.Some? && row.portal != portal.value)
         || idleExpiresAt <= now || absoluteExpiresAt <= now {
        return None;
      }
      var refreshed := Min(now + PolicyOf(cfg, user.role).idle, absoluteExpiresAt);
      var expires := Min(refreshed, absoluteExpiresAt);
      sessions := sessions[token := row.(lastSeen := now, idleUntil := At(refreshed))];
      principal := Some(Principal(row.user, user.role, user.company, row.portal, expires));
    }

    method RevokeSession(token: string, portal: Option<Portal>)
      modifies this`sessions
      ensures State() == Revoke(old(State()), token, portal)
    {
      if token == "" { return; }
      if token in sessions {
        var row := sessions[token];
        if row.user < |users| && portal.Some? && row.portal != portal.value { return; }
        sessions := sessions[token := row.(revoked := true)];
      }
    }

    method Target(name: string, company: Option<string>) returns (row: Option<nat>)
      ensures row == TargetRow(users, name, company) && (row.Some? ==> row.value < |users|)
    {
      var rows := Select(name, if company.None? then Some(InternalAdmin) else None, company);
      row := if |rows| == 1 then Some(rows[0]) else None;
      assert |rows| == 1 ==> rows[0] in rows;
    }

    method SetUserPassword(name: string, password: string, company: Option<string>) returns (ok: bool)
      modifies this
      ensures var r := SetPassword(cfg, old(State()), name, password, company);
              ok == r.Ok? && State() == Settle(old(State()), r)
    {
      if name == "" || |password| < cfg.minLength || |password| > 1024 { return false; }
      var row := Target(name, company);
      if row.None? { return false; }
      users := users[row.value := users[row.value].(password := password, failed := 0, lockedUntil := None)];
      sessions := RevokeAll(sessions, row.value);
      ok := true;
    }

    method SetUserActive(name: string, active: bool, company: Option<string>) returns (ok: bool)
      modifies this
      ensures var r := SetActive(old(State()), name, active, company);
              ok == r.Ok? && State() == Settle(old(State()), r)
    {
      if name == "" { return false; }
      var row := Target(name, company);
      if row.None? { return false; }
      users := users[row.value := users[row.value].(active := active)];
      if !active { sessions := RevokeAll(sessions, row.value); }
      ok := true;
    }

    method AddUser(name: string, password: string, role: Role, company: Option<string>) returns (ok: bool)
      modifies this`users
      ensures var r := CreateUser(cfg, old(State()), name, password, role, company);
              ok == r.Ok? && State() == Settle(old(State()), r)
    {
      if name == "" || role.InternalAdmin? != company.None? { return false; }
      if |password| < cfg.minLength || |password| > 1024 { return false; }
      var clashes := Select(name, Some(role), company);
      if clashes != [] { return false; }
      users := users + [User(name, role, company, password, true, 0, None)];
      ok := true;
    }

    method PruneExpired(now: Time) returns (removed: nat)
      modifies this`sessions
      ensures State() == Prune(old(State()), now)
      ensures removed == |old(sessions)| - |sessions|
    {
      var kept := map t | t in sessions && !Prunable(sessions[t], now) :: sessions[t];
      assert kept.Keys <= sessions.Keys;
      Fewer(kept.Keys, sessions.Keys);
      removed := |sessions| - |kept|;
      sessions := kept;
    }

    static lemma {:induction false} Fewer(a: set<string>, b: set<string>)
      requires a <= b
      ensures |a| <= |b|
    {
      if a != {} {
        var x :| x in a;
        Fewer(a - {x}, b - {x});
      }
    }
  }
}
