/**
 The transactions of the auth and company sign-in packages as they change the
 shared tables, each proved to do what its function in Authority says. A
 transaction that fails half way restores the tables it began with.
 */
module AuthorityService {
  import opened Wrappers
  import opened Authority

  // ---------------------------------------------------- normalising role lists

  predicate Blank(role: Role) { role.OtherRole? && |role.name| == 0 }

  /** The roles a submitted list asks for: blank entries are skipped. */
  function Wanted(raw: seq<Role>): set<Role> { set r | r in raw && !Blank(r) :: r }

  lemma {:induction false} WantedSnoc(raw: seq<Role>, i: nat)
    requires i < |raw|
    ensures Wanted(raw[..i + 1]) == Wanted(raw[..i]) + (if Blank(raw[i]) then {} else {raw[i]})
  {
    assert raw[..i + 1] == raw[..i] + [raw[i]];
  }

  /** None when a role other than the three repository roles is named. */
  method NormalizeRoles(raw: seq<Role>) returns (roles: Option<set<Role>>)
    ensures roles.Some? <==> forall r :: r in Wanted(raw) ==> r.ValidForRepository()
    ensures roles.Some? ==> roles.value == Wanted(raw)
  {
    var seen := {};
    for i := 0 to |raw|
      invariant seen == Wanted(raw[..i])
      invariant forall r :: r in seen ==> r.ValidForRepository()
    {
      WantedSnoc(raw, i);
      if Blank(raw[i]) { continue; }
      if !raw[i].ValidForRepository() {
        assert raw[i] in Wanted(raw);
        return None;
      }
      seen := seen + {raw[i]};
    }
    assert raw[..|raw|] == raw;
    roles := Some(seen);
  }

  function Elements<T>(s: seq<T>): set<T> { set x | x in s }

  ghost predicate Distinct<T>(s: seq<T>) { forall i, j :: 0 <= i < j < |s| ==> s[i] != s[j] }

  lemma {:induction false} ElementsSnoc<T>(s: seq<T>, i: nat)
    requires i < |s|
    ensures Elements(s[..i + 1]) == Elements(s[..i]) + {s[i]}
  {
    assert s[..i + 1] == s[..i] + [s[i]];
  }

  lemma {:induction false} DistinctSize<T>(s: seq<T>)
    requires Distinct(s)
    ensures |Elements(s)| == |s|
  {
    if s != [] {
      var last := |s| - 1;
      DistinctSize(s[..last]);
      ElementsSnoc(s, last);
      assert s[..last + 1] == s;
      assert s[last] !in Elements(s[..last]);
    }
  }

  lemma {:induction false} AppendDistinct<T>(s: seq<T>, x: T)
    requires Distinct(s) && x !in Elements(s)
    ensures Distinct(s + [x]) && Elements(s + [x]) == Elements(s) + {x}
  {
    assert (s + [x])[..|s|] == s && (s + [x])[..|s| + 1] == s + [x];
    ElementsSnoc(s + [x], |s|);
  }

  /** A query's rows, each once, in the order the database returns them. */
  method Rows<T(==)>(found: set<T>) returns (rows: seq<T>)
    ensures Distinct(rows) && Elements(rows) == found
  {
    rows := [];
    var left := found;
    while left != {}
      invariant Distinct(rows) && Elements(rows) !! left && Elements(rows) + left == found
      decreases |left|
    {
      var x := Pick(left);
      left := left - {x};
      AppendDistinct(rows, x);
      rows := rows + [x];
    }
  }

  /** Validates each submitted repository role and drops repeats. */
  method NormalizeGrants(raw: seq<RepositoryRole>) returns (normalized: Option<seq<RepositoryRole>>)
    ensures normalized.Some? <==> ValidRoles(Elements(raw))
    ensures normalized.Some? ==>
              Distinct(normalized.value) && Elements(normalized.value) == Elements(raw)
              && |normalized.value| == |Elements(raw)|
  {
    var kept: seq<RepositoryRole> := [];
    for i := 0 to |raw|
      invariant Elements(kept) == Elements(raw[..i]) && Distinct(kept) && ValidRoles(Elements(raw[..i]))
    {
      ElementsSnoc(raw, i);
      if raw[i].0 <= 0 || !raw[i].1.ValidForRepository() {
        assert raw[i] in Elements(raw);
        return None;
      }
      if raw[i] in kept { continue; }
      AppendDistinct(kept, raw[i]);
      kept := kept + [raw[i]];
    }
    assert raw[..|raw|] == raw;
    DistinctSize(kept);
    normalized := Some(kept);
  }

  lemma {:induction false} StageRowsSnoc(id: int, roles: seq<RepositoryRole>, i: nat)
    requires i < |roles|
    ensures StageRows(id, Elements(roles[..i + 1])) == StageRows(id, Elements(roles[..i])) + {Staged(id, roles[i].0, roles[i].1)}
  {
    ElementsSnoc(roles, i);
    forall g ensures g in StageRows(id, Elements(roles[..i + 1]))
                     <==> g in StageRows(id, Elements(roles[..i])) || g == Staged(id, roles[i].0, roles[i].1) {
    }
  }

  lemma {:induction false} GrantedSnoc(grants: map<Grant, Attribution>, order: seq<Grant>, i: nat, attribution: Attribution)
    requires i < |order| && Distinct(order) && order[i] !in grants
    ensures Granted(grants, Elements(order[..i + 1]), attribution)
         == Granted(grants, Elements(order[..i]), attribution)[order[i] := attribution]
  {
    ElementsSnoc(order, i);
  }

  // ------------------------------------------------------------------- tables

  class Service {
    var users: map<int, User>
    var recovery: map<int, RecoveryToken>
    var invites: Invites
    var access: Access
    var company: Company
    var sessions: map<int, Session>

    function State(): Db
      reads this
    {
      Db(users, recovery, invites, access, company, sessions)
    }

    constructor (db: Db)
      ensures State() == db
    {
      users, recovery, invites := db.users, db.recovery, db.invites;
      access, company, sessions := db.access, db.company, db.sessions;
    }

    method Rollback(before: Db)
      modifies this
      ensures State() == before
    {
      users, recovery, invites := before.users, before.recovery, before.invites;
      access, company, sessions := before.access, before.company, before.sessions;
    }

    // ------------------------------------------------- shared by the transactions

    method DeleteSessionsOf(user: int)
      modifies this`sessions
      ensures sessions == WithoutSessionsOf(old(sessions), user)
    {
      sessions := map s | s in sessions && sessions[s].user != user :: sessions[s];
    }

    method InvalidateAuthorizedBy(authorizer: int)
      modifies this`invites
      ensures invites == old(invites).(rows := Invalidated(old(invites).rows, authorizer))
    {
      var rows := invites.rows;
      invites := invites.(rows := map i | i in rows ::
        (match rows[i]
         case Pending(email, name, _, _, admin, signer, expected) =>
           if signer == authorizer then NeedsReissue(email, name, admin, expected) else rows[i]
         case _ => rows[i]));
      assert invites.rows == Invalidated(rows, authorizer);
    }

    /** Shuts company sign-in off for good when it leans on this user. */
    method SecureCompany(user: int) returns (ok: bool)
      modifies this`company, this`sessions
      ensures var secured := Secured(old(State()), user);
              if ok then secured == Some(State()) else secured.None? && State() == old(State())
    {
      if company.identity.None? || company.identity.value.user != user { return true; }
      if company.connection.None? { return false; }
      var c := company.connection.value;
      if c.generation == MAX_INT64 { return false; }
      company := company.(connection := Some(c.(enabled := false, generation := c.generation + 1)));
      company := company.(links := map[]);
      company := company.(logins := map[]);
      sessions := map s | s in sessions && !sessions[s].company :: sessions[s];
      ok := true;
    }

    // --------------------------------------------------------------- accounts

    method InsertUser(id: int, email: string, name: string, hash: int, mustChange: bool, admin: bool)
      modifies this`users
      ensures users == old(users)[id := User(email, name, admin, false, Some(Credential(hash, mustChange)))]
    {
      users := users[id := User(email, name, admin, false, Some(Credential(hash, mustChange)))];
    }

    method InsertSession(id: int, user: int, fromCompany: bool, expiresAt: int)
      modifies this`sessions
      ensures sessions == old(sessions)[id := Session(user, fromCompany, expiresAt)]
    {
      sessions := sessions[id := Session(user, fromCompany, expiresAt)];
    }

    method CreateFirstAdmin(id: int, email: string, name: string, acceptable: bool, hash: int, session: int, expiresAt: int)
      returns (outcome: Outcome)
      modifies this
      ensures (State(), outcome)
           == Authority.CreateFirstAdmin(old(State()), id, email, name, acceptable, hash, session, expiresAt)
    {
      if !acceptable { return Refused(Validation); }
      if |users| > 0 { return Refused(Validation); }
      InsertUser(id, email, name, hash, false, true);
      InsertSession(session, id, false, expiresAt);
      outcome := Done;
    }

    method CreateUser(actor: int, id: int, email: string, name: string, acceptable: bool, hash: int) returns (outcome: Outcome)
      modifies this`users
      ensures (State(), outcome) == Authority.CreateUser(old(State()), actor, id, email, name, acceptable, hash)
    {
      if !acceptable { return Refused(Validation); }
      if !EnabledAdmin(users, actor) { return Refused(Unauthorized); }
      if EmailReserved(invites.rows, email) { return Refused(Validation); }
      if EmailTaken(users, email) { return Refused(Validation); }
      InsertUser(id, email, name, hash, true, false);
      outcome := Done;
    }

    method SetUserAdmin(actor: int, user: int, admin: bool) returns (outcome: Outcome)
      modifies this
      ensures (State(), outcome) == Authority.SetUserAdmin(old(State()), actor, user, admin)
    {
      if !EnabledAdmin(users, actor) { return Refused(Unauthorized); }
      if user !in users { return Refused(Validation); }
      var before, wasAdmin := State(), users[user].admin;
      users := users[user := users[user].(admin := admin)];
      if !admin {
        if !LocalAdminRemains(users) {
          Rollback(before);
          return Refused(Validation);
        }
        if wasAdmin {
          InvalidateAuthorizedBy(user);
          var ok := SecureCompany(user);
          if !ok {
            Rollback(before);
            return Refused(Exhausted);
          }
        }
      }
      outcome := Done;
    }

    method DisableUser(actor: int, user: int) returns (outcome: Outcome)
      modifies this
      ensures (State(), outcome) == Authority.DisableUser(old(State()), actor, user)
    {
      if !EnabledAdmin(users, actor) { return Refused(Unauthorized); }
      if user !in users { return Refused(Validation); }
      if users[user].disabled { return Refused(Validation); }
      var before := State();
      users := users[user := users[user].(disabled := true)];
      if !LocalAdminRemains(users) {
        Rollback(before);
        return Refused(Validation);
      }
      InvalidateAuthorizedBy(user);
      DeleteSessionsOf(user);
      recovery := recovery - {user};
      var ok := SecureCompany(user);
      if !ok {
        Rollback(before);
        return Refused(Exhausted);
      }
      outcome := Done;
    }

    method EnableUser(actor: int, user: int) returns (outcome: Outcome)
      modifies this`users
      ensures (State(), outcome) == Authority.EnableUser(old(State()), actor, user)
    {
      if !EnabledAdmin(users, actor) { return Refused(Unauthorized); }
      if user !in users || !users[user].disabled { return Refused(Validation); }
      users := users[user := users[user].(disabled := false)];
      outcome := Done;
    }

    /** The update lands only while the hash is still the one the old password was checked against. */
    method CommitPasswordChange(user: int, verified: int, hash: int, session: int, expiresAt: int) returns (outcome: Outcome)
      modifies this
      ensures (State(), outcome) == ChangePassword(old(State()), user, verified, hash, session, expiresAt)
    {
      if user !in users || users[user].disabled { return Refused(Validation); }
      var credential := users[user].credential;
      if credential.None? || credential.value.hash != verified { return Refused(Validation); }
      users := users[user := users[user].(credential := Some(Credential(hash, false)))];
      DeleteSessionsOf(user);
      recovery := recovery - {user};
      InsertSession(session, user, false, expiresAt);
      outcome := Done;
    }

    method ResetPassword(actor: int, user: int, acceptable: bool, hash: int) returns (outcome: Outcome)
      modifies this
      ensures (State(), outcome) == Authority.ResetPassword(old(State()), actor, user, acceptable, hash)
    {
      if actor == user { return Refused(Validation); }
      if !acceptable { return Refused(Validation); }
      if !EnabledAdmin(users, actor) { return Refused(Unauthorized); }
      if user !in users || users[user].credential.None? { return Refused(Validation); }
      var before := State();
      users := users[user := users[user].(credential := Some(Credential(hash, true)))];
      DeleteSessionsOf(user);
      recovery := recovery - {user};
      var ok := SecureCompany(user);
      if !ok {
        Rollback(before);
        return Refused(Exhausted);
      }
      outcome := Done;
    }

    /** Recovery also drops the user's company identity, and company sign-in with it. */
    method RemoveIdentity(user: int) returns (ok: bool)
      modifies this`company, this`sessions
      ensures var linked := old(company.identity.Some? && company.identity.value.user == user);
              if !linked then ok && State() == old(State())
              else if old(company.connection.None? || company.connection.value.generation == MAX_INT64) then !ok
              else ok && State() == ShutOff(old(State()).(company := old(company).(identity := None)))
    {
      if company.identity.None? || company.identity.value.user != user { return true; }
      company := company.(identity := None);
      if company.connection.None? { return false; }
      var c := company.connection.value;
      if c.generation == MAX_INT64 { return false; }
      company := company.(connection := Some(c.(enabled := false, generation := c.generation + 1)), links := map[], logins := map[]);
      sessions := map s | s in sessions && !sessions[s].company :: sessions[s];
      ok := true;
    }

    method CommitPasswordRecovery(user: int, digest: int, hash: int, now: int) returns (outcome: Outcome)
      modifies this
      ensures (State(), outcome) == RecoverPassword(old(State()), user, digest, hash, now)
    {
      if user !in recovery || recovery[user].digest != digest { return Refused(Invalid); }
      if user !in users || users[user].disabled { return Refused(Invalid); }
      var before := State();
      if recovery[user].expiresAt <= now { return Refused(Invalid); }
      recovery := recovery - {user};
      if users[user].credential.None? {
        Rollback(before);
        return Refused(Invalid);
      }
      users := users[user := users[user].(credential := Some(Credential(hash, false)))];
      DeleteSessionsOf(user);
      var ok := RemoveIdentity(user);
      if !ok {
        Rollback(before);
        return Refused(Exhausted);
      }
      outcome := Done;
    }

    // ------------------------------------------------------------- invitations

    method RepositoriesExist(roles: seq<RepositoryRole>) returns (ok: bool)
      requires ValidRoles(Elements(roles))
      ensures ok <==> KnownRepositories(access.repositories, Elements(roles))
    {
      var previous := 0;
      for i := 0 to |roles|
        invariant KnownRepositories(access.repositories, Elements(roles[..i]))
        invariant previous == 0 || previous in access.repositories
      {
        ElementsSnoc(roles, i);
        assert roles[i] in Elements(roles);
        if roles[i].0 == previous { continue; }
        if roles[i].0 !in access.repositories { return false; }
        previous := roles[i].0;
      }
      assert roles[..|roles|] == roles;
      ok := true;
    }

    method StageGrants(id: int, roles: seq<RepositoryRole>)
      modifies this`invites
      ensures invites == old(invites).(staged := old(invites).staged + StageRows(id, Elements(roles)))
    {
      for i := 0 to |roles|
        invariant invites == old(invites).(staged := old(invites).staged + StageRows(id, Elements(roles[..i])))
      {
        StageRowsSnoc(id, roles, i);
        invites := invites.(staged := invites.staged + {Staged(id, roles[i].0, roles[i].1)});
      }
      assert roles[..|roles|] == roles;
    }

    method DeleteStaged(id: int)
      modifies this`invites
      ensures invites == old(invites).(staged := Unstaged(old(invites).staged, id))
    {
      invites := invites.(staged := set g | g in invites.staged && g.invitation != id);
    }

    method CreateInvitation(
      actor: int, id: int, email: string, name: string, admin: bool, raw: seq<RepositoryRole>, acceptable: bool,
      digest: int, expiresAt: int) returns (outcome: Outcome)
      modifies this`invites
      ensures (State(), outcome)
           == Authority.CreateInvitation(old(State()), actor, id, Offer(email, name, admin, Elements(raw), acceptable), digest, expiresAt)
    {
      if !acceptable { return Refused(Validation); }
      var normalized := NormalizeGrants(raw);
      if normalized.None? { return Refused(Validation); }
      var roles := normalized.value;
      if !EnabledAdmin(users, actor) { return Refused(Unauthorized); }
      if EmailTaken(users, email) { return Refused(Validation); }
      if EmailReserved(invites.rows, email) { return Refused(Validation); }
      var known := RepositoriesExist(roles);
      if !known { return Refused(Validation); }
      invites := invites.(rows := invites.rows[id := Pending(email, name, digest, expiresAt, admin, actor, |roles|)]);
      StageGrants(id, roles);
      outcome := Done;
    }

    method ReissueInvitation(actor: int, id: int, admin: bool, raw: seq<RepositoryRole>, digest: int, expiresAt: int)
      returns (outcome: Outcome)
      modifies this`invites
      ensures (State(), outcome) == Authority.ReissueInvitation(old(State()), actor, id, admin, Elements(raw), digest, expiresAt)
    {
      var normalized := NormalizeGrants(raw);
      if normalized.None? { return Refused(Validation); }
      var roles := normalized.value;
      if !EnabledAdmin(users, actor) { return Refused(Unauthorized); }
      if id !in invites.rows { return Refused(Validation); }
      var row := invites.rows[id];
      if row.Accepted? || row.Cancelled? { return Refused(Validation); }
      if EmailTaken(users, row.email) { return Refused(Validation); }
      var known := RepositoriesExist(roles);
      if !known { return Refused(Validation); }
      DeleteStaged(id);
      StageGrants(id, roles);
      invites := invites.(rows := invites.rows[id := Pending(row.email, row.displayName, digest, expiresAt, admin, actor, |roles|)]);
      outcome := Done;
    }

    /** The staged roles whose repository still exists, each once. */
    method LoadSurviving(id: int) returns (roles: seq<RepositoryRole>)
      ensures Distinct(roles) && Elements(roles) == SurvivingRoles(State(), id)
    {
      var surviving := set g | g in invites.staged && g.invitation == id && g.repository in access.repositories :: (g.repository, g.role);
      assert surviving == SurvivingRoles(State(), id);
      roles := Rows(surviving);
    }

    method ReplaceInvitation(actor: int, id: int, newID: int, digest: int, expiresAt: int) returns (outcome: Outcome)
      modifies this`invites
      ensures (State(), outcome) == Authority.ReplaceInvitation(old(State()), actor, id, newID, digest, expiresAt)
    {
      if !EnabledAdmin(users, actor) { return Refused(Unauthorized); }
      if id !in invites.rows { return Refused(Validation); }
      var row := invites.rows[id];
      if row.Accepted? || row.Cancelled? { return Refused(Validation); }
      if EmailTaken(users, row.email) { return Refused(Validation); }
      var roles := LoadSurviving(id);
      DistinctSize(roles);
      DeleteStaged(id);
      invites := invites.(rows := invites.rows[id := Cancelled]);
      invites := invites.(rows := invites.rows[newID := Pending(row.email, row.displayName, digest, expiresAt, row.admin, actor, |roles|)]);
      StageGrants(newID, roles);
      outcome := Done;
    }

    method CancelInvitation(actor: int, id: int) returns (outcome: Outcome)
      modifies this`invites
      ensures (State(), outcome) == Authority.CancelInvitation(old(State()), actor, id)
    {
      if !EnabledAdmin(users, actor) { return Refused(Unauthorized); }
      if id !in invites.rows { return Refused(Validation); }
      if invites.rows[id].Accepted? || invites.rows[id].Cancelled? { return Refused(Validation); }
      DeleteStaged(id);
      invites := invites.(rows := invites.rows[id := Cancelled]);
      outcome := Done;
    }

    /** The rows staged for an invitation, each once; None when one is unusable. */
    method LoadStaged(id: int) returns (roles: Option<seq<RepositoryRole>>)
      ensures roles.Some? <==>
                forall r :: r in StagedFor(invites.staged, id) ==> r.0 in access.repositories && r.1.ValidForRepository()
      ensures roles.Some? ==> Distinct(roles.value) && Elements(roles.value) == StagedFor(invites.staged, id)
    {
      var found := Rows(StagedFor(invites.staged, id));
      for i := 0 to |found|
        invariant forall k :: 0 <= k < i ==> found[k].0 in access.repositories && found[k].1.ValidForRepository()
      {
        if found[i].0 !in access.repositories || !found[i].1.ValidForRepository() {
          assert found[i] in Elements(found);
          return None;
        }
      }
      roles := Some(found);
    }

    method ValidateAcceptance(id: int, now: int) returns (roles: Option<seq<RepositoryRole>>)
      requires id in invites.rows && invites.rows[id].Pending?
      ensures roles.Some? <==> Acceptable(State(), id, now)
      ensures roles.Some? ==> Distinct(roles.value) && Elements(roles.value) == StagedFor(invites.staged, id)
    {
      var row := invites.rows[id];
      if row.expiresAt <= now { return None; }
      if !EnabledAdmin(users, row.authorizer) { return None; }
      if EmailTaken(users, row.email) { return None; }
      var staged := LoadStaged(id);
      if staged.None? { return None; }
      DistinctSize(staged.value);
      if |staged.value| != row.expected { return None; }
      roles := staged;
    }

    /** The grants of an accepted invitation, one row each. */
    method InsertAcceptedGrants(order: seq<Grant>, attribution: Attribution)
      requires Distinct(order) && forall g :: g in order ==> g !in access.grants
      modifies this`access
      ensures access == old(access).(grants := Granted(old(access).grants, Elements(order), attribution))
    {
      assert access.grants == Granted(access.grants, Elements(order[..0]), attribution);
      for i := 0 to |order|
        invariant access == old(access).(grants := Granted(old(access).grants, Elements(order[..i]), attribution))
      {
        GrantedSnoc(old(access).grants, order, i, attribution);
        access := access.(grants := access.grants[order[i] := attribution]);
      }
      assert order[..|order|] == order;
    }

    method RecordAdded(order: seq<Grant>)
      modifies this`access
      ensures access == old(access).(events := old(access).events + AddedEvents(order))
    {
      assert access.events + [] == access.events;
      for i := 0 to |order|
        invariant access == old(access).(events := old(access).events + AddedEvents(order[..i]))
      {
        assert order[..i + 1][..i] == order[..i];
        assert old(access).events + AddedEvents(order[..i + 1]) == old(access).events + AddedEvents(order[..i]) + [GrantAdded(order[i])];
        access := access.(events := access.events + [GrantAdded(order[i])]);
      }
      assert order[..|order|] == order;
    }

    method GrantsOf(user: int, roles: seq<RepositoryRole>) returns (order: seq<Grant>)
      requires Distinct(roles)
      ensures Distinct(order) && Elements(order) == GrantsFor(user, Elements(roles)) && Orders(order, Elements(order))
      ensures forall g :: g in order ==> g.user == user
    {
      order := [];
      for i := 0 to |roles|
        invariant |order| == i && forall k :: 0 <= k < i ==> order[k] == Grant(roles[k].0, user, roles[k].1)
      {
        order := order + [Grant(roles[i].0, user, roles[i].1)];
      }
      forall g ensures g in order <==> g in GrantsFor(user, Elements(roles)) {
        if g in GrantsFor(user, Elements(roles)) {
          var r :| r in roles && g == Grant(r.0, user, r.1);
          var k :| 0 <= k < |roles| && roles[k] == r;
          assert order[k] == g;
        }
      }
    }

    /** `user` is the account's fresh id, so no grant names it yet. */
    method CommitAcceptance(id: int, digest: int, user: int, acceptable: bool, hash: int, now: int)
      returns (outcome: Outcome, order: seq<Grant>)
      requires forall g :: g in access.grants ==> g.user != user
      modifies this
      ensures Orders(order, GrantsFor(user, StagedFor(old(invites).staged, id))) || outcome != Done
      ensures (State(), outcome) == AcceptInvitation(old(State()), id, digest, user, order, acceptable, hash, now)
    {
      order := [];
      if !IsLink(invites.rows, id, digest) { return Refused(Invalid), []; }
      var row := invites.rows[id];
      var roles := ValidateAcceptance(id, now);
      if roles.None? { return Refused(Invalid), []; }
      if !acceptable { return Refused(Validation), []; }
      order := GrantsOf(user, roles.value);
      InsertUser(user, row.email, row.displayName, hash, false, row.admin);
      InsertAcceptedGrants(order, Attribution(row.authorizer, now));
      invites := invites.(rows := invites.rows[id := Accepted]);
      DeleteStaged(id);
      RecordAdded(order);
      outcome := Done;
    }

    // -------------------------------------------------------- repository grants

    method GrantRole(actor: int, g: Grant, now: int) returns (outcome: Outcome)
      modifies this`access
      ensures (State(), outcome) == Authority.GrantRole(old(State()), actor, g, now)
    {
      if !g.role.ValidForRepository() { return Refused(Validation); }
      if !EnabledAdmin(users, actor) { return Refused(Unauthorized); }
      if g.repository !in access.repositories { return Refused(Validation); }
      if g.user !in users { return Refused(Validation); }
      if g in access.grants { return Refused(Validation); }
      access := access.(grants := access.grants[g := Attribution(actor, now)]);
      access := access.(events := access.events + [GrantAdded(g)]);
      outcome := Done;
    }

    method RevokeRole(actor: int, g: Grant) returns (outcome: Outcome)
      modifies this`access
      ensures (State(), outcome) == Authority.RevokeRole(old(State()), actor, g)
    {
      if !g.role.ValidForRepository() { return Refused(Validation); }
      if !EnabledAdmin(users, actor) { return Refused(Unauthorized); }
      if g !in access.grants { return Refused(Validation); }
      access := access.(grants := access.grants - {g});
      access := access.(events := access.events + [GrantRevoked(g)]);
      outcome := Done;
    }

    /** One pass over the repository roles, comparing what the user held with what is wanted. */
    method ReplaceRoles(repository: int, user: int, desired: set<Role>, attribution: Attribution)
      modifies this`access
      ensures access == WithRoles(old(access), repository, user, desired, attribution, REPOSITORY_ROLES)
    {
      var held := set g | g in access.grants && g.repository == repository && g.user == user :: g.role;
      for i := 0 to |REPOSITORY_ROLES|
        invariant access == WithRoles(old(access), repository, user, desired, attribution, REPOSITORY_ROLES[..i])
        invariant forall k :: i <= k < |REPOSITORY_ROLES| ==>
                    (REPOSITORY_ROLES[k] in held <==> Grant(repository, user, REPOSITORY_ROLES[k]) in access.grants)
      {
        assert REPOSITORY_ROLES[..i + 1][..i] == REPOSITORY_ROLES[..i];
        var role := REPOSITORY_ROLES[i];
        var g := Grant(repository, user, role);
        if role !in held && role in desired {
          access := access.(grants := access.grants[g := attribution], events := access.events + [GrantAdded(g)]);
        } else if role in held && role !in desired {
          access := access.(grants := access.grants - {g}, events := access.events + [GrantRevoked(g)]);
        }
      }
      assert REPOSITORY_ROLES[..|REPOSITORY_ROLES|] == REPOSITORY_ROLES;
    }

    method SetRoles(actor: int, repository: int, user: int, raw: seq<Role>, now: int) returns (outcome: Outcome)
      modifies this`access
      ensures (State(), outcome) == Authority.SetRoles(old(State()), actor, repository, user, Wanted(raw), now)
    {
      var desired := NormalizeRoles(raw);
      if desired.None? { return Refused(Validation); }
      if !EnabledAdmin(users, actor) { return Refused(Unauthorized); }
      if repository !in access.repositories { return Refused(Validation); }
      if user !in users { return Refused(Validation); }
      ReplaceRoles(repository, user, desired.value, Attribution(actor, now));
      outcome := Done;
    }

    // --------------------------------------------------------- company sign-in

    method EditConnection(actor: int, encryption: bool, revision: int, draft: Draft) returns (outcome: Outcome)
      modifies this`company
      ensures (State(), outcome) == Authority.EditConnection(old(State()), actor, encryption, revision, draft)
    {
      if revision <= 0 || !draft.acceptable { return Refused(Validation); }
      if !encryption { return Refused(Configuration); }
      if !EnabledAdmin(users, actor) { return Refused(Unauthorized); }
      if company.connection.None? || company.connection.value.revision != revision { return Refused(Conflict); }
      var c := company.connection.value;
      if c.enabled { return Refused(ConnectionEnabled); }
      if draft.secret.None? && c.providerLabel == draft.providerLabel && c.issuer == draft.issuer && c.clientID == draft.clientID
         && c.domains == draft.domains {
        return Done;
      }
      if c.revision == MAX_INT64 || c.generation == MAX_INT64 { return Refused(Exhausted); }
      var secret := if draft.secret.Some? then draft.secret.value else c.secret;
      c := c.(revision := c.revision + 1, generation := c.generation + 1, issuer := draft.issuer, clientID := draft.clientID);
      c := c.(secret := secret, domains := draft.domains, providerLabel := draft.providerLabel, checkVerified := false, signInTested := false);
      company := company.(connection := Some(c));
      outcome := Done;
    }

    /** Flips the flag and steps the generation; turning off also ends logins and company sessions. */
    method SetEnabled(revision: int, enabled: bool) returns (outcome: Outcome)
      requires company.connection.Some?
      modifies this`company, this`sessions
      ensures var c := old(company).connection.value;
              if c.generation == MAX_INT64 then outcome == Refused(Exhausted) && State() == old(State())
              else
                && outcome == Done
                && company == old(company).(
                     connection := Some(c.(enabled := enabled, generation := c.generation + 1)),
                     logins := if enabled then old(company).logins else map[])
                && sessions == if enabled then old(sessions) else WithoutCompanySessions(old(sessions))
    {
      var c := company.connection.value;
      if c.generation == MAX_INT64 { return Refused(Exhausted); }
      company := company.(connection := Some(c.(enabled := enabled, generation := c.generation + 1)));
      if !enabled {
        company := company.(logins := map[]);
        sessions := map s | s in sessions && !sessions[s].company :: sessions[s];
      }
      outcome := Done;
    }

    method Enable(actor: int, encryption: bool, secretValid: bool, revision: int) returns (outcome: Outcome)
      modifies this`company, this`sessions
      ensures (State(), outcome) == Authority.Enable(old(State()), actor, encryption, secretValid, revision)
    {
      if !encryption { return Refused(Configuration); }
      if revision <= 0 { return Refused(Conflict); }
      if !EnabledAdmin(users, actor) { return Refused(Unauthorized); }
      if company.connection.None? { return Refused(Conflict); }
      var c := company.connection.value;
      if c.revision != revision || c.enabled { return Refused(Conflict); }
      if !c.checkVerified || !c.signInTested { return Refused(NotReady); }
      if !IdentityMatches(company) { return Refused(NotReady); }
      if !Eligible(users, company.identity.value.user) { return Refused(NotReady); }
      if !secretValid { return Refused(NotReady); }
      outcome := SetEnabled(revision, true);
    }

    method Disable(actor: int, revision: int) returns (outcome: Outcome)
      modifies this`company, this`sessions
      ensures (State(), outcome) == Authority.Disable(old(State()), actor, revision)
    {
      if revision <= 0 { return Refused(Conflict); }
      if !EnabledAdmin(users, actor) { return Refused(Unauthorized); }
      if company.connection.None? { return Refused(Conflict); }
      var c := company.connection.value;
      if c.revision != revision || !c.enabled { return Refused(Conflict); }
      outcome := SetEnabled(revision, false);
    }

    /** A found transaction is deleted before anything else is looked at. */
    method ClaimLink(digest: int, session: int, now: int) returns (claim: Option<LinkClaim>)
      modifies this`company
      ensures (State(), claim) == Authority.ClaimLink(old(State()), digest, session, now)
    {
      if digest !in company.links { return None; }
      var t := company.links[digest];
      company := company.(links := company.links - {digest});
      if now >= t.expiresAt || session != t.session { return None; }
      if !EnabledAdmin(users, t.actor) || !CredentialedSession(State(), t.actor, session, now) { return None; }
      if company.connection.None? || company.identity.Some? { return None; }
      var c := company.connection.value;
      if c.enabled || c.revision != t.revision || c.generation != t.generation || !c.ReadyEvidence() { return None; }
      claim := Some(LinkClaim(t.actor, session, c.issuer, c.clientID, c.secret, c.domains, c.revision, c.generation));
    }

    method CommitLink(claim: LinkClaim, subject: string, acceptable: bool, now: int) returns (outcome: Outcome)
      modifies this`company
      ensures (State(), outcome) == Authority.CommitLink(old(State()), claim, subject, acceptable, now)
    {
      if !acceptable { return Refused(Invalid); }
      if !EnabledAdmin(users, claim.actor) { return Refused(Invalid); }
      if !CredentialedSession(State(), claim.actor, claim.session, now) { return Refused(Invalid); }
      if company.connection.None? { return Refused(Invalid); }
      var c := company.connection.value;
      if c.enabled || c.revision != claim.revision || c.generation != claim.generation { return Refused(Invalid); }
      if c.issuer != claim.issuer || c.clientID != claim.clientID || c.secret != claim.secret || c.domains != claim.domains {
        return Refused(Invalid);
      }
      if !c.ReadyEvidence() || company.identity.Some? || c.generation == MAX_INT64 { return Refused(Invalid); }
      company := company.(identity := Some(Identity(claim.actor, c.issuer, c.clientID, c.revision, subject)));
      company := company.(connection := Some(c.(generation := c.generation + 1)), links := map[]);
      outcome := Done;
    }

    method Unlink(actor: int, session: int, revision: int, now: int) returns (outcome: Outcome)
      modifies this`company, this`sessions
      ensures (State(), outcome) == UnlinkIdentity(old(State()), actor, session, revision, now)
    {
      if revision <= 0 { return Refused(Conflict); }
      if !EnabledAdmin(users, actor) { return Refused(Unauthorized); }
      if !CredentialedSession(State(), actor, session, now) { return Refused(Unauthorized); }
      if company.connection.None? || company.connection.value.revision != revision { return Refused(Conflict); }
      var c := company.connection.value;
      if c.enabled { return Refused(ConnectionEnabled); }
      if company.identity.None? || company.identity.value.user != actor { return Refused(Conflict); }
      if c.generation == MAX_INT64 { return Refused(Exhausted); }
      sessions := map s | s in sessions && !(sessions[s].company && sessions[s].user == actor) :: sessions[s];
      company := company.(identity := None);
      company := company.(connection := Some(c.(generation := c.generation + 1)), links := map[], logins := map[]);
      outcome := Done;
    }

    // ---------------------------------------------------------------- sessions

    method ClaimLogin(digest: int, browser: int, now: int) returns (claim: Option<LoginClaim>)
      modifies this`company
      ensures (State(), claim) == Authority.ClaimLogin(old(State()), digest, browser, now)
    {
      if digest !in company.logins { return None; }
      var t := company.logins[digest];
      company := company.(logins := company.logins - {digest});
      if now >= t.expiresAt || browser != t.browser { return None; }
      if company.connection.None? || !company.connection.value.enabled { return None; }
      var c := company.connection.value;
      if c.revision != t.revision || c.generation != t.generation || !IdentityMatches(company) { return None; }
      claim := Some(LoginClaim(company.identity.value.user, t.revision, t.generation));
    }

    method CreateCompanySession(claim: LoginClaim, session: int, expiresAt: int) returns (outcome: Outcome)
      modifies this`sessions
      ensures (State(), outcome) == Authority.CreateCompanySession(old(State()), claim, session, expiresAt)
    {
      if !Eligible(users, claim.user) || company.connection.None? { return Refused(Invalid); }
      var c := company.connection.value;
      if !c.enabled || c.revision != claim.revision || c.generation != claim.generation { return Refused(Invalid); }
      if company.identity.None? || company.identity.value.user != claim.user { return Refused(Invalid); }
      InsertSession(session, claim.user, true, expiresAt);
      outcome := Done;
    }

    method LoadSession(session: int, now: int) returns (found: Option<Session>)
      modifies this`sessions
      ensures (State(), found) == Authority.LoadSession(old(State()), session, now)
    {
      if session !in sessions { return None; }
      var s := sessions[session];
      var stands := now < s.expiresAt && s.user in users && !users[s.user].disabled;
      if stands && s.company { stands := StillAuthorized(State(), s.user); }
      if !stands {
        sessions := sessions - {session};
        return None;
      }
      found := Some(s);
    }
  }
}
