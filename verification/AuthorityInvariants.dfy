/**
 What every account, invitation, grant and company sign-in transaction keeps:
 the invariants that make acceptance's and session loading's rechecks redundant.
 */
module AuthorityInvariants {
  import opened Wrappers
  import opened Authority

  datatype Op =
    | OpFirstAdmin(id: int, email: string, name: string, acceptable: bool, hash: int, session: int, expiresAt: int)
    | OpCreateUser(actor: int, id: int, email: string, name: string, acceptable: bool, hash: int)
    | OpSetAdmin(actor: int, user: int, admin: bool)
    | OpDisableUser(actor: int, user: int)
    | OpEnableUser(actor: int, user: int)
    | OpChangePassword(user: int, verified: int, hash: int, session: int, expiresAt: int)
    | OpResetPassword(actor: int, user: int, acceptable: bool, hash: int)
    | OpIssueRecovery(user: int, digest: int, expiresAt: int)
    | OpRecover(user: int, digest: int, hash: int, now: int)
    | OpInvite(actor: int, id: int, offer: Offer, digest: int, expiresAt: int)
    | OpReissue(actor: int, id: int, admin: bool, roles: set<RepositoryRole>, digest: int, expiresAt: int)
    | OpReplace(actor: int, id: int, newID: int, digest: int, expiresAt: int)
    | OpCancel(actor: int, id: int)
    | OpAccept(id: int, digest: int, user: int, order: seq<Grant>, acceptable: bool, hash: int, now: int)
    | OpGrant(actor: int, grant: Grant, now: int)
    | OpRevoke(actor: int, grant: Grant)
    | OpSetRoles(actor: int, repository: int, user: int, desired: set<Role>, now: int)
    | OpAddRepository(repository: int)
    | OpRemoveRepository(repository: int)
    | OpCreateConnection(actor: int, encryption: bool, draft: Draft)
    | OpEditConnection(actor: int, encryption: bool, revision: int, draft: Draft)
    | OpEvidence(revision: int, checkVerified: bool, signInTested: bool)
    | OpEnable(actor: int, encryption: bool, secretValid: bool, revision: int)
    | OpDisable(actor: int, revision: int)
    | OpStartLink(digest: int, link: LinkTransaction)
    | OpClaimLink(digest: int, session: int, now: int)
    | OpCommitLink(claim: LinkClaim, subject: string, acceptable: bool, now: int)
    | OpUnlink(actor: int, session: int, revision: int, now: int)
    | OpStartLogin(digest: int, login: LoginTransaction)
    | OpClaimLogin(digest: int, browser: int, now: int)
    | OpCompanySession(loginClaim: LoginClaim, session: int, expiresAt: int)
    | OpPasswordLogin(user: int, hash: int, session: int, expiresAt: int)
    | OpLoadSession(session: int, now: int)
    | OpLogout(session: int)

  function Apply(db: Db, op: Op): Db {
    match op
    case OpFirstAdmin(id, email, name, ok, hash, session, expiresAt) => CreateFirstAdmin(db, id, email, name, ok, hash, session, expiresAt).0
    case OpCreateUser(actor, id, email, name, ok, hash) => CreateUser(db, actor, id, email, name, ok, hash).0
    case OpSetAdmin(actor, user, admin) => SetUserAdmin(db, actor, user, admin).0
    case OpDisableUser(actor, user) => DisableUser(db, actor, user).0
    case OpEnableUser(actor, user) => EnableUser(db, actor, user).0
    case OpChangePassword(user, verified, hash, session, expiresAt) => ChangePassword(db, user, verified, hash, session, expiresAt).0
    case OpResetPassword(actor, user, ok, hash) => ResetPassword(db, actor, user, ok, hash).0
    case OpIssueRecovery(user, digest, expiresAt) => IssueRecovery(db, user, digest, expiresAt).0
    case OpRecover(user, digest, hash, now) => RecoverPassword(db, user, digest, hash, now).0
    case OpInvite(actor, id, offer, digest, expiresAt) => CreateInvitation(db, actor, id, offer, digest, expiresAt).0
    case OpReissue(actor, id, admin, roles, digest, expiresAt) => ReissueInvitation(db, actor, id, admin, roles, digest, expiresAt).0
    case OpReplace(actor, id, newID, digest, expiresAt) => ReplaceInvitation(db, actor, id, newID, digest, expiresAt).0
    case OpCancel(actor, id) => CancelInvitation(db, actor, id).0
    case OpAccept(id, digest, user, order, ok, hash, now) => AcceptInvitation(db, id, digest, user, order, ok, hash, now).0
    case OpGrant(actor, g, now) => GrantRole(db, actor, g, now).0
    case OpRevoke(actor, g) => RevokeRole(db, actor, g).0
    case OpSetRoles(actor, repository, user, desired, now) => SetRoles(db, actor, repository, user, desired, now).0
    case OpAddRepository(repository) => db.(access := db.access.(repositories := db.access.repositories + {repository}))
    case OpRemoveRepository(repository) => RemoveRepository(db, repository)
    case OpCreateConnection(actor, encryption, draft) => CreateConnection(db, actor, encryption, draft).0
    case OpEditConnection(actor, encryption, revision, draft) => EditConnection(db, actor, encryption, revision, draft).0
    case OpEvidence(revision, verified, tested) => RecordEvidence(db, revision, verified, tested).0
    case OpEnable(actor, encryption, secretValid, revision) => Enable(db, actor, encryption, secretValid, revision).0
    case OpDisable(actor, revision) => Disable(db, actor, revision).0
    case OpStartLink(digest, t) => StartLink(db, digest, t)
    case OpClaimLink(digest, session, now) => ClaimLink(db, digest, session, now).0
    case OpCommitLink(claim, subject, ok, now) => CommitLink(db, claim, subject, ok, now).0
    case OpUnlink(actor, session, revision, now) => UnlinkIdentity(db, actor, session, revision, now).0
    case OpStartLogin(digest, t) => StartLogin(db, digest, t)
    case OpClaimLogin(digest, browser, now) => ClaimLogin(db, digest, browser, now).0
    case OpCompanySession(claim, session, expiresAt) => CreateCompanySession(db, claim, session, expiresAt).0
    case OpPasswordLogin(user, hash, session, expiresAt) => PasswordLogin(db, user, hash, session, expiresAt).0
    case OpLoadSession(session, now) => LoadSession(db, session, now).0
    case OpLogout(session) => db.(sessions := db.sessions - {session})
  }

  /** What the database hands out fresh: user, invitation and session ids; and the order rows are inserted in. */
  ghost predicate Enabled(db: Db, op: Op) {
    match op
    case OpFirstAdmin(id, _, _, _, _, session, _) => id !in db.users && session !in db.sessions
    case OpCreateUser(_, id, _, _, _, _) => id !in db.users
    case OpChangePassword(_, _, _, session, _) => session !in db.sessions
    case OpInvite(_, id, _, _, _) => id !in db.invites.rows
    case OpReplace(_, id, newID, _, _) => newID !in db.invites.rows && newID != id
    case OpAccept(id, _, user, order, _, _, _) =>
      user !in db.users && Orders(order, GrantsFor(user, StagedFor(db.invites.staged, id)))
    case OpCompanySession(_, session, _) => session !in db.sessions
    case OpPasswordLogin(_, _, session, _) => session !in db.sessions
    case _ => true
  }

  // --------------------------------------------------------------- invariants

  ghost predicate UniqueEmails(users: map<int, User>) {
    forall u, v :: u in users && v in users && users[u].email == users[v].email ==> u == v
  }

  /** Who stands behind pending links, and which emails are spoken for. */
  ghost predicate ValidInvites(users: map<int, User>, rows: map<int, Invitation>) {
    && (forall i :: i in rows && rows[i].Pending? ==> EnabledAdmin(users, rows[i].authorizer))
    && (forall i, j :: i in rows && j in rows && rows[i].Active() && rows[j].Active() && rows[i].email == rows[j].email ==> i == j)
    && (forall i, u :: i in rows && rows[i].Active() && u in users ==> users[u].email != rows[i].email)
    && (users == map[] ==> forall i :: i in rows ==> !rows[i].Active())
  }

  ghost predicate ValidCompany(users: map<int, User>, company: Company) {
    && (company.identity.Some? ==> company.connection.Some? && company.identity.value.user in users)
    && (company.connection.Some? && company.connection.value.enabled ==>
          IdentityMatches(company) && Eligible(users, company.identity.value.user))
  }

  ghost predicate ValidSessions(users: map<int, User>, company: Company, sessions: map<int, Session>) {
    forall s :: s in sessions ==>
      && sessions[s].user in users
      && (sessions[s].company ==>
            company.connection.Some? && company.connection.value.enabled
            && company.identity.Some? && company.identity.value.user == sessions[s].user)
  }

  ghost predicate ValidAccess(users: map<int, User>, invites: Invites, access: Access) {
    && (forall g :: g in access.grants ==> g.repository in access.repositories && g.user in users && g.role.ValidForRepository())
    && (forall g :: g in invites.staged ==>
          g.repository in access.repositories && g.role.ValidForRepository()
          && g.invitation in invites.rows && invites.rows[g.invitation].Active())
  }

  ghost predicate Valid(db: Db) {
    && UniqueEmails(db.users) && ValidInvites(db.users, db.invites.rows) && ValidCompany(db.users, db.company)
    && ValidSessions(db.users, db.company, db.sessions) && ValidAccess(db.users, db.invites, db.access)
  }

  // -------------------------------------------------------- users only grow

  /** Same accounts and emails, and nobody the company connection or an invitation leans on loses standing. */
  ghost predicate Standing(before: map<int, User>, after: map<int, User>) {
    && before.Keys == after.Keys
    && (forall u :: u in before ==> after[u].email == before[u].email)
    && (forall u :: EnabledAdmin(before, u) ==> EnabledAdmin(after, u))
    && (forall u :: Eligible(before, u) ==> Eligible(after, u))
  }

  lemma {:induction false} StandingKeepsValid(db: Db, users: map<int, User>)
    requires Valid(db) && Standing(db.users, users)
    ensures Valid(db.(users := users))
  {
    assert users == map[] ==> db.users == map[];
    assert forall u :: u in users <==> u in db.users;
  }

  /** An account loses its admin flag or is disabled: its invitations and company sign-in go with it. */
  lemma {:induction false} LossKeepsValid(db: Db, user: int, changed: User, after: Db)
    requires Valid(db) && user in db.users && changed.email == db.users[user].email
    requires var lost := db.(users := db.users[user := changed],
                             invites := db.invites.(rows := Invalidated(db.invites.rows, user)),
                             sessions := after.sessions, recovery := after.recovery, company := after.company);
             after == lost
    requires forall s :: s in after.sessions ==> s in db.sessions && after.sessions[s] == db.sessions[s]
    requires if db.company.identity.None? || db.company.identity.value.user != user
             then after.company == db.company
             else db.company.connection.Some? && after.company.identity == db.company.identity
                  && after.company.connection.Some? && !after.company.connection.value.enabled
                  && forall s :: s in after.sessions ==> !after.sessions[s].company
    ensures Valid(after)
  {
    assert UniqueEmails(after.users);
    InvalidatedKeepsInvites(db, user, changed);
    assert forall u :: u in after.users <==> u in db.users;
    assert forall u :: u != user && Eligible(db.users, u) ==> Eligible(after.users, u);
    assert ValidCompany(after.users, after.company);
    assert ValidSessions(after.users, after.company, after.sessions);
    assert ValidAccess(after.users, after.invites, after.access);
  }

  lemma {:induction false} InvalidatedKeepsInvites(db: Db, user: int, changed: User)
    requires Valid(db) && user in db.users && changed.email == db.users[user].email
    ensures ValidInvites(db.users[user := changed], Invalidated(db.invites.rows, user))
    ensures forall i :: i in db.invites.rows ==>
              i in Invalidated(db.invites.rows, user)
              && (Invalidated(db.invites.rows, user)[i].Active() <==> db.invites.rows[i].Active())
  {
    var users, rows := db.users[user := changed], Invalidated(db.invites.rows, user);
    forall i | i in rows && rows[i].Pending? ensures EnabledAdmin(users, rows[i].authorizer) {
      assert rows[i] == db.invites.rows[i];
    }
  }

  lemma {:induction false} SetAdminKeepsValid(db: Db, actor: int, user: int, admin: bool)
    requires Valid(db)
    ensures Valid(SetUserAdmin(db, actor, user, admin).0)
  {
    var result := SetUserAdmin(db, actor, user, admin);
    if result.1 == Done {
      if admin || !db.users[user].admin {
        StandingKeepsValid(db, db.users[user := db.users[user].(admin := admin)]);
      } else {
        LossKeepsValid(db, user, db.users[user].(admin := false), result.0);
      }
    }
  }

  lemma {:induction false} DisableKeepsValid(db: Db, actor: int, user: int)
    requires Valid(db)
    ensures Valid(DisableUser(db, actor, user).0)
  {
    var result := DisableUser(db, actor, user);
    if result.1 == Done { LossKeepsValid(db, user, db.users[user].(disabled := true), result.0); }
  }

  /** New passwords: the company connection follows when the change is forced, or drops its identity on recovery. */
  lemma {:induction false} ForcedChangeKeepsInvites(db: Db, user: int, hash: int)
    requires Valid(db) && user in db.users && db.users[user].credential.Some?
    ensures var users := WithHash(db.users, user, hash, true);
            && UniqueEmails(users) && ValidInvites(users, db.invites.rows) && ValidAccess(users, db.invites, db.access)
            && (forall u :: u != user && Eligible(db.users, u) ==> Eligible(users, u))
            && (forall u :: u in users <==> u in db.users)
  {
    var users := WithHash(db.users, user, hash, true);
    assert forall u :: EnabledAdmin(users, u) <==> EnabledAdmin(db.users, u);
    assert forall u :: u in users <==> u in db.users;
  }

  lemma {:induction false} ResetKeepsValid(db: Db, actor: int, user: int, acceptable: bool, hash: int)
    requires Valid(db)
    ensures Valid(ResetPassword(db, actor, user, acceptable, hash).0)
  {
    var result := ResetPassword(db, actor, user, acceptable, hash);
    if result.1 == Done {
      ForcedChangeKeepsInvites(db, user, hash);
      assert ValidCompany(result.0.users, result.0.company);
      assert ValidSessions(result.0.users, result.0.company, result.0.sessions);
    }
  }

  lemma {:induction false} NewHashStands(users: map<int, User>, user: int, hash: int)
    requires user in users && users[user].credential.Some?
    ensures Standing(users, WithHash(users, user, hash, false))
  {
  }

  /** Signing sessions out, and shutting company sign-in off with or without its identity, keeps the rest standing. */
  lemma {:induction false} FewerSessionsKeepValid(db: Db, sessions: map<int, Session>)
    requires Valid(db) && forall s :: s in sessions ==> s in db.sessions && sessions[s] == db.sessions[s]
    ensures Valid(db.(sessions := sessions))
  {
    CompanyPartsKeepValid(db, db.company, sessions);
  }

  lemma {:induction false} ShutOffKeepsValid(db: Db, identity: Option<Identity>)
    requires Valid(db) && db.company.connection.Some? && (identity.Some? ==> identity == db.company.identity)
    ensures Valid(ShutOff(db.(company := db.company.(identity := identity))))
  {
    var after := ShutOff(db.(company := db.company.(identity := identity)));
    CompanyPartsKeepValid(db, after.company, after.sessions);
  }

  lemma {:induction false} RecoveryKeepsValid(db: Db, recovery: map<int, RecoveryToken>)
    requires Valid(db)
    ensures Valid(db.(recovery := recovery))
  {
  }

  lemma {:induction false} RecoverKeepsValid(db: Db, user: int, digest: int, hash: int, now: int)
    requires Valid(db)
    ensures Valid(RecoverPassword(db, user, digest, hash, now).0)
  {
    var result := RecoverPassword(db, user, digest, hash, now);
    if result.1 == Done {
      var users, sessions := WithHash(db.users, user, hash, false), WithoutSessionsOf(db.sessions, user);
      NewHashStands(db.users, user, hash);
      StandingKeepsValid(db, users);
      FewerSessionsKeepValid(db.(users := users), sessions);
      RecoveryKeepsValid(db.(users := users, sessions := sessions), db.recovery - {user});
      if db.company.identity.Some? && db.company.identity.value.user == user {
        ShutOffKeepsValid(db.(users := users, sessions := sessions, recovery := db.recovery - {user}), None);
      }
    }
  }

  lemma {:induction false} ChangePasswordKeepsValid(db: Db, user: int, verified: int, hash: int, session: int, expiresAt: int)
    requires Valid(db) && session !in db.sessions
    ensures Valid(ChangePassword(db, user, verified, hash, session, expiresAt).0)
  {
    var result := ChangePassword(db, user, verified, hash, session, expiresAt);
    if result.1 == Done {
      StandingKeepsValid(db, result.0.users);
      assert ValidSessions(result.0.users, result.0.company, result.0.sessions);
    }
  }

  lemma {:induction false} EnableUserKeepsValid(db: Db, actor: int, user: int)
    requires Valid(db)
    ensures Valid(EnableUser(db, actor, user).0)
  {
    if EnableUser(db, actor, user).1 == Done {
      StandingKeepsValid(db, db.users[user := db.users[user].(disabled := false)]);
    }
  }

  /** A new account with an email nobody holds or has reserved. */
  lemma {:induction false} NewUserKeepsValid(db: Db, id: int, u: User)
    requires Valid(db) && id !in db.users && !EmailTaken(db.users, u.email) && !EmailReserved(db.invites.rows, u.email)
    ensures Valid(db.(users := db.users[id := u]))
  {
    var users := db.users[id := u];
    assert forall v :: v in db.users ==> v in users && users[v] == db.users[v];
    assert forall v :: EnabledAdmin(db.users, v) ==> EnabledAdmin(users, v);
    assert forall v :: Eligible(db.users, v) ==> Eligible(users, v);
    assert UniqueEmails(users);
    assert ValidInvites(users, db.invites.rows);
  }

  lemma {:induction false} FirstAdminKeepsValid(db: Db, op: Op)
    requires Valid(db) && Enabled(db, op) && op.OpFirstAdmin?
    ensures Valid(Apply(db, op))
  {
    if db.users == map[] && op.acceptable {
      var u := User(op.email, op.name, true, false, Some(Credential(op.hash, false)));
      NewUserKeepsValid(db, op.id, u);
      assert db.users[op.id := u] == map[op.id := u];
    }
  }

  // --------------------------------------------------------------- invitations

  lemma PendingKeepsInvites(db: Db, rows: map<int, Invitation>, id: int, row: Invitation)
    requires Valid(db) && row.Pending? && EnabledAdmin(db.users, row.authorizer)
    requires rows.Keys <= db.invites.rows.Keys
    requires forall i :: i in rows ==> rows[i] == db.invites.rows[i] || rows[i] == Cancelled
    requires forall i :: i in rows && i != id && rows[i].Active() ==> rows[i].email != row.email
    requires !EmailTaken(db.users, row.email)
    ensures ValidInvites(db.users, rows[id := row])
  {
  }

  lemma StageKeepsAccess(db: Db, rows: map<int, Invitation>, staged: set<Staged>, id: int, roles: set<RepositoryRole>)
    requires Valid(db) && ValidRoles(roles) && KnownRepositories(db.access.repositories, roles)
    requires staged <= db.invites.staged && id in rows && rows[id].Active()
    requires forall g :: g in staged ==> g.invitation in rows && rows[g.invitation].Active()
    ensures ValidAccess(db.users, Invites(rows, staged + StageRows(id, roles)), db.access)
  {
  }

  lemma {:induction false} InviteKeepsValid(db: Db, actor: int, id: int, offer: Offer, digest: int, expiresAt: int)
    requires Valid(db) && id !in db.invites.rows
    ensures Valid(CreateInvitation(db, actor, id, offer, digest, expiresAt).0)
  {
    var result := CreateInvitation(db, actor, id, offer, digest, expiresAt);
    if result.1 == Done {
      var row := Pending(offer.email, offer.displayName, digest, expiresAt, offer.admin, actor, |offer.roles|);
      PendingKeepsInvites(db, db.invites.rows, id, row);
      StageKeepsAccess(db, db.invites.rows[id := row], db.invites.staged, id, offer.roles);
    }
  }

  lemma {:induction false} ReissueKeepsValid(db: Db, actor: int, id: int, admin: bool, roles: set<RepositoryRole>, digest: int, expiresAt: int)
    requires Valid(db)
    ensures Valid(ReissueInvitation(db, actor, id, admin, roles, digest, expiresAt).0)
  {
    var result := ReissueInvitation(db, actor, id, admin, roles, digest, expiresAt);
    if result.1 == Done {
      var before := db.invites.rows[id];
      var row := Pending(before.email, before.displayName, digest, expiresAt, admin, actor, |roles|);
      PendingKeepsInvites(db, db.invites.rows, id, row);
      StageKeepsAccess(db, db.invites.rows[id := row], Unstaged(db.invites.staged, id), id, roles);
    }
  }

  lemma {:induction false} SurvivingRolesValid(db: Db, id: int)
    requires Valid(db)
    ensures ValidRolesOrEmpty(SurvivingRoles(db, id)) && KnownRepositories(db.access.repositories, SurvivingRoles(db, id))
    ensures SurvivingRoles(db, id) == StagedFor(db.invites.staged, id)
  {
    forall r | r in StagedFor(db.invites.staged, id) ensures r.0 in db.access.repositories && r.1.ValidForRepository() {
      var g :| g in db.invites.staged && g.invitation == id && (g.repository, g.role) == r;
    }
  }

  ghost predicate ValidRolesOrEmpty(roles: set<RepositoryRole>) { forall r :: r in roles ==> r.1.ValidForRepository() }

  lemma {:induction false} ReplaceKeepsValid(db: Db, actor: int, id: int, newID: int, digest: int, expiresAt: int)
    requires Valid(db) && newID !in db.invites.rows && newID != id
    ensures Valid(ReplaceInvitation(db, actor, id, newID, digest, expiresAt).0)
  {
    var result := ReplaceInvitation(db, actor, id, newID, digest, expiresAt);
    if result.1 == Done {
      var before, roles := db.invites.rows[id], SurvivingRoles(db, id);
      SurvivingRolesValid(db, id);
      var row := Pending(before.email, before.displayName, digest, expiresAt, before.admin, actor, |roles|);
      var retired := db.invites.rows[id := Cancelled];
      PendingKeepsInvites(db, retired, newID, row);
      var rows, staged := retired[newID := row], Unstaged(db.invites.staged, id) + StageRows(newID, roles);
      forall g | g in staged
        ensures g.repository in db.access.repositories && g.role.ValidForRepository()
        ensures g.invitation in rows && rows[g.invitation].Active()
      {
        if g in StageRows(newID, roles) { assert (g.repository, g.role) in roles; }
      }
      assert ValidAccess(db.users, Invites(rows, staged), db.access);
    }
  }

  lemma {:induction false} CancelKeepsValid(db: Db, actor: int, id: int)
    requires Valid(db)
    ensures Valid(CancelInvitation(db, actor, id).0)
  {
    var result := CancelInvitation(db, actor, id).0;
    assert ValidInvites(result.users, result.invites.rows);
    assert ValidAccess(result.users, result.invites, result.access);
  }

  lemma {:induction false} AcceptKeepsValid(db: Db, op: Op)
    requires Valid(db) && Enabled(db, op) && op.OpAccept?
    ensures Valid(Apply(db, op))
  {
    if AcceptInvitation(db, op.id, op.digest, op.user, op.order, op.acceptable, op.hash, op.now).1 == Done {
      var row, roles := db.invites.rows[op.id], StagedFor(db.invites.staged, op.id);
      var u := User(row.email, row.displayName, row.admin, false, Some(Credential(op.hash, false)));
      var freed := db.(invites := Invites(db.invites.rows[op.id := Accepted], Unstaged(db.invites.staged, op.id)));
      assert ValidInvites(freed.users, freed.invites.rows);
      assert ValidAccess(freed.users, freed.invites, freed.access);
      NewUserKeepsValid(freed, op.user, u);
      AcceptedGrantsValid(db, Apply(db, op), op.user, roles);
    }
  }

  lemma {:induction false} AcceptedGrantsValid(db: Db, after: Db, user: int, roles: set<RepositoryRole>)
    requires Valid(db) && user in after.users && forall u :: u in db.users ==> u in after.users
    requires after.access.repositories == db.access.repositories
    requires exists attribution :: after.access.grants == Granted(db.access.grants, GrantsFor(user, roles), attribution)
    requires forall r :: r in roles ==> r.0 in db.access.repositories && r.1.ValidForRepository()
    ensures forall g :: g in after.access.grants ==>
              g.repository in after.access.repositories && g.user in after.users && g.role.ValidForRepository()
  {
    forall g | g in after.access.grants
      ensures g.repository in after.access.repositories && g.user in after.users && g.role.ValidForRepository()
    {
      if g !in db.access.grants {
        assert g in GrantsFor(user, roles);
        var r :| r in roles && Grant(r.0, user, r.1) == g;
      }
    }
  }

  // ------------------------------------------------------------------- grants

  lemma {:induction false} WithRolesKeeps(access: Access, repository: int, user: int, desired: set<Role>, attribution: Attribution, roles: seq<Role>)
    requires forall r :: r in roles ==> r.ValidForRepository()
    ensures var after := WithRoles(access, repository, user, desired, attribution, roles);
            && after.repositories == access.repositories
            && (forall g :: g in after.grants ==>
                  g in access.grants || (g.repository == repository && g.user == user && g.role.ValidForRepository()))
  {
    if roles != [] { WithRolesKeeps(access, repository, user, desired, attribution, roles[..|roles| - 1]); }
  }

  lemma AccessKeepsValid(db: Db, access: Access, staged: set<Staged>)
    requires Valid(db) && ValidAccess(db.users, db.invites.(staged := staged), access)
    ensures Valid(db.(access := access, invites := db.invites.(staged := staged)))
  {
  }

  lemma SetRolesKeepsValid(db: Db, actor: int, repository: int, user: int, desired: set<Role>, now: int)
    requires Valid(db)
    ensures Valid(SetRoles(db, actor, repository, user, desired, now).0)
  {
    var result := SetRoles(db, actor, repository, user, desired, now);
    if result.1 == Done {
      WithRolesKeeps(db.access, repository, user, desired, Attribution(actor, now), REPOSITORY_ROLES);
      AccessKeepsValid(db, result.0.access, db.invites.staged);
    }
  }

  lemma GrantsKeepValid(db: Db, op: Op)
    requires Valid(db) && (op.OpGrant? || op.OpRevoke? || op.OpSetRoles? || op.OpAddRepository? || op.OpRemoveRepository?)
    ensures Valid(Apply(db, op))
  {
    if op.OpSetRoles? {
      SetRolesKeepsValid(db, op.actor, op.repository, op.user, op.desired, op.now);
    } else if op.OpRemoveRepository? {
      var after := RemoveRepository(db, op.repository);
      AccessKeepsValid(db, after.access, after.invites.staged);
    } else {
      OneGrantKeepsValid(db, op);
    }
  }

  lemma {:induction false} GrantKeepsValid(db: Db, op: Op)
    requires Valid(db) && op.OpGrant?
    ensures Valid(Apply(db, op))
  {
    AccessKeepsValid(db, Apply(db, op).access, db.invites.staged);
  }

  lemma {:induction false} RevokeKeepsValid(db: Db, op: Op)
    requires Valid(db) && op.OpRevoke?
    ensures Valid(Apply(db, op))
  {
    AccessKeepsValid(db, Apply(db, op).access, db.invites.staged);
  }

  lemma {:induction false} AddKeepsValid(db: Db, op: Op)
    requires Valid(db) && op.OpAddRepository?
    ensures Valid(Apply(db, op))
  {
    AccessKeepsValid(db, Apply(db, op).access, db.invites.staged);
  }

  lemma {:induction false} OneGrantKeepsValid(db: Db, op: Op)
    requires Valid(db) && (op.OpGrant? || op.OpRevoke? || op.OpAddRepository?)
    ensures Valid(Apply(db, op))
  {
    if op.OpGrant? { GrantKeepsValid(db, op); }
    else if op.OpRevoke? { RevokeKeepsValid(db, op); }
    else { AddKeepsValid(db, op); }
  }

  // -------------------------------------------------------------- company ops

  predicate ConnectionOp(op: Op) {
    op.OpCreateConnection? || op.OpEditConnection? || op.OpEvidence? || op.OpEnable? || op.OpDisable?
  }

  predicate TransactionOp(op: Op) {
    op.OpStartLink? || op.OpClaimLink? || op.OpCommitLink? || op.OpUnlink? || op.OpStartLogin? || op.OpClaimLogin?
  }

  predicate SessionOp(op: Op) {
    op.OpCompanySession? || op.OpPasswordLogin? || op.OpLoadSession? || op.OpLogout? || op.OpIssueRecovery?
  }

  lemma CompanyPartsKeepValid(db: Db, company: Company, sessions: map<int, Session>)
    requires Valid(db) && ValidCompany(db.users, company) && ValidSessions(db.users, company, sessions)
    ensures Valid(db.(company := company, sessions := sessions))
  {
  }

  lemma {:induction false} CreateConnectionKeepsValid(db: Db, op: Op)
    requires Valid(db) && op.OpCreateConnection?
    ensures Valid(Apply(db, op))
  {
    CompanyPartsKeepValid(db, Apply(db, op).company, db.sessions);
  }

  lemma {:induction false} EditConnectionKeepsValid(db: Db, op: Op)
    requires Valid(db) && op.OpEditConnection?
    ensures Valid(Apply(db, op))
  {
    CompanyPartsKeepValid(db, Apply(db, op).company, db.sessions);
  }

  lemma {:induction false} EvidenceKeepsValid(db: Db, op: Op)
    requires Valid(db) && op.OpEvidence?
    ensures Valid(Apply(db, op))
  {
    CompanyPartsKeepValid(db, Apply(db, op).company, db.sessions);
  }

  lemma {:induction false} EnableKeepsValid(db: Db, op: Op)
    requires Valid(db) && op.OpEnable?
    ensures Valid(Apply(db, op))
  {
    CompanyPartsKeepValid(db, Apply(db, op).company, db.sessions);
  }

  lemma {:induction false} DisableConnectionKeepsValid(db: Db, op: Op)
    requires Valid(db) && op.OpDisable?
    ensures Valid(Apply(db, op))
  {
    CompanyPartsKeepValid(db, Apply(db, op).company, Apply(db, op).sessions);
  }

  lemma {:induction false} ConnectionOpKeepsValid(db: Db, op: Op)
    requires Valid(db) && ConnectionOp(op)
    ensures Valid(Apply(db, op))
  {
    if op.OpCreateConnection? { CreateConnectionKeepsValid(db, op); }
    else if op.OpEditConnection? { EditConnectionKeepsValid(db, op); }
    else if op.OpEvidence? { EvidenceKeepsValid(db, op); }
    else if op.OpEnable? { EnableKeepsValid(db, op); }
    else { DisableConnectionKeepsValid(db, op); }
  }

  lemma {:induction false} CommitLinkKeepsValid(db: Db, op: Op)
    requires Valid(db) && op.OpCommitLink?
    ensures Valid(Apply(db, op))
  {
    CompanyPartsKeepValid(db, Apply(db, op).company, db.sessions);
  }

  lemma {:induction false} UnlinkKeepsValid(db: Db, op: Op)
    requires Valid(db) && op.OpUnlink?
    ensures Valid(Apply(db, op))
  {
    CompanyPartsKeepValid(db, Apply(db, op).company, Apply(db, op).sessions);
  }

  /** One-time transactions carry no invariant: only claims read them. */
  lemma {:induction false} TransactionsKeepValid(db: Db, links: map<int, LinkTransaction>, logins: map<int, LoginTransaction>)
    requires Valid(db)
    ensures Valid(db.(company := db.company.(links := links, logins := logins)))
  {
    CompanyPartsKeepValid(db, db.company.(links := links, logins := logins), db.sessions);
  }

  lemma {:induction false} StartLinkKeepsValid(db: Db, op: Op)
    requires Valid(db) && op.OpStartLink?
    ensures Valid(Apply(db, op))
  {
    TransactionsKeepValid(db, Apply(db, op).company.links, db.company.logins);
  }

  lemma {:induction false} StartLoginKeepsValid(db: Db, op: Op)
    requires Valid(db) && op.OpStartLogin?
    ensures Valid(Apply(db, op))
  {
    TransactionsKeepValid(db, db.company.links, Apply(db, op).company.logins);
  }

  lemma {:induction false} ClaimLinkKeepsValid(db: Db, op: Op)
    requires Valid(db) && op.OpClaimLink?
    ensures Valid(Apply(db, op))
  {
    TransactionsKeepValid(db, Apply(db, op).company.links, Apply(db, op).company.logins);
  }

  lemma {:induction false} ClaimLoginKeepsValid(db: Db, op: Op)
    requires Valid(db) && op.OpClaimLogin?
    ensures Valid(Apply(db, op))
  {
    TransactionsKeepValid(db, Apply(db, op).company.links, Apply(db, op).company.logins);
  }

  lemma {:induction false} TransactionOpKeepsValid(db: Db, op: Op)
    requires Valid(db) && TransactionOp(op)
    ensures Valid(Apply(db, op))
  {
    if op.OpClaimLink? { ClaimLinkKeepsValid(db, op); }
    else if op.OpClaimLogin? { ClaimLoginKeepsValid(db, op); }
    else if op.OpCommitLink? { CommitLinkKeepsValid(db, op); }
    else if op.OpUnlink? { UnlinkKeepsValid(db, op); }
    else if op.OpStartLink? { StartLinkKeepsValid(db, op); }
    else { StartLoginKeepsValid(db, op); }
  }

  lemma {:induction false} CompanySessionKeepsValid(db: Db, op: Op)
    requires Valid(db) && op.OpCompanySession?
    ensures Valid(Apply(db, op))
  {
    CompanyPartsKeepValid(db, db.company, Apply(db, op).sessions);
  }

  lemma {:induction false} PasswordLoginKeepsValid(db: Db, op: Op)
    requires Valid(db) && op.OpPasswordLogin?
    ensures Valid(Apply(db, op))
  {
    CompanyPartsKeepValid(db, db.company, Apply(db, op).sessions);
  }

  lemma {:induction false} LoadKeepsValid(db: Db, op: Op)
    requires Valid(db) && op.OpLoadSession?
    ensures Valid(Apply(db, op))
  {
    FewerSessionsKeepValid(db, Apply(db, op).sessions);
  }

  lemma {:induction false} LogoutKeepsValid(db: Db, op: Op)
    requires Valid(db) && op.OpLogout?
    ensures Valid(Apply(db, op))
  {
    FewerSessionsKeepValid(db, db.sessions - {op.session});
  }

  lemma {:induction false} IssueKeepsValid(db: Db, op: Op)
    requires Valid(db) && op.OpIssueRecovery?
    ensures Valid(Apply(db, op))
  {
    RecoveryKeepsValid(db, Apply(db, op).recovery);
  }

  lemma {:induction false} SessionOpKeepsValid(db: Db, op: Op)
    requires Valid(db) && Enabled(db, op) && SessionOp(op)
    ensures Valid(Apply(db, op))
  {
    if op.OpCompanySession? { CompanySessionKeepsValid(db, op); }
    else if op.OpPasswordLogin? { PasswordLoginKeepsValid(db, op); }
    else if op.OpIssueRecovery? { IssueKeepsValid(db, op); }
    else if op.OpLoadSession? { LoadKeepsValid(db, op); }
    else { LogoutKeepsValid(db, op); }
  }

  predicate AccountOp(op: Op) {
    || op.OpFirstAdmin? || op.OpCreateUser? || op.OpSetAdmin? || op.OpDisableUser? || op.OpEnableUser?
    || op.OpChangePassword? || op.OpResetPassword? || op.OpRecover?
  }

  predicate InvitationOp(op: Op) { op.OpInvite? || op.OpReissue? || op.OpReplace? || op.OpCancel? || op.OpAccept? }

  lemma {:induction false} AccountOpKeepsValid(db: Db, op: Op)
    requires Valid(db) && Enabled(db, op) && AccountOp(op)
    ensures Valid(Apply(db, op))
  {
    match op
    case OpFirstAdmin(_, _, _, _, _, _, _) => FirstAdminKeepsValid(db, op);
    case OpCreateUser(actor, id, email, name, ok, hash) =>
      if CreateUser(db, actor, id, email, name, ok, hash).1 == Done {
        NewUserKeepsValid(db, id, User(email, name, false, false, Some(Credential(hash, true))));
      }
    case OpSetAdmin(actor, user, admin) => SetAdminKeepsValid(db, actor, user, admin);
    case OpDisableUser(actor, user) => DisableKeepsValid(db, actor, user);
    case OpEnableUser(actor, user) => EnableUserKeepsValid(db, actor, user);
    case OpChangePassword(user, verified, hash, session, expiresAt) => ChangePasswordKeepsValid(db, user, verified, hash, session, expiresAt);
    case OpResetPassword(actor, user, ok, hash) => ResetKeepsValid(db, actor, user, ok, hash);
    case OpRecover(user, digest, hash, now) => RecoverKeepsValid(db, user, digest, hash, now);
  }

  lemma {:induction false} InvitationOpKeepsValid(db: Db, op: Op)
    requires Valid(db) && Enabled(db, op) && InvitationOp(op)
    ensures Valid(Apply(db, op))
  {
    match op
    case OpInvite(actor, id, offer, digest, expiresAt) => InviteKeepsValid(db, actor, id, offer, digest, expiresAt);
    case OpReissue(actor, id, admin, roles, digest, expiresAt) => ReissueKeepsValid(db, actor, id, admin, roles, digest, expiresAt);
    case OpReplace(actor, id, newID, digest, expiresAt) => ReplaceKeepsValid(db, actor, id, newID, digest, expiresAt);
    case OpCancel(actor, id) => CancelKeepsValid(db, actor, id);
    case OpAccept(_, _, _, _, _, _, _) => AcceptKeepsValid(db, op);
  }

  /** Every transaction of both packages keeps the invariants. */
  lemma {:induction false} StepKeepsValid(db: Db, op: Op)
    requires Valid(db) && Enabled(db, op)
    ensures Valid(Apply(db, op))
  {
    if ConnectionOp(op) { ConnectionOpKeepsValid(db, op); }
    else if TransactionOp(op) { TransactionOpKeepsValid(db, op); }
    else if SessionOp(op) { SessionOpKeepsValid(db, op); }
    else if AccountOp(op) { AccountOpKeepsValid(db, op); }
    else if InvitationOp(op) { InvitationOpKeepsValid(db, op); }
    else { GrantsKeepValid(db, op); }
  }

  // --------------------------------------------------- rechecks that never fire

  /** A pending link is refused only for being expired or for staged rows lost to a deleted repository. */
  lemma {:induction false} AcceptanceRechecks(db: Db, id: int, now: int)
    requires Valid(db) && id in db.invites.rows && db.invites.rows[id].Pending?
    ensures Acceptable(db, id, now)
       <==> db.invites.rows[id].expiresAt > now && |StagedFor(db.invites.staged, id)| == db.invites.rows[id].expected
  {
    forall r | r in StagedFor(db.invites.staged, id) ensures r.0 in db.access.repositories && r.1.ValidForRepository() {
      var g :| g in db.invites.staged && g.invitation == id && (g.repository, g.role) == r;
    }
  }

  /** Loading a company session that has not expired always succeeds: the recheck never logs anyone out. */
  lemma SessionRecheckNeverFails(db: Db, session: int, now: int)
    requires Valid(db) && session in db.sessions && db.sessions[session].company && now < db.sessions[session].expiresAt
    ensures StillAuthorized(db, db.sessions[session].user)
    ensures LoadSession(db, session, now) == (db, Some(db.sessions[session]))
  {
  }
}
