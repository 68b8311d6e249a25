/**
 Histories of both packages together: sign-in and invitation invariants in every
 reachable state, what an accepted link grants, and the audit trail as the source
 of the live grants.
 */
module AuthorityHistory {
  import opened Wrappers
  import opened Authority
  import opened AuthorityInvariants

  /** What a link offered when it was issued, and the invitation it belongs to. */
  datatype Link = Link(invitation: int, roles: set<RepositoryRole>)

  /** The tables, every link digest ever issued, and every repository id ever used. */
  datatype World = World(db: Db, links: map<int, Link>, known: set<int>)

  /** The link a step issues, if it issues one. */
  function Issues(db: Db, op: Op): Option<(int, Link)> {
    match op
    case OpInvite(actor, id, offer, digest, expiresAt) =>
      if CreateInvitation(db, actor, id, offer, digest, expiresAt).1 == Done then Some((digest, Link(id, offer.roles))) else None
    case OpReissue(actor, id, admin, roles, digest, expiresAt) =>
      if ReissueInvitation(db, actor, id, admin, roles, digest, expiresAt).1 == Done then Some((digest, Link(id, roles))) else None
    case OpReplace(actor, id, newID, digest, expiresAt) =>
      if ReplaceInvitation(db, actor, id, newID, digest, expiresAt).1 == Done then Some((digest, Link(newID, SurvivingRoles(db, id)))) else None
    case _ => None
  }

  function Step(w: World, op: Op): World {
    var issued := Issues(w.db, op);
    World(Apply(w.db, op),
          if issued.Some? then w.links[issued.value.0 := issued.value.1] else w.links,
          if op.OpAddRepository? then w.known + {op.repository} else w.known)
  }

  /** Besides fresh ids: link digests are never drawn twice, and repository ids are not reused. */
  ghost predicate MayStep(w: World, op: Op) {
    && Enabled(w.db, op)
    && (op.OpInvite? || op.OpReissue? || op.OpReplace? ==> op.digest !in w.links)
    && (op.OpAddRepository? ==> op.repository > 0 && op.repository !in w.known)
  }

  datatype History = History(ops: seq<Op>, states: seq<World>)

  const EMPTY := World(
    Db(map[], map[], Invites(map[], {}), Access({}, map[], []), Company(None, None, map[], map[]), map[]), map[], {})

  ghost predicate Legal(h: History) {
    && |h.states| == |h.ops| + 1 && h.states[0] == EMPTY
    && (forall k :: 0 <= k < |h.ops| ==> MayStep(h.states[k], h.ops[k]) && h.states[k + 1] == Step(h.states[k], h.ops[k]))
  }

  lemma {:induction false} AlwaysValid(h: History, k: nat)
    requires Legal(h) && k <= |h.ops|
    ensures Valid(h.states[k].db)
  {
    if k > 0 {
      AlwaysValid(h, k - 1);
      StepKeepsValid(h.states[k - 1].db, h.ops[k - 1]);
    }
  }

  /**
   In every reachable state an enabled company connection is backed by a linked
   identity that matches it and belongs to an eligible Administrator, every
   company session is that user's, and loading one never logs it out early.
   */
  lemma CompanySignInIsBacked(h: History, k: nat, session: int, now: int)
    requires Legal(h) && k <= |h.ops|
    ensures var db := h.states[k].db;
            && (db.company.connection.Some? && db.company.connection.value.enabled ==>
                  IdentityMatches(db.company) && Eligible(db.users, db.company.identity.value.user))
            && (session in db.sessions && db.sessions[session].company ==>
                  && db.company.connection.Some? && db.company.connection.value.enabled
                  && db.company.identity.Some? && db.company.identity.value.user == db.sessions[session].user
                  && (now < db.sessions[session].expiresAt ==> LoadSession(db, session, now) == (db, Some(db.sessions[session]))))
  {
    AlwaysValid(h, k);
    var db := h.states[k].db;
    if session in db.sessions && db.sessions[session].company && now < db.sessions[session].expiresAt {
      SessionRecheckNeverFails(db, session, now);
    }
  }

  /**
   In every reachable state each pending invitation's authorizer is an enabled
   Administrator, active emails are distinct and no user holds one.
   */
  lemma InvitationsStand(h: History, k: nat, i: int, j: int, u: int)
    requires Legal(h) && k <= |h.ops|
    ensures var db := h.states[k].db;
            && (i in db.invites.rows && db.invites.rows[i].Pending? ==> EnabledAdmin(db.users, db.invites.rows[i].authorizer))
            && (i in db.invites.rows && j in db.invites.rows && db.invites.rows[i].Active() && db.invites.rows[j].Active() && i != j
                ==> db.invites.rows[i].email != db.invites.rows[j].email)
            && (i in db.invites.rows && db.invites.rows[i].Active() && u in db.users ==> db.users[u].email != db.invites.rows[i].email)
  {
    AlwaysValid(h, k);
  }

  // ----------------------------------------------------- staged rows and links

  lemma {:induction false} StagedForOthers(staged: set<Staged>, gone: int, added: int, roles: set<RepositoryRole>, i: int)
    ensures i != gone && i != added ==> StagedFor(Unstaged(staged, gone) + StageRows(added, roles), i) == StagedFor(staged, i)
    ensures i != added ==> StagedFor(staged + StageRows(added, roles), i) == StagedFor(staged, i)
    ensures i != gone ==> StagedFor(Unstaged(staged, gone), i) == StagedFor(staged, i)
  {
    forall r | r in StagedFor(staged, i) ensures Staged(i, r.0, r.1) in staged {
      var g :| g in staged && g.invitation == i && (g.repository, g.role) == r;
    }
    if i != gone && i != added {
      var after := Unstaged(staged, gone) + StageRows(added, roles);
      forall r ensures r in StagedFor(after, i) <==> r in StagedFor(staged, i) {
        if r in StagedFor(staged, i) { assert Staged(i, r.0, r.1) in after; }
      }
    }
    if i != added {
      var after := staged + StageRows(added, roles);
      forall r ensures r in StagedFor(after, i) <==> r in StagedFor(staged, i) {
        if r in StagedFor(staged, i) { assert Staged(i, r.0, r.1) in after; }
      }
    }
    if i != gone {
      var after := Unstaged(staged, gone);
      forall r ensures r in StagedFor(after, i) <==> r in StagedFor(staged, i) {
        if r in StagedFor(staged, i) { assert Staged(i, r.0, r.1) in after; }
      }
    }
  }

  lemma {:induction false} StagedForNew(staged: set<Staged>, id: int, roles: set<RepositoryRole>)
    requires forall g :: g in staged ==> g.invitation != id
    ensures StagedFor(staged + StageRows(id, roles), id) == roles
  {
    var after := staged + StageRows(id, roles);
    forall r ensures r in StagedFor(after, id) <==> r in roles {
      if r in roles { assert Staged(id, r.0, r.1) in after; }
    }
  }

  /** The offered roles whose repository still exists. */
  function Kept(repositories: set<int>, roles: set<RepositoryRole>): set<RepositoryRole> {
    set r | r in roles && r.0 in repositories :: r
  }

  /** A pending link stages exactly what is left of its offer, and expects as many roles as it offered. */
  ghost predicate LinkIntact(w: World, i: int)
    requires i in w.db.invites.rows && w.db.invites.rows[i].Pending?
  {
    var row := w.db.invites.rows[i];
    && row.digest in w.links && w.links[row.digest].invitation == i
    && row.expected == |w.links[row.digest].roles| && KnownRepositories(w.known, w.links[row.digest].roles)
    && StagedFor(w.db.invites.staged, i) == Kept(w.db.access.repositories, w.links[row.digest].roles)
  }

  ghost predicate LinksIntact(w: World) {
    && w.db.access.repositories <= w.known
    && (forall i :: i in w.db.invites.rows && w.db.invites.rows[i].Pending? ==> LinkIntact(w, i))
    && (forall d :: d in w.links ==> w.links[d].invitation in w.db.invites.rows)
  }

  lemma {:induction false} KeptAll(repositories: set<int>, roles: set<RepositoryRole>)
    requires KnownRepositories(repositories, roles)
    ensures Kept(repositories, roles) == roles
  {
  }

  lemma {:induction false} InviteKeepsLinks(w: World, op: Op)
    requires Valid(w.db) && MayStep(w, op) && LinksIntact(w) && op.OpInvite?
    ensures LinksIntact(Step(w, op))
  {
    if Issues(w.db, op).Some? {
      var after := Step(w, op);
      forall i | i in after.db.invites.rows && after.db.invites.rows[i].Pending? ensures LinkIntact(after, i) {
        StagedForOthers(w.db.invites.staged, op.id, op.id, op.offer.roles, i);
        if i == op.id {
          StagedForNew(w.db.invites.staged, op.id, op.offer.roles);
          KeptAll(w.db.access.repositories, op.offer.roles);
        }
      }
    }
  }

  lemma {:induction false} ReissueKeepsLinks(w: World, op: Op)
    requires Valid(w.db) && MayStep(w, op) && LinksIntact(w) && op.OpReissue?
    ensures LinksIntact(Step(w, op))
  {
    if Issues(w.db, op).Some? {
      var after := Step(w, op);
      forall i | i in after.db.invites.rows && after.db.invites.rows[i].Pending? ensures LinkIntact(after, i) {
        StagedForOthers(w.db.invites.staged, op.id, op.id, op.roles, i);
        if i == op.id {
          StagedForNew(Unstaged(w.db.invites.staged, op.id), op.id, op.roles);
          KeptAll(w.db.access.repositories, op.roles);
        }
      }
    }
  }

  lemma {:induction false} ReplaceKeepsLinks(w: World, op: Op)
    requires Valid(w.db) && MayStep(w, op) && LinksIntact(w) && op.OpReplace?
    ensures LinksIntact(Step(w, op))
  {
    if Issues(w.db, op).Some? {
      var after, roles := Step(w, op), SurvivingRoles(w.db, op.id);
      forall i | i in after.db.invites.rows && after.db.invites.rows[i].Pending? ensures LinkIntact(after, i) {
        StagedForOthers(w.db.invites.staged, op.id, op.newID, roles, i);
        if i == op.newID {
          StagedForNew(Unstaged(w.db.invites.staged, op.id), op.newID, roles);
          KeptAll(w.db.access.repositories, roles);
        }
      }
    }
  }

  lemma {:induction false} RetireKeepsLinks(w: World, op: Op)
    requires Valid(w.db) && LinksIntact(w) && (op.OpCancel? || op.OpAccept?)
    ensures LinksIntact(Step(w, op))
  {
    var after := Step(w, op);
    forall i | i in after.db.invites.rows && after.db.invites.rows[i].Pending? ensures LinkIntact(after, i) {
      StagedForOthers(w.db.invites.staged, op.id, op.id, {}, i);
    }
  }

  lemma {:induction false} RemoveKeepsLinks(w: World, op: Op)
    requires LinksIntact(w) && op.OpRemoveRepository?
    ensures LinksIntact(Step(w, op))
  {
    var after := Step(w, op);
    forall i | i in after.db.invites.rows && after.db.invites.rows[i].Pending? ensures LinkIntact(after, i) {
      assert LinkIntact(w, i);
      RemovalUnstages(w.db.invites.staged, op.repository, i);
    }
  }

  lemma {:induction false} RemovalUnstages(staged: set<Staged>, repository: int, i: int)
    ensures StagedFor(set g | g in staged && g.repository != repository :: g, i)
         == set r | r in StagedFor(staged, i) && r.0 != repository :: r
  {
    var after := set g | g in staged && g.repository != repository :: g;
    forall r ensures r in StagedFor(after, i) <==> r in StagedFor(staged, i) && r.0 != repository {
      if r in StagedFor(staged, i) && r.0 != repository {
        var g :| g in staged && g.invitation == i && (g.repository, g.role) == r;
        assert g in after;
      }
    }
  }

  /** A repository id that was never used is in no offer. */
  lemma {:induction false} AddKeepsLinks(w: World, op: Op)
    requires MayStep(w, op) && LinksIntact(w) && op.OpAddRepository?
    ensures LinksIntact(Step(w, op))
  {
    var after := Step(w, op);
    forall i | i in after.db.invites.rows && after.db.invites.rows[i].Pending? ensures LinkIntact(after, i) {
      assert LinkIntact(w, i);
      var roles := w.links[w.db.invites.rows[i].digest].roles;
      assert Kept(after.db.access.repositories, roles) == Kept(w.db.access.repositories, roles);
    }
  }

  /** Losing standing turns pending links into rows that need reissue; it never adds or rewrites one. */
  ghost predicate LosesLinksOnly(db: Db, after: Db) {
    && after.invites.staged == db.invites.staged && after.invites.rows.Keys == db.invites.rows.Keys
    && (forall i :: i in db.invites.rows && after.invites.rows[i].Pending? ==> after.invites.rows[i] == db.invites.rows[i])
    && after.access == db.access
  }

  lemma {:induction false} SetAdminRows(db: Db, actor: int, user: int, admin: bool)
    ensures LosesLinksOnly(db, SetUserAdmin(db, actor, user, admin).0)
  {
  }

  lemma {:induction false} DisableRows(db: Db, actor: int, user: int)
    ensures LosesLinksOnly(db, DisableUser(db, actor, user).0)
  {
  }

  lemma {:induction false} PasswordRows(db: Db, op: Op)
    requires op.OpResetPassword? || op.OpRecover? || op.OpChangePassword?
    ensures Apply(db, op).invites == db.invites && Apply(db, op).access == db.access
  {
  }

  lemma {:induction false} AccountOpRows(db: Db, op: Op)
    requires AccountOp(op)
    ensures LosesLinksOnly(db, Apply(db, op))
  {
    match op
    case OpSetAdmin(actor, user, admin) => SetAdminRows(db, actor, user, admin);
    case OpDisableUser(actor, user) => DisableRows(db, actor, user);
    case OpFirstAdmin(_, _, _, _, _, _, _) =>
    case OpCreateUser(_, _, _, _, _, _) =>
    case OpEnableUser(_, _) =>
    case _ => PasswordRows(db, op);
  }

  lemma OtherOpRows(db: Db, op: Op)
    requires !AccountOp(op) && !InvitationOp(op) && !op.OpRemoveRepository?
    ensures Apply(db, op).invites == db.invites
  {
  }

  lemma {:induction false} OtherOpAccess(db: Db, op: Op)
    requires !op.OpAccept? && !op.OpGrant? && !op.OpRevoke? && !op.OpSetRoles? && !op.OpAddRepository? && !op.OpRemoveRepository?
    ensures Apply(db, op).access == db.access
  {
    if AccountOp(op) { AccountOpRows(db, op); }
  }

  lemma {:induction false} WithRolesRepositories(
    access: Access, repository: int, user: int, desired: set<Role>, attribution: Attribution, roles: seq<Role>)
    ensures WithRoles(access, repository, user, desired, attribution, roles).repositories == access.repositories
  {
    if roles != [] { WithRolesRepositories(access, repository, user, desired, attribution, roles[..|roles| - 1]); }
  }

  /** Only adding and deleting a repository changes which exist. */
  lemma {:induction false} KeepsRepositories(db: Db, op: Op)
    requires !op.OpAddRepository? && !op.OpRemoveRepository?
    ensures Apply(db, op).access.repositories == db.access.repositories
  {
    match op
    case OpSetRoles(actor, repository, user, desired, now) =>
      WithRolesRepositories(db.access, repository, user, desired, Attribution(actor, now), REPOSITORY_ROLES);
    case OpAccept(_, _, _, _, _, _, _) =>
    case OpGrant(_, _, _) =>
    case OpRevoke(_, _) =>
    case _ => OtherOpAccess(db, op);
  }

  lemma {:induction false} StepKeepsLinks(w: World, op: Op)
    requires Valid(w.db) && MayStep(w, op) && LinksIntact(w)
    ensures LinksIntact(Step(w, op))
  {
    if op.OpInvite? { InviteKeepsLinks(w, op); }
    else if op.OpReissue? { ReissueKeepsLinks(w, op); }
    else if op.OpReplace? { ReplaceKeepsLinks(w, op); }
    else if op.OpCancel? || op.OpAccept? { RetireKeepsLinks(w, op); }
    else if op.OpRemoveRepository? { RemoveKeepsLinks(w, op); }
    else if op.OpAddRepository? { AddKeepsLinks(w, op); }
    else if AccountOp(op) { AccountRowsKeepLinks(w, op); }
    else { OtherRowsKeepLinks(w, op); }
  }

  lemma {:induction false} OtherRowsKeepLinks(w: World, op: Op)
    requires LinksIntact(w) && MayStep(w, op)
    requires !AccountOp(op) && !InvitationOp(op) && !op.OpAddRepository? && !op.OpRemoveRepository?
    ensures LinksIntact(Step(w, op))
  {
    OtherOpRows(w.db, op);
    KeepsRepositories(w.db, op);
    var after := Step(w, op);
    forall i | i in after.db.invites.rows && after.db.invites.rows[i].Pending? ensures LinkIntact(after, i) {
      assert LinkIntact(w, i);
    }
  }

  lemma {:induction false} AccountRowsKeepLinks(w: World, op: Op)
    requires LinksIntact(w) && AccountOp(op)
    ensures LinksIntact(Step(w, op))
  {
    AccountOpRows(w.db, op);
    var after := Step(w, op);
    forall i | i in after.db.invites.rows && after.db.invites.rows[i].Pending? ensures LinkIntact(after, i) {
      assert LinkIntact(w, i);
    }
  }

  lemma {:induction false} LinksAlwaysIntact(h: History, k: nat)
    requires Legal(h) && k <= |h.ops|
    ensures LinksIntact(h.states[k])
  {
    if k > 0 {
      LinksAlwaysIntact(h, k - 1);
      AlwaysValid(h, k - 1);
      StepKeepsLinks(h.states[k - 1], h.ops[k - 1]);
    }
  }

  // ------------------------------------------------------- what acceptance grants

  /** Step `k` accepted the link `digest`. */
  ghost predicate Accepted(h: History, k: nat, digest: int) {
    && k < |h.ops| < |h.states| && h.ops[k].OpAccept? && h.ops[k].digest == digest
    && AcceptInvitation(h.states[k].db, h.ops[k].id, digest, h.ops[k].user, h.ops[k].order,
                        h.ops[k].acceptable, h.ops[k].hash, h.ops[k].now).1 == Done
  }

  lemma StepKeepsIssued(w: World, op: Op, digest: int)
    requires MayStep(w, op) && digest in w.links
    ensures digest in Step(w, op).links && Step(w, op).links[digest] == w.links[digest]
  {
  }

  lemma {:induction false} IssuedStays(h: History, i: nat, k: nat, digest: int)
    requires Legal(h) && i <= k <= |h.ops| && digest in h.states[i].links
    ensures digest in h.states[k].links && h.states[k].links[digest] == h.states[i].links[digest]
    decreases k
  {
    if i < k {
      IssuedStays(h, i, k - 1, digest);
      StepKeepsIssued(h.states[k - 1], h.ops[k - 1], digest);
    }
  }

  function GrantsOf(grants: map<Grant, Attribution>, user: int): set<Grant> {
    set g | g in grants && g.user == user :: g
  }

  /**
   The account an accepted link creates holds exactly the roles the link offered
   when it was issued, no more and no fewer, whatever happened in between.
   */
  lemma AcceptanceGrantsWhatWasIssued(h: History, i: nat, k: nat, digest: int, link: Link)
    requires Legal(h) && i < k < |h.ops| && Issues(h.states[i].db, h.ops[i]) == Some((digest, link)) && Accepted(h, k, digest)
    ensures GrantsOf(h.states[k + 1].db.access.grants, h.ops[k].user) == GrantsFor(h.ops[k].user, link.roles)
    ensures forall g :: g in h.states[k].db.access.grants ==>
              g in h.states[k + 1].db.access.grants && h.states[k + 1].db.access.grants[g] == h.states[k].db.access.grants[g]
  {
    var db, op := h.states[k].db, h.ops[k];
    AlwaysValid(h, k);
    LinksAlwaysIntact(h, k);
    assert h.states[i + 1].links[digest] == link;
    IssuedStays(h, i + 1, k, digest);
    assert LinkIntact(h.states[k], op.id);
    SubsetOfSameSize(StagedFor(db.invites.staged, op.id), link.roles);
    var after := h.states[k + 1].db.access.grants;
    assert after == Granted(db.access.grants, GrantsFor(op.user, link.roles), Attribution(db.invites.rows[op.id].authorizer, op.now));
    forall g ensures g in GrantsOf(after, op.user) <==> g in GrantsFor(op.user, link.roles) {
      assert g in db.access.grants ==> g.user in db.users;
    }
  }

  /** The link can no longer be accepted by anyone. */
  ghost predicate Spent(w: World, digest: int) {
    digest in w.links && forall i :: i in w.db.invites.rows && w.db.invites.rows[i].Pending? ==> w.db.invites.rows[i].digest != digest
  }

  lemma {:induction false} InvitationStaysSpent(w: World, op: Op, digest: int)
    requires MayStep(w, op) && Spent(w, digest) && InvitationOp(op)
    ensures Spent(Step(w, op), digest)
  {
  }

  lemma {:induction false} StepStaysSpent(w: World, op: Op, digest: int)
    requires MayStep(w, op) && Spent(w, digest)
    ensures Spent(Step(w, op), digest)
  {
    if AccountOp(op) { AccountOpRows(w.db, op); }
    else if InvitationOp(op) { InvitationStaysSpent(w, op, digest); }
    else if op.OpRemoveRepository? { RemovalLeavesRows(w, op.repository); }
    else { OtherOpRows(w.db, op); }
  }

  lemma {:induction false} SpentForGood(h: History, i: nat, k: nat, digest: int)
    requires Legal(h) && i <= k <= |h.ops| && Spent(h.states[i], digest)
    ensures Spent(h.states[k], digest)
    decreases k
  {
    if i < k {
      SpentForGood(h, i, k - 1, digest);
      StepStaysSpent(h.states[k - 1], h.ops[k - 1], digest);
    }
  }

  /** Accepting a link spends it: no other row carries its digest. */
  lemma {:induction false} AcceptSpends(w: World, op: Op)
    requires MayStep(w, op) && LinksIntact(w) && op.OpAccept?
    requires AcceptInvitation(w.db, op.id, op.digest, op.user, op.order, op.acceptable, op.hash, op.now).1 == Done
    ensures Spent(Step(w, op), op.digest)
  {
    assert LinkIntact(w, op.id);
    var rows := Step(w, op).db.invites.rows;
    forall j | j in rows && rows[j].Pending? ensures rows[j].digest != op.digest {
      assert LinkIntact(w, j);
    }
  }

  /** A link is accepted at most once. */
  lemma AcceptedAtMostOnce(h: History, i: nat, k: nat, digest: int)
    requires Legal(h) && i < k && Accepted(h, i, digest)
    ensures !Accepted(h, k, digest)
  {
    if k < |h.ops| {
      LinksAlwaysIntact(h, i);
      AcceptSpends(h.states[i], h.ops[i]);
      SpentForGood(h, i + 1, k, digest);
    }
  }

  /** A subset as large as the whole is the whole. */
  lemma {:induction false} KeptCount(repositories: set<int>, roles: set<RepositoryRole>)
    ensures |Kept(repositories, roles)| == |roles| <==> KnownRepositories(repositories, roles)
  {
    if |Kept(repositories, roles)| == |roles| {
      SubsetOfSameSize(Kept(repositories, roles), roles);
    }
    if KnownRepositories(repositories, roles) { KeptAll(repositories, roles); }
  }

  /**
   A pending link is acceptable exactly until it expires or a repository it
   offered is deleted: comparing two counts decides whether the whole offer stands.
   */
  lemma {:induction false} CountCheckIsSetEquality(h: History, k: nat, id: int, now: int)
    requires Legal(h) && k <= |h.ops| && id in h.states[k].db.invites.rows && h.states[k].db.invites.rows[id].Pending?
    ensures var w, row := h.states[k], h.states[k].db.invites.rows[id];
            && row.digest in w.links
            && (Acceptable(w.db, id, now) <==>
                  row.expiresAt > now && forall r :: r in w.links[row.digest].roles ==> r.0 in w.db.access.repositories)
            && (Acceptable(w.db, id, now) ==> StagedFor(w.db.invites.staged, id) == w.links[row.digest].roles)
  {
    AlwaysValid(h, k);
    LinksAlwaysIntact(h, k);
    var w, row := h.states[k], h.states[k].db.invites.rows[id];
    assert LinkIntact(w, id);
    AcceptanceRechecks(w.db, id, now);
    KeptCount(w.db.access.repositories, w.links[row.digest].roles);
    if KnownRepositories(w.db.access.repositories, w.links[row.digest].roles) {
      KeptAll(w.db.access.repositories, w.links[row.digest].roles);
    }
  }

  const ANN := User("a@x", "A", true, false, Some(Credential(0, false)))

  /** One repository and one Administrator. */
  const SETTLED := Step(Step(EMPTY, OpAddRepository(1)), OpFirstAdmin(1, "a@x", "A", true, 0, 1, 9))

  lemma {:induction false} SettledState()
    ensures SETTLED.db.users == map[1 := ANN] && SETTLED.db.access == Access({1}, map[], [])
    ensures SETTLED.db.invites == Invites(map[], {}) && SETTLED.links == map[] && SETTLED.known == {1}
    ensures Step(EMPTY, OpAddRepository(1)).db.users == map[] && Step(EMPTY, OpAddRepository(1)).db.sessions == map[]
  {
  }

  /** A settled history with one more step, after which the repository is deleted. */
  function ThenDeleted(third: Op): History {
    var fourth := OpRemoveRepository(1);
    History([OpAddRepository(1), OpFirstAdmin(1, "a@x", "A", true, 0, 1, 9), third, fourth],
            [EMPTY, Step(EMPTY, OpAddRepository(1)), SETTLED, Step(SETTLED, third), Step(Step(SETTLED, third), fourth)])
  }

  lemma {:induction false} ThenDeletedLegal(third: Op)
    requires MayStep(SETTLED, third)
    ensures Legal(ThenDeleted(third))
  {
    SettledState();
    var h := ThenDeleted(third);
    forall k | 0 <= k < |h.ops| ensures MayStep(h.states[k], h.ops[k]) && h.states[k + 1] == Step(h.states[k], h.ops[k]) {
      assert k == 0 || k == 1 || k == 2 || k == 3;
    }
  }

  const OFFER := Offer("b@x", "B", false, {(1, Viewer)}, true)

  lemma {:induction false} InviteOutcome()
    ensures MayStep(SETTLED, OpInvite(1, 1, OFFER, 9, 100))
    ensures CreateInvitation(SETTLED.db, 1, 1, OFFER, 9, 100).1 == Done
  {
    SettledState();
    assert ANN.email != OFFER.email by { assert ANN.email[0] == 'a' && OFFER.email[0] == 'b'; }
  }

  lemma {:induction false} InviteStates()
    ensures var w := Step(SETTLED, OpInvite(1, 1, OFFER, 9, 100));
            && w.db.invites.rows == map[1 := Pending("b@x", "B", 9, 100, false, 1, 1)]
            && w.links == map[9 := Link(1, OFFER.roles)] && w.db.access == SETTLED.db.access
  {
    SettledState();
    InviteOutcome();
    assert |OFFER.roles| == 1;
  }

  lemma {:induction false} RemovalLeavesRows(w: World, repository: int)
    ensures var after := Step(w, OpRemoveRepository(repository));
            && after.db.invites.rows == w.db.invites.rows && after.links == w.links
            && after.db.access.repositories == w.db.access.repositories - {repository}
  {
  }

  /** Invitation 1 is pending and has not expired at `now`. */
  ghost predicate Unexpired(db: Db, now: int) {
    1 in db.invites.rows && db.invites.rows[1].Pending? && db.invites.rows[1].expiresAt > now
  }

  lemma {:induction false} OfferStands(h: History, k: nat)
    requires Legal(h) && k <= |h.ops| && Unexpired(h.states[k].db, 0)
    requires h.states[k].links == map[9 := Link(1, OFFER.roles)] && h.states[k].db.invites.rows[1].digest == 9
    ensures Acceptable(h.states[k].db, 1, 0) <==> 1 in h.states[k].db.access.repositories
  {
    CountCheckIsSetEquality(h, k, 1, 0);
    assert (1, Viewer) in OFFER.roles;
  }

  lemma {:induction false} StrandedStates()
    ensures var invited := Step(SETTLED, OpInvite(1, 1, OFFER, 9, 100));
            var deleted := Step(invited, OpRemoveRepository(1));
            && Unexpired(invited.db, 0) && Unexpired(deleted.db, 0)
            && 1 in invited.db.access.repositories && 1 !in deleted.db.access.repositories
            && invited.links == deleted.links == map[9 := Link(1, OFFER.roles)]
            && invited.db.invites.rows[1].digest == 9 && deleted.db.invites.rows[1].digest == 9
  {
    SettledState();
    InviteStates();
    RemovalLeavesRows(Step(SETTLED, OpInvite(1, 1, OFFER, 9, 100)), 1);
  }

  /** Deleting a repository takes an unexpired link's offer away: the link stays pending and nobody can accept it. */
  lemma {:induction false} DeletionStrandsALink() returns (h: History)
    ensures Legal(h) && |h.ops| == 4 && h.ops[3] == OpRemoveRepository(1)
    ensures Unexpired(h.states[3].db, 0) && Acceptable(h.states[3].db, 1, 0)
    ensures Unexpired(h.states[4].db, 0) && !Acceptable(h.states[4].db, 1, 0)
  {
    h := ThenDeleted(OpInvite(1, 1, OFFER, 9, 100));
    InviteOutcome();
    ThenDeletedLegal(OpInvite(1, 1, OFFER, 9, 100));
    StrandedStates();
    OfferStands(h, 3);
    OfferStands(h, 4);
  }

  // --------------------------------------------------------- the audit trail

  /** The grants an event trail leaves, starting from none. */
  function Replay(events: seq<GrantEvent>): set<Grant> {
    if events == [] then {}
    else
      var before := Replay(events[..|events| - 1]);
      match events[|events| - 1]
      case GrantAdded(g) => before + {g}
      case GrantRevoked(g) => before - {g}
  }

  lemma {:induction false} ReplaySnoc(events: seq<GrantEvent>, e: GrantEvent)
    ensures Replay(events + [e]) == if e.GrantAdded? then Replay(events) + {e.grant} else Replay(events) - {e.grant}
  {
    assert (events + [e])[..|events|] == events;
  }

  lemma {:induction false} ReplayAdded(events: seq<GrantEvent>, order: seq<Grant>)
    ensures Replay(events + AddedEvents(order)) == Replay(events) + (set g | g in order)
  {
    if order == [] {
      assert events + [] == events;
    } else {
      var last := |order| - 1;
      ReplayAdded(events, order[..last]);
      assert events + AddedEvents(order) == (events + AddedEvents(order[..last])) + [GrantAdded(order[last])];
      ReplaySnoc(events + AddedEvents(order[..last]), GrantAdded(order[last]));
      assert (set g | g in order) == (set g | g in order[..last]) + {order[last]} by {
        assert order == order[..last] + [order[last]];
      }
    }
  }

  /** Live grants are the replayed ones whose repository still exists. */
  ghost predicate Audited(access: Access, known: set<int>) {
    && access.repositories <= known
    && (forall g :: g in Replay(access.events) ==> g.repository in known)
    && (forall g :: g in access.grants <==> g in Replay(access.events) && g.repository in access.repositories)
  }

  lemma {:induction false} WithRoleAudited(access: Access, known: set<int>, g: Grant, wanted: bool, attribution: Attribution)
    requires Audited(access, known) && g.repository in access.repositories
    ensures Audited(WithRole(access, g, wanted, attribution), known)
  {
    ReplaySnoc(access.events, GrantAdded(g));
    ReplaySnoc(access.events, GrantRevoked(g));
  }

  lemma {:induction false} WithRolesAudited(
    access: Access, known: set<int>, repository: int, user: int, desired: set<Role>, attribution: Attribution, roles: seq<Role>)
    requires Audited(access, known) && repository in access.repositories
    ensures Audited(WithRoles(access, repository, user, desired, attribution, roles), known)
    ensures WithRoles(access, repository, user, desired, attribution, roles).repositories == access.repositories
  {
    if roles != [] {
      var last := |roles| - 1;
      WithRolesAudited(access, known, repository, user, desired, attribution, roles[..last]);
      WithRoleAudited(WithRoles(access, repository, user, desired, attribution, roles[..last]), known,
                      Grant(repository, user, roles[last]), roles[last] in desired, attribution);
    }
  }

  lemma AcceptAudited(w: World, op: Op)
    requires Valid(w.db) && MayStep(w, op) && Audited(w.db.access, w.known) && op.OpAccept?
    ensures Audited(Step(w, op).db.access, w.known)
  {
    if AcceptInvitation(w.db, op.id, op.digest, op.user, op.order, op.acceptable, op.hash, op.now).1 == Done {
      var added := GrantsFor(op.user, StagedFor(w.db.invites.staged, op.id));
      ReplayAdded(w.db.access.events, op.order);
      assert (set g | g in op.order) == added;
      forall g | g in added ensures g.repository in w.db.access.repositories {
        var r :| r in StagedFor(w.db.invites.staged, op.id) && Grant(r.0, op.user, r.1) == g;
      }
    }
  }

  lemma {:induction false} GrantAudited(w: World, op: Op)
    requires Audited(w.db.access, w.known) && (op.OpGrant? || op.OpRevoke?)
    ensures Audited(Apply(w.db, op).access, w.known)
  {
    ReplaySnoc(w.db.access.events, GrantAdded(op.grant));
    ReplaySnoc(w.db.access.events, GrantRevoked(op.grant));
  }

  lemma SetRolesAudited(w: World, op: Op)
    requires Audited(w.db.access, w.known) && op.OpSetRoles?
    ensures Audited(Apply(w.db, op).access, w.known)
  {
    if SetRoles(w.db, op.actor, op.repository, op.user, op.desired, op.now).1 == Done {
      WithRolesAudited(w.db.access, w.known, op.repository, op.user, op.desired, Attribution(op.actor, op.now), REPOSITORY_ROLES);
    }
  }

  lemma RepositoryAudited(w: World, op: Op)
    requires MayStep(w, op) && Audited(w.db.access, w.known) && (op.OpAddRepository? || op.OpRemoveRepository?)
    ensures Audited(Step(w, op).db.access, Step(w, op).known)
  {
  }

  lemma StepAudited(w: World, op: Op)
    requires Valid(w.db) && MayStep(w, op) && Audited(w.db.access, w.known)
    ensures Audited(Step(w, op).db.access, Step(w, op).known)
  {
    if op.OpAccept? { AcceptAudited(w, op); }
    else if op.OpGrant? || op.OpRevoke? { GrantAudited(w, op); }
    else if op.OpSetRoles? { SetRolesAudited(w, op); }
    else if op.OpAddRepository? || op.OpRemoveRepository? { RepositoryAudited(w, op); }
    else { OtherOpAccess(w.db, op); }
  }

  /** Replaying the audit trail gives the live grants, up to repositories deleted since. */
  lemma {:induction false} ReplayGivesLiveGrants(h: History, k: nat)
    requires Legal(h) && k <= |h.ops|
    ensures Audited(h.states[k].db.access, h.states[k].known)
  {
    if k > 0 {
      ReplayGivesLiveGrants(h, k - 1);
      AlwaysValid(h, k - 1);
      StepAudited(h.states[k - 1], h.ops[k - 1]);
    }
  }

  lemma {:induction false} RepositoriesStay(h: History, k: nat)
    requires Legal(h) && k <= |h.ops| && forall m :: 0 <= m < k ==> !h.ops[m].OpRemoveRepository?
    ensures h.states[k].known == h.states[k].db.access.repositories
  {
    if k > 0 {
      RepositoriesStay(h, k - 1);
      AllStay(h.states[k - 1], h.ops[k - 1]);
    }
  }

  lemma {:induction false} AllStay(w: World, op: Op)
    requires w.known == w.db.access.repositories && !op.OpRemoveRepository?
    ensures Step(w, op).known == Step(w, op).db.access.repositories
  {
    if !op.OpAddRepository? { KeepsRepositories(w.db, op); }
  }

  /** While no repository is deleted, the trail and the table agree exactly. */
  lemma TrailIsTheTable(h: History, k: nat)
    requires Legal(h) && k <= |h.ops| && forall m :: 0 <= m < k ==> !h.ops[m].OpRemoveRepository?
    ensures h.states[k].db.access.grants.Keys == Replay(h.states[k].db.access.events)
  {
    ReplayGivesLiveGrants(h, k);
    RepositoriesStay(h, k);
  }

  lemma {:induction false} GrantStates(g: Grant)
    requires g == Grant(1, 1, Viewer)
    ensures MayStep(SETTLED, OpGrant(1, g, 0)) && Step(SETTLED, OpGrant(1, g, 0)).db.access.events == [GrantAdded(g)]
  {
    SettledState();
  }

  /** Deleting a repository records no event, so the trail alone then tells of a grant that is gone. */
  lemma {:induction false} DeletionLeavesTheTrail() returns (h: History, g: Grant)
    ensures Legal(h) && |h.ops| == 4 && h.ops[3] == OpRemoveRepository(1)
    ensures g in Replay(h.states[4].db.access.events) && g !in h.states[4].db.access.grants
  {
    g := Grant(1, 1, Viewer);
    h := ThenDeleted(OpGrant(1, g, 0));
    GrantStates(g);
    ThenDeletedLegal(OpGrant(1, g, 0));
    ReplaySnoc([], GrantAdded(g));
    assert [] + [GrantAdded(g)] == [GrantAdded(g)];
  }

  // -------------------------------------------------------------- setting roles

  /** The events one role of a desired set contributes. */
  function RoleEvents(access: Access, g: Grant, wanted: bool): seq<GrantEvent> {
    if g !in access.grants && wanted then [GrantAdded(g)]
    else if g in access.grants && !wanted then [GrantRevoked(g)]
    else []
  }

  lemma WithRoleEffect(access: Access, g: Grant, wanted: bool, attribution: Attribution)
    ensures var after := WithRole(access, g, wanted, attribution);
            && (g in after.grants <==> wanted)
            && (forall other: Grant :: other != g ==> (other in after.grants <==> other in access.grants))
            && (forall other :: other in access.grants && other in after.grants ==> after.grants[other] == access.grants[other])
            && after.events == access.events + RoleEvents(access, g, wanted)
  {
  }

  lemma ThreeRoles(access: Access, repository: int, user: int, desired: set<Role>, attribution: Attribution)
    ensures WithRoles(access, repository, user, desired, attribution, REPOSITORY_ROLES)
         == WithRole(WithRole(WithRole(access, Grant(repository, user, Viewer), Viewer in desired, attribution),
                              Grant(repository, user, Freezer), Freezer in desired, attribution),
                     Grant(repository, user, ThawApprover), ThawApprover in desired, attribution)
  {
    var r0, r1, r2 := [Viewer], [Viewer, Freezer], REPOSITORY_ROLES;
    assert r0[..0] == [] && r1[..1] == r0 && r2[..2] == r1;
    var a0 := WithRole(access, Grant(repository, user, Viewer), Viewer in desired, attribution);
    assert WithRoles(access, repository, user, desired, attribution, r0) == a0;
    assert WithRoles(access, repository, user, desired, attribution, r1)
        == WithRole(a0, Grant(repository, user, Freezer), Freezer in desired, attribution);
  }

  /** What setting roles does to one grant. */
  lemma RolesEffectOn(access: Access, repository: int, user: int, desired: set<Role>, attribution: Attribution, g: Grant)
    ensures var after := WithRoles(access, repository, user, desired, attribution, REPOSITORY_ROLES);
            && (g in after.grants <==> if g.repository == repository && g.user == user && g.role.ValidForRepository()
                                       then g.role in desired else g in access.grants)
            && (g in access.grants && g in after.grants ==> after.grants[g] == access.grants[g])
  {
    ThreeRoles(access, repository, user, desired, attribution);
    var viewer, freezer := Grant(repository, user, Viewer), Grant(repository, user, Freezer);
    var a0 := WithRole(access, viewer, Viewer in desired, attribution);
    var a1 := WithRole(a0, freezer, Freezer in desired, attribution);
    assert g in a0.grants <==> if g == viewer then Viewer in desired else g in access.grants;
    assert g in a1.grants <==> if g == freezer then Freezer in desired else g in a0.grants;
  }

  lemma RolesEffect(access: Access, repository: int, user: int, desired: set<Role>, attribution: Attribution)
    requires forall g :: g in access.grants ==> g.role.ValidForRepository()
    requires forall r :: r in desired ==> r.ValidForRepository()
    ensures var after := WithRoles(access, repository, user, desired, attribution, REPOSITORY_ROLES);
            && (forall role :: Grant(repository, user, role) in after.grants <==> role in desired)
            && (forall g: Grant :: g.repository != repository || g.user != user ==> (g in after.grants <==> g in access.grants))
            && (forall g :: g in access.grants && g in after.grants ==> after.grants[g] == access.grants[g])
  {
    forall g: Grant { RolesEffectOn(access, repository, user, desired, attribution, g); }
  }

  /** Each role's event depends on its own grant alone, so the three are independent. */
  lemma RolesEvents(access: Access, repository: int, user: int, desired: set<Role>, attribution: Attribution)
    ensures WithRoles(access, repository, user, desired, attribution, REPOSITORY_ROLES).events == access.events
              + RoleEvents(access, Grant(repository, user, Viewer), Viewer in desired)
              + RoleEvents(access, Grant(repository, user, Freezer), Freezer in desired)
              + RoleEvents(access, Grant(repository, user, ThawApprover), ThawApprover in desired)
  {
    ThreeRoles(access, repository, user, desired, attribution);
    var viewer, freezer, approver := Grant(repository, user, Viewer), Grant(repository, user, Freezer), Grant(repository, user, ThawApprover);
    var a0 := WithRole(access, viewer, Viewer in desired, attribution);
    var a1 := WithRole(a0, freezer, Freezer in desired, attribution);
    WithRoleEffect(access, viewer, Viewer in desired, attribution);
    WithRoleEffect(a0, freezer, Freezer in desired, attribution);
    WithRoleEffect(a1, approver, ThawApprover in desired, attribution);
  }

  /**
   Setting a user's roles leaves exactly the desired ones, keeps the attribution of
   those already held, touches no other grant, and records exactly the symmetric
   difference: one addition per missing role, one revocation per surplus role.
   */
  lemma SetRolesIsSymmetricDifference(db: Db, actor: int, repository: int, user: int, desired: set<Role>, now: int)
    requires SetRoles(db, actor, repository, user, desired, now).1 == Done
    requires forall g :: g in db.access.grants ==> g.role.ValidForRepository()
    ensures var before, after := db.access, SetRoles(db, actor, repository, user, desired, now).0.access;
            && (forall role :: Grant(repository, user, role) in after.grants <==> role in desired)
            && (forall g :: g in before.grants && g in after.grants ==> after.grants[g] == before.grants[g])
            && (forall g: Grant :: g.repository != repository || g.user != user ==> (g in after.grants <==> g in before.grants))
            && after.events == before.events
                 + RoleEvents(before, Grant(repository, user, Viewer), Viewer in desired)
                 + RoleEvents(before, Grant(repository, user, Freezer), Freezer in desired)
                 + RoleEvents(before, Grant(repository, user, ThawApprover), ThawApprover in desired)
  {
    var attribution := Attribution(actor, now);
    RolesEffect(db.access, repository, user, desired, attribution);
    RolesEvents(db.access, repository, user, desired, attribution);
  }
}
