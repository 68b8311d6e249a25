/**
 Accounts, invitations, repository grants and the company sign-in connection:
 the tables two packages share, and what each transaction does to them.
 */
module Authority {
  import opened Wrappers

  // ------------------------------------------------------------------- tables

  /** Password hashes are opaque values. */
  datatype Credential = Credential(hash: int, mustChange: bool)

  datatype User = User(email: string, displayName: string, admin: bool, disabled: bool, credential: Option<Credential>)

  datatype RecoveryToken = RecoveryToken(digest: int, expiresAt: int)

  datatype Role = Viewer | Freezer | ThawApprover | OtherRole(name: string)
  {
    predicate ValidForRepository() { !OtherRole? }
  }

  const REPOSITORY_ROLES: seq<Role> := [Viewer, Freezer, ThawApprover]

  /** A repository role staged on an invitation or asked for in a form. */
  type RepositoryRole = (int, Role)

  /** Accepted and cancelled rows are redacted to their status alone. */
  datatype Invitation =
    | Pending(email: string, displayName: string, digest: int, expiresAt: int, admin: bool, authorizer: int, expected: nat)
    | NeedsReissue(email: string, displayName: string, admin: bool, expected: nat)
    | Accepted
    | Cancelled
  {
    predicate Active() { Pending? || NeedsReissue? }
  }

  datatype Staged = Staged(invitation: int, repository: int, role: Role)

  datatype Grant = Grant(repository: int, user: int, role: Role)

  datatype Attribution = Attribution(grantedBy: int, grantedAt: int)

  datatype GrantEvent = GrantAdded(grant: Grant) | GrantRevoked(grant: Grant)

  datatype Connection = Connection(
    enabled: bool, revision: int, generation: int, issuer: string, clientID: string, secret: int,
    domains: seq<string>, providerLabel: string, checkVerified: bool, signInTested: bool)
  {
    predicate ReadyEvidence() { checkVerified && signInTested }
  }

  datatype Identity = Identity(user: int, issuer: string, clientID: string, revision: int, subject: string)

  datatype LinkTransaction = LinkTransaction(revision: int, generation: int, actor: int, session: int, expiresAt: int)

  datatype LoginTransaction = LoginTransaction(revision: int, generation: int, browser: int, expiresAt: int)

  datatype Session = Session(user: int, company: bool, expiresAt: int)

  datatype Invites = Invites(rows: map<int, Invitation>, staged: set<Staged>)

  datatype Access = Access(repositories: set<int>, grants: map<Grant, Attribution>, events: seq<GrantEvent>)

  /** One-time transactions are keyed by the digest of their state value. */
  datatype Company = Company(
    connection: Option<Connection>, identity: Option<Identity>,
    links: map<int, LinkTransaction>, logins: map<int, LoginTransaction>)

  datatype Db = Db(
    users: map<int, User>, recovery: map<int, RecoveryToken>, invites: Invites, access: Access,
    company: Company, sessions: map<int, Session>)

  datatype Refusal = Validation | Unauthorized | Conflict | NotReady | ConnectionEnabled | Exhausted | Invalid | Configuration

  datatype Outcome = Done | Refused(reason: Refusal)

  // ----------------------------------------------------------------- authority

  predicate EnabledAdmin(users: map<int, User>, u: int) { u in users && !users[u].disabled && users[u].admin }

  /** Enabled Administrator with a local credential that is not due for a forced change. */
  predicate Eligible(users: map<int, User>, u: int) {
    EnabledAdmin(users, u) && users[u].credential.Some? && !users[u].credential.value.mustChange
  }

  predicate LocalAdminRemains(users: map<int, User>) {
    exists u :: u in users && EnabledAdmin(users, u) && users[u].credential.Some?
  }

  predicate EmailTaken(users: map<int, User>, email: string) { exists u :: u in users && users[u].email == email }

  predicate EmailReserved(rows: map<int, Invitation>, email: string) {
    exists i :: i in rows && rows[i].Active() && rows[i].email == email
  }

  function WithoutSessionsOf(sessions: map<int, Session>, user: int): map<int, Session> {
    map s | s in sessions && sessions[s].user != user :: sessions[s]
  }

  function WithoutCompanySessions(sessions: map<int, Session>): map<int, Session> {
    map s | s in sessions && !sessions[s].company :: sessions[s]
  }

  /** Pending invitations a lost Administrator had authorized go back for reissue. */
  function Invalidated(rows: map<int, Invitation>, authorizer: int): map<int, Invitation> {
    map i | i in rows ::
      if rows[i].Pending? && rows[i].authorizer == authorizer
      then NeedsReissue(rows[i].email, rows[i].displayName, rows[i].admin, rows[i].expected) else rows[i]
  }

  /** Company sign-in off: connection disabled, generation stepped, one-time transactions and sessions gone. */
  function ShutOff(db: Db): Db
    requires db.company.connection.Some?
  {
    var c := db.company.connection.value;
    db.(company := db.company.(
          connection := Some(c.(enabled := false, generation := c.generation + 1)), links := map[], logins := map[]),
        sessions := WithoutCompanySessions(db.sessions))
  }

  /** None when the generation cannot step, which rolls the caller's transaction back. */
  function Secured(db: Db, user: int): Option<Db> {
    if db.company.identity.None? || db.company.identity.value.user != user then Some(db)
    else if db.company.connection.None? || db.company.connection.value.generation == MAX_INT64 then None
    else Some(ShutOff(db))
  }

  // ------------------------------------------------------------------ accounts

  function CreateFirstAdmin(db: Db, id: int, email: string, name: string, acceptable: bool, hash: int, session: int, expiresAt: int): (Db, Outcome) {
    if !acceptable then (db, Refused(Validation))
    else if db.users != map[] then (db, Refused(Validation))
    else
      (db.(users := map[id := User(email, name, true, false, Some(Credential(hash, false)))],
           sessions := db.sessions[session := Session(id, false, expiresAt)]), Done)
  }

  function CreateUser(db: Db, actor: int, id: int, email: string, name: string, acceptable: bool, hash: int): (Db, Outcome) {
    if !acceptable then (db, Refused(Validation))
    else if !EnabledAdmin(db.users, actor) then (db, Refused(Unauthorized))
    else if EmailReserved(db.invites.rows, email) || EmailTaken(db.users, email) then (db, Refused(Validation))
    else (db.(users := db.users[id := User(email, name, false, false, Some(Credential(hash, true)))]), Done)
  }

  function SetUserAdmin(db: Db, actor: int, user: int, admin: bool): (Db, Outcome) {
    if !EnabledAdmin(db.users, actor) then (db, Refused(Unauthorized))
    else if user !in db.users then (db, Refused(Validation))
    else
      var changed := db.(users := db.users[user := db.users[user].(admin := admin)]);
      if admin then (changed, Done)
      else if !LocalAdminRemains(changed.users) then (db, Refused(Validation))
      else if !db.users[user].admin then (changed, Done)
      else
        var secured := Secured(changed.(invites := db.invites.(rows := Invalidated(db.invites.rows, user))), user);
        if secured.None? then (db, Refused(Exhausted)) else (secured.value, Done)
  }

  function DisableUser(db: Db, actor: int, user: int): (Db, Outcome) {
    if !EnabledAdmin(db.users, actor) then (db, Refused(Unauthorized))
    else if user !in db.users || db.users[user].disabled then (db, Refused(Validation))
    else
      var users := db.users[user := db.users[user].(disabled := true)];
      if !LocalAdminRemains(users) then (db, Refused(Validation))
      else
        var secured := Secured(
          db.(users := users, invites := db.invites.(rows := Invalidated(db.invites.rows, user)),
              sessions := WithoutSessionsOf(db.sessions, user), recovery := db.recovery - {user}), user);
        if secured.None? then (db, Refused(Exhausted)) else (secured.value, Done)
  }

  function EnableUser(db: Db, actor: int, user: int): (Db, Outcome) {
    if !EnabledAdmin(db.users, actor) then (db, Refused(Unauthorized))
    else if user !in db.users || !db.users[user].disabled then (db, Refused(Validation))
    else (db.(users := db.users[user := db.users[user].(disabled := false)]), Done)
  }

  function WithHash(users: map<int, User>, user: int, hash: int, mustChange: bool): map<int, User>
    requires user in users
  {
    users[user := users[user].(credential := Some(Credential(hash, mustChange)))]
  }

  /** `verified` is the hash the current password was checked against before the transaction. */
  function ChangePassword(db: Db, user: int, verified: int, hash: int, session: int, expiresAt: int): (Db, Outcome) {
    if user !in db.users || db.users[user].disabled || db.users[user].credential.None?
       || db.users[user].credential.value.hash != verified then (db, Refused(Validation))
    else
      (db.(users := WithHash(db.users, user, hash, false), recovery := db.recovery - {user},
           sessions := WithoutSessionsOf(db.sessions, user)[session := Session(user, false, expiresAt)]), Done)
  }

  function ResetPassword(db: Db, actor: int, user: int, acceptable: bool, hash: int): (Db, Outcome) {
    if actor == user || !acceptable then (db, Refused(Validation))
    else if !EnabledAdmin(db.users, actor) then (db, Refused(Unauthorized))
    else if user !in db.users || db.users[user].credential.None? then (db, Refused(Validation))
    else
      var secured := Secured(
        db.(users := WithHash(db.users, user, hash, true), recovery := db.recovery - {user},
            sessions := WithoutSessionsOf(db.sessions, user)), user);
      if secured.None? then (db, Refused(Exhausted)) else (secured.value, Done)
  }

  /** Recovery also removes the recovering user's linked company identity. */
  function RecoverPassword(db: Db, user: int, digest: int, hash: int, now: int): (Db, Outcome) {
    if user !in db.recovery || db.recovery[user].digest != digest || db.recovery[user].expiresAt <= now
       || user !in db.users || db.users[user].disabled || db.users[user].credential.None? then (db, Refused(Invalid))
    else
      var recovered := db.(
        users := WithHash(db.users, user, hash, false), recovery := db.recovery - {user},
        sessions := WithoutSessionsOf(db.sessions, user));
      if db.company.identity.None? || db.company.identity.value.user != user then (recovered, Done)
      else if db.company.connection.None? || db.company.connection.value.generation == MAX_INT64
      then (db, Refused(Exhausted))
      else (ShutOff(recovered.(company := db.company.(identity := None))), Done)
  }

  function IssueRecovery(db: Db, user: int, digest: int, expiresAt: int): (Db, Outcome) {
    if user !in db.users || db.users[user].disabled then (db, Refused(Validation))
    else (db.(recovery := db.recovery[user := RecoveryToken(digest, expiresAt)]), Done)
  }

  // --------------------------------------------------------------- invitations

  function StagedFor(staged: set<Staged>, invitation: int): set<RepositoryRole> {
    set g | g in staged && g.invitation == invitation :: (g.repository, g.role)
  }

  function StageRows(invitation: int, roles: set<RepositoryRole>): set<Staged> {
    set r | r in roles :: Staged(invitation, r.0, r.1)
  }

  function Unstaged(staged: set<Staged>, invitation: int): set<Staged> {
    set g | g in staged && g.invitation != invitation :: g
  }

  predicate ValidRoles(roles: set<RepositoryRole>) {
    forall r :: r in roles ==> r.0 > 0 && r.1.ValidForRepository()
  }

  predicate KnownRepositories(repositories: set<int>, roles: set<RepositoryRole>) {
    forall r :: r in roles ==> r.0 in repositories
  }

  datatype Offer = Offer(email: string, displayName: string, admin: bool, roles: set<RepositoryRole>, acceptable: bool)

  function CreateInvitation(db: Db, actor: int, id: int, offer: Offer, digest: int, expiresAt: int): (Db, Outcome) {
    if !offer.acceptable || !ValidRoles(offer.roles) then (db, Refused(Validation))
    else if !EnabledAdmin(db.users, actor) then (db, Refused(Unauthorized))
    else if EmailTaken(db.users, offer.email) || EmailReserved(db.invites.rows, offer.email) then (db, Refused(Validation))
    else if !KnownRepositories(db.access.repositories, offer.roles) then (db, Refused(Validation))
    else
      (db.(invites := Invites(
             db.invites.rows[id := Pending(offer.email, offer.displayName, digest, expiresAt, offer.admin, actor, |offer.roles|)],
             db.invites.staged + StageRows(id, offer.roles))), Done)
  }

  function ReissueInvitation(db: Db, actor: int, id: int, admin: bool, roles: set<RepositoryRole>, digest: int, expiresAt: int): (Db, Outcome) {
    if !ValidRoles(roles) then (db, Refused(Validation))
    else if !EnabledAdmin(db.users, actor) then (db, Refused(Unauthorized))
    else if id !in db.invites.rows || !db.invites.rows[id].Active() then (db, Refused(Validation))
    else if EmailTaken(db.users, db.invites.rows[id].email) then (db, Refused(Validation))
    else if !KnownRepositories(db.access.repositories, roles) then (db, Refused(Validation))
    else
      var row := db.invites.rows[id];
      (db.(invites := Invites(
             db.invites.rows[id := Pending(row.email, row.displayName, digest, expiresAt, admin, actor, |roles|)],
             Unstaged(db.invites.staged, id) + StageRows(id, roles))), Done)
  }

  function SurvivingRoles(db: Db, id: int): set<RepositoryRole> {
    set r | r in StagedFor(db.invites.staged, id) && r.0 in db.access.repositories :: r
  }

  /** Retires one active invitation and issues another under a new id, in one transaction. */
  function ReplaceInvitation(db: Db, actor: int, id: int, newID: int, digest: int, expiresAt: int): (Db, Outcome) {
    if !EnabledAdmin(db.users, actor) then (db, Refused(Unauthorized))
    else if id !in db.invites.rows || !db.invites.rows[id].Active() then (db, Refused(Validation))
    else if EmailTaken(db.users, db.invites.rows[id].email) then (db, Refused(Validation))
    else
      var row, roles := db.invites.rows[id], SurvivingRoles(db, id);
      (db.(invites := Invites(
             db.invites.rows[id := Cancelled][newID :=
               Pending(row.email, row.displayName, digest, expiresAt, row.admin, actor, |roles|)],
             Unstaged(db.invites.staged, id) + StageRows(newID, roles))), Done)
  }

  function CancelInvitation(db: Db, actor: int, id: int): (Db, Outcome) {
    if !EnabledAdmin(db.users, actor) then (db, Refused(Unauthorized))
    else if id !in db.invites.rows || !db.invites.rows[id].Active() then (db, Refused(Validation))
    else (db.(invites := Invites(db.invites.rows[id := Cancelled], Unstaged(db.invites.staged, id))), Done)
  }

  predicate IsLink(rows: map<int, Invitation>, id: int, digest: int) { id in rows && rows[id].Pending? && rows[id].digest == digest }

  /** The rechecks acceptance makes of a claimed invitation. */
  predicate Acceptable(db: Db, id: int, now: int)
    requires id in db.invites.rows && db.invites.rows[id].Pending?
  {
    var row := db.invites.rows[id];
    && row.expiresAt > now && EnabledAdmin(db.users, row.authorizer) && !EmailTaken(db.users, row.email)
    && (forall r :: r in StagedFor(db.invites.staged, id) ==> r.0 in db.access.repositories && r.1.ValidForRepository())
    && |StagedFor(db.invites.staged, id)| == row.expected
  }

  function GrantsFor(user: int, roles: set<RepositoryRole>): set<Grant> { set r | r in roles :: Grant(r.0, user, r.1) }

  function Granted(grants: map<Grant, Attribution>, added: set<Grant>, attribution: Attribution): map<Grant, Attribution> {
    map g | g in grants.Keys + added :: if g in grants then grants[g] else attribution
  }

  /** The events record the grants in the order they were inserted. */
  function AddedEvents(order: seq<Grant>): seq<GrantEvent> {
    if order == [] then [] else AddedEvents(order[..|order| - 1]) + [GrantAdded(order[|order| - 1])]
  }

  ghost predicate Orders(order: seq<Grant>, grants: set<Grant>) {
    && (forall g :: g in order <==> g in grants)
    && forall i, j :: 0 <= i < j < |order| ==> order[i] != order[j]
  }

  /** `order` lists the new user's grants as inserted; `user` is the fresh id. */
  function AcceptInvitation(
    db: Db, id: int, digest: int, user: int, order: seq<Grant>, acceptable: bool, hash: int, now: int): (Db, Outcome) {
    if !IsLink(db.invites.rows, id, digest) || !Acceptable(db, id, now) then (db, Refused(Invalid))
    else if !acceptable then (db, Refused(Validation))
    else
      var row, roles := db.invites.rows[id], StagedFor(db.invites.staged, id);
      (db.(users := db.users[user := User(row.email, row.displayName, row.admin, false, Some(Credential(hash, false)))],
           access := db.access.(
             grants := Granted(db.access.grants, GrantsFor(user, roles), Attribution(row.authorizer, now)),
             events := db.access.events + AddedEvents(order)),
           invites := Invites(db.invites.rows[id := Accepted], Unstaged(db.invites.staged, id))), Done)
  }

  // --------------------------------------------------------- repository grants

  function GrantRole(db: Db, actor: int, g: Grant, now: int): (Db, Outcome) {
    if !g.role.ValidForRepository() then (db, Refused(Validation))
    else if !EnabledAdmin(db.users, actor) then (db, Refused(Unauthorized))
    else if g.repository !in db.access.repositories || g.user !in db.users || g in db.access.grants then (db, Refused(Validation))
    else
      (db.(access := db.access.(
             grants := db.access.grants[g := Attribution(actor, now)], events := db.access.events + [GrantAdded(g)])), Done)
  }

  function RevokeRole(db: Db, actor: int, g: Grant): (Db, Outcome) {
    if !g.role.ValidForRepository() then (db, Refused(Validation))
    else if !EnabledAdmin(db.users, actor) then (db, Refused(Unauthorized))
    else if g !in db.access.grants then (db, Refused(Validation))
    else
      (db.(access := db.access.(grants := db.access.grants - {g}, events := db.access.events + [GrantRevoked(g)])), Done)
  }

  /** One role of a desired set: added, removed or left with its attribution. */
  function WithRole(access: Access, g: Grant, wanted: bool, attribution: Attribution): Access {
    if g !in access.grants && wanted then access.(grants := access.grants[g := attribution], events := access.events + [GrantAdded(g)])
    else if g in access.grants && !wanted then access.(grants := access.grants - {g}, events := access.events + [GrantRevoked(g)])
    else access
  }

  function WithRoles(access: Access, repository: int, user: int, desired: set<Role>, attribution: Attribution, roles: seq<Role>): Access {
    if roles == [] then access
    else
      var last := roles[|roles| - 1];
      WithRole(WithRoles(access, repository, user, desired, attribution, roles[..|roles| - 1]),
               Grant(repository, user, last), last in desired, attribution)
  }

  function SetRoles(db: Db, actor: int, repository: int, user: int, desired: set<Role>, now: int): (Db, Outcome) {
    if !forall r :: r in desired ==> r.ValidForRepository() then (db, Refused(Validation))
    else if !EnabledAdmin(db.users, actor) then (db, Refused(Unauthorized))
    else if repository !in db.access.repositories || user !in db.users then (db, Refused(Validation))
    else
      (db.(access := WithRoles(db.access, repository, user, desired, Attribution(actor, now), REPOSITORY_ROLES)), Done)
  }

  /** Deleting a repository cascades to its grants and staged rows, and records no grant event. */
  function RemoveRepository(db: Db, repository: int): Db {
    db.(access := db.access.(
          repositories := db.access.repositories - {repository},
          grants := map g | g in db.access.grants && g.repository != repository :: db.access.grants[g]),
        invites := db.invites.(staged := set g | g in db.invites.staged && g.repository != repository :: g))
  }

  // --------------------------------------------------------- company sign-in

  predicate IdentityMatches(company: Company) {
    && company.identity.Some? && company.connection.Some?
    && company.identity.value.issuer == company.connection.value.issuer
    && company.identity.value.clientID == company.connection.value.clientID
    && company.identity.value.revision == company.connection.value.revision
  }

  datatype Draft = Draft(
    providerLabel: string, issuer: string, clientID: string, secret: Option<int>, domains: seq<string>, acceptable: bool)

  /** The draft says what is already stored. */
  predicate Unchanged(c: Connection, draft: Draft) {
    draft.secret.None? && c.providerLabel == draft.providerLabel && c.issuer == draft.issuer && c.clientID == draft.clientID
    && c.domains == draft.domains
  }

  function CreateConnection(db: Db, actor: int, encryption: bool, draft: Draft): (Db, Outcome) {
    if !draft.acceptable || draft.secret.None? then (db, Refused(Validation))
    else if !encryption then (db, Refused(Configuration))
    else if !EnabledAdmin(db.users, actor) then (db, Refused(Unauthorized))
    else if db.company.connection.Some? then (db, Refused(Conflict))
    else
      (db.(company := db.company.(connection := Some(Connection(
             false, 1, 1, draft.issuer, draft.clientID, draft.secret.value, draft.domains, draft.providerLabel, false, false)))), Done)
  }

  /** Editing a disabled connection steps revision and generation and drops its evidence; the identity stays. */
  function EditConnection(db: Db, actor: int, encryption: bool, revision: int, draft: Draft): (Db, Outcome) {
    if revision <= 0 || !draft.acceptable then (db, Refused(Validation))
    else if !encryption then (db, Refused(Configuration))
    else if !EnabledAdmin(db.users, actor) then (db, Refused(Unauthorized))
    else if db.company.connection.None? || db.company.connection.value.revision != revision then (db, Refused(Conflict))
    else if db.company.connection.value.enabled then (db, Refused(ConnectionEnabled))
    else
      var c := db.company.connection.value;
      if Unchanged(c, draft) then (db, Done)
      else if c.revision == MAX_INT64 || c.generation == MAX_INT64 then (db, Refused(Exhausted))
      else
        (db.(company := db.company.(connection := Some(Connection(
               false, c.revision + 1, c.generation + 1, draft.issuer, draft.clientID,
               if draft.secret.Some? then draft.secret.value else c.secret, draft.domains, draft.providerLabel, false, false)))), Done)
  }

  /** A setup check or test sign-in finished at the current revision. */
  function RecordEvidence(db: Db, revision: int, checkVerified: bool, signInTested: bool): (Db, Outcome) {
    if db.company.connection.None? || db.company.connection.value.revision != revision then (db, Refused(Conflict))
    else
      var c := db.company.connection.value;
      (db.(company := db.company.(connection := Some(c.(checkVerified := checkVerified, signInTested := signInTested)))), Done)
  }

  function Enable(db: Db, actor: int, encryption: bool, secretValid: bool, revision: int): (Db, Outcome) {
    if !encryption then (db, Refused(Configuration))
    else if revision <= 0 then (db, Refused(Conflict))
    else if !EnabledAdmin(db.users, actor) then (db, Refused(Unauthorized))
    else if db.company.connection.None? || db.company.connection.value.revision != revision
            || db.company.connection.value.enabled then (db, Refused(Conflict))
    else
      var c := db.company.connection.value;
      if !c.ReadyEvidence() || !IdentityMatches(db.company) then (db, Refused(NotReady))
      else if !Eligible(db.users, db.company.identity.value.user) || !secretValid then (db, Refused(NotReady))
      else if c.generation == MAX_INT64 then (db, Refused(Exhausted))
      else
        (db.(company := db.company.(connection := Some(c.(enabled := true, generation := c.generation + 1)))), Done)
  }

  function Disable(db: Db, actor: int, revision: int): (Db, Outcome) {
    if revision <= 0 then (db, Refused(Conflict))
    else if !EnabledAdmin(db.users, actor) then (db, Refused(Unauthorized))
    else if db.company.connection.None? || db.company.connection.value.revision != revision
            || !db.company.connection.value.enabled then (db, Refused(Conflict))
    else
      var c := db.company.connection.value;
      if c.generation == MAX_INT64 then (db, Refused(Exhausted))
      else
        (db.(company := db.company.(connection := Some(c.(enabled := false, generation := c.generation + 1)), logins := map[]),
             sessions := WithoutCompanySessions(db.sessions)), Done)
  }

  predicate CredentialedSession(db: Db, actor: int, session: int, now: int) {
    && session in db.sessions && db.sessions[session].user == actor && now < db.sessions[session].expiresAt
    && actor in db.users && db.users[actor].credential.Some? && !db.users[actor].credential.value.mustChange
  }

  datatype LinkClaim = LinkClaim(
    actor: int, session: int, issuer: string, clientID: string, secret: int, domains: seq<string>, revision: int, generation: int)

  function StartLink(db: Db, digest: int, t: LinkTransaction): Db {
    db.(company := db.company.(links := db.company.links[digest := t]))
  }

  /** A found transaction is consumed whatever the rechecks say; only a clean one yields a claim. */
  function ClaimLink(db: Db, digest: int, session: int, now: int): (Db, Option<LinkClaim>) {
    if digest !in db.company.links then (db, None)
    else
      var t := db.company.links[digest];
      var consumed := db.(company := db.company.(links := db.company.links - {digest}));
      if now >= t.expiresAt || session != t.session || !EnabledAdmin(db.users, t.actor)
         || !CredentialedSession(db, t.actor, session, now)
         || db.company.connection.None? || db.company.connection.value.enabled || db.company.identity.Some?
         || db.company.connection.value.revision != t.revision || db.company.connection.value.generation != t.generation
         || !db.company.connection.value.ReadyEvidence() then (consumed, None)
      else
        var c := db.company.connection.value;
        (consumed, Some(LinkClaim(t.actor, session, c.issuer, c.clientID, c.secret, c.domains, c.revision, c.generation)))
  }

  function CommitLink(db: Db, claim: LinkClaim, subject: string, acceptable: bool, now: int): (Db, Outcome) {
    if !acceptable then (db, Refused(Invalid))
    else if !EnabledAdmin(db.users, claim.actor) || !CredentialedSession(db, claim.actor, claim.session, now) then (db, Refused(Invalid))
    else if db.company.connection.None? || db.company.connection.value.enabled || db.company.identity.Some? then (db, Refused(Invalid))
    else
      var c := db.company.connection.value;
      if c.revision != claim.revision || c.generation != claim.generation || c.issuer != claim.issuer
         || c.clientID != claim.clientID || c.secret != claim.secret || c.domains != claim.domains || !c.ReadyEvidence()
         || c.generation == MAX_INT64 then (db, Refused(Invalid))
      else
        (db.(company := db.company.(
               connection := Some(c.(generation := c.generation + 1)),
               identity := Some(Identity(claim.actor, c.issuer, c.clientID, c.revision, subject)), links := map[])), Done)
  }

  function UnlinkIdentity(db: Db, actor: int, session: int, revision: int, now: int): (Db, Outcome) {
    if revision <= 0 then (db, Refused(Conflict))
    else if !EnabledAdmin(db.users, actor) || !CredentialedSession(db, actor, session, now) then (db, Refused(Unauthorized))
    else if db.company.connection.None? || db.company.connection.value.revision != revision then (db, Refused(Conflict))
    else if db.company.connection.value.enabled then (db, Refused(ConnectionEnabled))
    else if db.company.identity.None? || db.company.identity.value.user != actor then (db, Refused(Conflict))
    else if db.company.connection.value.generation == MAX_INT64 then (db, Refused(Exhausted))
    else
      var c := db.company.connection.value;
      (db.(company := Company(Some(c.(generation := c.generation + 1)), None, map[], map[]),
           sessions := map s | s in db.sessions && !(db.sessions[s].company && db.sessions[s].user == actor) :: db.sessions[s]),
       Done)
  }

  function StartLogin(db: Db, digest: int, t: LoginTransaction): Db {
    db.(company := db.company.(logins := db.company.logins[digest := t]))
  }

  datatype LoginClaim = LoginClaim(user: int, revision: int, generation: int)

  function ClaimLogin(db: Db, digest: int, browser: int, now: int): (Db, Option<LoginClaim>) {
    if digest !in db.company.logins then (db, None)
    else
      var t := db.company.logins[digest];
      var consumed := db.(company := db.company.(logins := db.company.logins - {digest}));
      if now >= t.expiresAt || browser != t.browser || db.company.connection.None? || !db.company.connection.value.enabled
         || db.company.connection.value.revision != t.revision || db.company.connection.value.generation != t.generation
         || !IdentityMatches(db.company) then (consumed, None)
      else (consumed, Some(LoginClaim(db.company.identity.value.user, t.revision, t.generation)))
  }

  // ------------------------------------------------------------------ sessions

  function CreateCompanySession(db: Db, claim: LoginClaim, session: int, expiresAt: int): (Db, Outcome) {
    if Eligible(db.users, claim.user) && db.company.connection.Some? && db.company.connection.value.enabled
       && db.company.connection.value.revision == claim.revision && db.company.connection.value.generation == claim.generation
       && db.company.identity.Some? && db.company.identity.value.user == claim.user
    then (db.(sessions := db.sessions[session := Session(claim.user, true, expiresAt)]), Done)
    else (db, Refused(Invalid))
  }

  function PasswordLogin(db: Db, user: int, hash: int, session: int, expiresAt: int): (Db, Outcome) {
    if user in db.users && !db.users[user].disabled && db.users[user].credential.Some? && db.users[user].credential.value.hash == hash
    then (db.(sessions := db.sessions[session := Session(user, false, expiresAt)]), Done)
    else (db, Refused(Invalid))
  }

  /** The recheck on every load of a company session. */
  predicate StillAuthorized(db: Db, user: int) {
    && Eligible(db.users, user) && db.company.identity.Some? && db.company.identity.value.user == user
    && db.company.connection.Some? && db.company.connection.value.enabled
  }

  /** A session that no longer stands is logged out by the load itself. */
  function LoadSession(db: Db, session: int, now: int): (Db, Option<Session>) {
    if session !in db.sessions then (db, None)
    else
      var s := db.sessions[session];
      if now >= s.expiresAt || s.user !in db.users || db.users[s.user].disabled || (s.company && !StillAuthorized(db, s.user))
      then (db.(sessions := db.sessions - {session}), None)
      else (db, Some(s))
  }
}
