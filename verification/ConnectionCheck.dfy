/**
 The connection check protocol: reserve a generation, observe outside the
 database, persist only if the reservation is still the newest; with the edits
 and resets that fence it.
 */
module ConnectionCheck {
  import opened Wrappers
  import opened NumericDate
  import opened BindingDerivation

  const MAX_VISIBLE := 1000

  datatype ResultCode = Observed | ObservedPrivateUnproven | Failed(reason: string) | Unrecognized
  {
    predicate Valid() { !Unrecognized? }
    predicate IsObserved() { Observed? || ObservedPrivateUnproven? }
  }

  datatype RemoteOrganization = RemoteOrganization(remoteID: string, slug: string, displayName: string)

  datatype Visible = Visible(remoteID: string, owner: string, name: string, defaultBranch: string, private: bool)

  datatype Observation = Observation(
    code: ResultCode, version: string, serviceUser: string, organization: RemoteOrganization, repositories: seq<Visible>)

  /** The connection row with its configuration; an empty `serviceUser` is not bound yet. */
  datatype Record = Record(
    connection: Connection, displayName: string, slug: string, credential: int,
    serviceUser: string, organization: Option<RemoteOrganization>)
  {
    predicate Bound() { serviceUser != "" && organization.Some? }
    function OrganizationRemoteID(): string { if organization.Some? then organization.value.remoteID else "" }
  }

  datatype Snapshot = Snapshot(
    connectionID: int, revision: int, generation: int, baseURL: string, slug: string,
    serviceUser: string, organizationRemoteID: string)

  datatype Tables = Tables(
    record: Option<Record>, remotes: seq<RemoteRepository>, bindings: seq<Binding>, identities: set<int>,
    lastConnectionID: int)

  datatype Refusal =
    | Validation | Authorization | NoConnection | Conflict | Exhausted | Configuration | Stale | Incomplete
    | BindingsExist | IdentitiesExist | RefreshFailed

  datatype Outcome = Done | Refused(reason: Refusal)

  // ------------------------------------------------------- observation checks

  /** The canonical text of a positive signed 64-bit number. */
  predicate ValidRemoteID(s: string) {
    1 <= |s| <= 19 && AllDigits(s) && s[0] != '0' && Decimal(s) <= MAX_INT64
  }

  predicate ValidRemoteName(s: string) {
    1 <= |s| <= 255 && forall i :: 0 <= i < |s| ==> s[i] as int >= 0x20 && s[i] as int != 0x7f
  }

  predicate ValidVisible(v: Visible) {
    ValidRemoteID(v.remoteID) && ValidRemoteName(v.owner) && ValidRemoteName(v.name) && ValidRemoteName(v.defaultBranch)
  }

  ghost predicate DistinctIDs(vs: seq<Visible>) {
    forall i, j :: 0 <= i < j < |vs| ==> vs[i].remoteID != vs[j].remoteID
  }

  function PrivateVisible(vs: seq<Visible>): nat {
    if vs == [] then 0 else PrivateVisible(vs[..|vs| - 1]) + if vs[|vs| - 1].private then 1 else 0
  }

  predicate ValidHeader(s: Snapshot, o: Observation) {
    && ValidRemoteID(o.serviceUser) && ValidRemoteID(o.organization.remoteID)
    && ValidRemoteName(o.organization.slug) && ValidRemoteName(o.organization.displayName)
    && (s.serviceUser == "" || o.serviceUser == s.serviceUser)
    && (s.organizationRemoteID == "" || o.organization.remoteID == s.organizationRemoteID)
    && |o.repositories| <= MAX_VISIBLE
  }

  predicate ValidVersion(version: string) { version == "" || (|version| <= 64 && ValidRemoteName(version)) }

  ghost predicate ValidRepositories(vs: seq<Visible>) {
    (forall i :: 0 <= i < |vs| ==> ValidVisible(vs[i])) && DistinctIDs(vs)
  }

  /** The observation contract: bound ids repeated, distinct repositories, and a code that fits the private count. */
  ghost predicate ValidObservation(s: Snapshot, o: Observation) {
    && o.code.Valid() && ValidVersion(o.version)
    && (o.code.IsObserved() ==>
          && ValidHeader(s, o) && ValidRepositories(o.repositories)
          && (o.code == Observed <==> PrivateVisible(o.repositories) > 0))
  }

  /** The repositories looked at so far are in order, and `seen` holds their ids. */
  ghost predicate Checked(vs: seq<Visible>, seen: set<string>) {
    ValidRepositories(vs) && forall id :: id in seen <==> exists j :: 0 <= j < |vs| && vs[j].remoteID == id
  }

  lemma {:induction false} CheckedNext(vs: seq<Visible>, i: nat, seen: set<string>)
    requires i < |vs| && Checked(vs[..i], seen) && ValidVisible(vs[i]) && vs[i].remoteID !in seen
    ensures Checked(vs[..i + 1], seen + {vs[i].remoteID})
  {
    var before, after := vs[..i], vs[..i + 1];
    assert after == before + [vs[i]];
    forall j | 0 <= j < i ensures after[j].remoteID != vs[i].remoteID { assert before[j].remoteID in seen; }
    forall id ensures id in seen + {vs[i].remoteID} <==> exists j :: 0 <= j < |after| && after[j].remoteID == id {
      if j :| 0 <= j < |before| && before[j].remoteID == id { assert after[j].remoteID == id; }
      if id == vs[i].remoteID { assert after[i].remoteID == id; }
    }
  }

  lemma {:induction false} RepeatedRepository(vs: seq<Visible>, i: nat, seen: set<string>)
    requires i < |vs| && Checked(vs[..i], seen) && vs[i].remoteID in seen
    ensures !ValidRepositories(vs)
  {
    var j :| 0 <= j < i && vs[..i][j].remoteID == vs[i].remoteID;
    assert vs[j].remoteID == vs[i].remoteID;
  }

  method CheckRepositories(vs: seq<Visible>) returns (ok: bool, privateCount: nat)
    ensures ok == ValidRepositories(vs)
    ensures ok ==> privateCount == PrivateVisible(vs)
  {
    var seen: set<string> := {};
    privateCount := 0;
    for i := 0 to |vs|
      invariant privateCount == PrivateVisible(vs[..i])
      invariant Checked(vs[..i], seen)
    {
      assert vs[..i + 1][..i] == vs[..i];
      if !ValidVisible(vs[i]) { return false, 0; }
      if vs[i].remoteID in seen {
        RepeatedRepository(vs, i, seen);
        return false, 0;
      }
      CheckedNext(vs, i, seen);
      seen := seen + {vs[i].remoteID};
      if vs[i].private { privateCount := privateCount + 1; }
    }
    assert vs[..|vs|] == vs;
    ok := true;
  }

  method CheckObservation(s: Snapshot, o: Observation) returns (ok: bool)
    ensures ok == ValidObservation(s, o)
  {
    if !o.code.Valid() || !ValidVersion(o.version) { return false; }
    if !o.code.IsObserved() { return true; }
    if !ValidHeader(s, o) { return false; }
    var valid, privateCount := CheckRepositories(o.repositories);
    if !valid { return false; }
    if o.code == Observed && privateCount == 0 { return false; }
    if o.code == ObservedPrivateUnproven && privateCount != 0 { return false; }
    ok := true;
  }

  // --------------------------------------------------------------- transactions

  function Reserve(t: Tables, authorized: bool, connectionID: int, revision: int): (Tables, Outcome, Option<Snapshot>) {
    if !authorized then (t, Refused(Authorization), None)
    else if t.record.None? then (t, Refused(NoConnection), None)
    else
      var r, c := t.record.value, t.record.value.connection;
      if c.id != connectionID || c.revision != revision then (t, Refused(Conflict), None)
      else if c.checkGeneration == MAX_INT64 then (t, Refused(Exhausted), None)
      else
        (t.(record := Some(r.(connection := c.(checkGeneration := c.checkGeneration + 1)))), Done,
         Some(Snapshot(c.id, c.revision, c.checkGeneration + 1, c.baseURL, r.slug, r.serviceUser, r.OrganizationRemoteID())))
  }

  predicate StillCurrent(t: Tables, s: Snapshot) {
    && t.record.Some?
    && var r := t.record.value;
       && r.connection.id == s.connectionID && r.connection.revision == s.revision
       && r.connection.checkGeneration == s.generation && r.connection.baseURL == s.baseURL && r.slug == s.slug
       && r.serviceUser == s.serviceUser && r.OrganizationRemoteID() == s.organizationRemoteID
  }

  function Preview(vs: seq<Visible>, organizationID: int, generation: int, now: int): seq<RemoteRepository> {
    if vs == [] then []
    else
      var v := vs[|vs| - 1];
      Preview(vs[..|vs| - 1], organizationID, generation, now)
      + [RemoteRepository(organizationID, v.remoteID, v.owner, v.name, v.defaultBranch, v.private, generation, now)]
  }

  /** Binds the identities on the first observed check and refreshes the names afterwards. */
  function BoundRecord(r: Record, o: Observation, newOrganizationID: int): Record {
    r.(organization := Some(o.organization),
       serviceUser := if r.serviceUser == "" then o.serviceUser else r.serviceUser,
       connection := r.connection.(
         organizationID := if r.organization.None? then Some(newOrganizationID) else r.connection.organizationID))
  }

  function CheckRow(s: Snapshot, o: Observation): SetupCheck {
    SetupCheck(
      s.revision, s.generation, o.code.IsObserved(),
      if o.code.IsObserved() then Some(|o.repositories|) else None,
      if o.code.IsObserved() then Some(PrivateVisible(o.repositories)) else None)
  }

  function Persist(t: Tables, authorized: bool, s: Snapshot, o: Observation, newOrganizationID: int, now: int): (Tables, Outcome) {
    if !authorized then (t, Refused(Authorization))
    else if !StillCurrent(t, s) then (t, Refused(Stale))
    else
      var r := t.record.value;
      if !o.code.IsObserved() then
        (t.(record := Some(r.(connection := r.connection.(setupCheck := Some(CheckRow(s, o)))))), Done)
      else if r.organization.Some? && r.organization.value.remoteID != o.organization.remoteID
      then (t, Refused(RefreshFailed))
      else
        var bound := BoundRecord(r, o, newOrganizationID);
        var organizationID := if bound.connection.organizationID.Some? then bound.connection.organizationID.value else 0;
        (t.(record := Some(bound.(connection := bound.connection.(setupCheck := Some(CheckRow(s, o))))),
            remotes := Preview(o.repositories, organizationID, s.generation, now)),
         Done)
  }

  /** `credential` is None when the stored one is kept. */
  datatype EditInput = EditInput(
    connectionID: int, revision: int, displayName: string, baseURL: string, slug: string,
    normalizes: bool, credential: Option<int>, credentialValid: bool)

  predicate EditChanges(r: Record, input: EditInput) {
    input.credential.Some? || r.displayName != input.displayName || r.connection.baseURL != input.baseURL || r.slug != input.slug
  }

  function EditRefusal(t: Tables, authorized: bool, encryption: bool, input: EditInput): Option<Refusal> {
    if input.connectionID <= 0 || input.revision <= 0 || !input.normalizes then Some(Validation)
    else if input.credential.Some? && !input.credentialValid then Some(Validation)
    else if !encryption then Some(Configuration)
    else if !authorized then Some(Authorization)
    else if t.record.None? || t.record.value.connection.id != input.connectionID
            || t.record.value.connection.revision != input.revision then Some(Conflict)
    else
      var r := t.record.value;
      if r.Bound() && (r.connection.baseURL != input.baseURL || r.slug != input.slug) then Some(Validation)
      else if r.connection.baseURL != input.baseURL && (input.credential.None? || t.identities != {}) then Some(Validation)
      else if EditChanges(r, input) && r.connection.revision == MAX_INT64 then Some(Exhausted)
      else None
  }

  function Edit(t: Tables, authorized: bool, encryption: bool, input: EditInput): (Tables, Outcome) {
    var refusal := EditRefusal(t, authorized, encryption, input);
    if refusal.Some? then (t, Refused(refusal.value))
    else if !EditChanges(t.record.value, input) then (t, Done)
    else
      var r := t.record.value;
      (t.(record := Some(r.(
            displayName := input.displayName, slug := input.slug,
            credential := if input.credential.Some? then input.credential.value else r.credential,
            connection := r.connection.(baseURL := input.baseURL, revision := r.connection.revision + 1)))),
       Done)
  }

  datatype ResetInput = ResetInput(connectionID: int, revision: int, bindingRevision: int, oauthMatches: bool, confirm: bool)

  function ResetRefusal(t: Tables, authorized: bool, input: ResetInput): Option<Refusal> {
    if input.connectionID <= 0 || input.revision <= 0 || input.bindingRevision < 0 || !input.confirm then Some(Validation)
    else if !authorized then Some(Authorization)
    else if t.record.None? || t.record.value.connection.id != input.connectionID
            || t.record.value.connection.revision != input.revision
            || t.record.value.connection.bindingRevision != input.bindingRevision then Some(Conflict)
    else if t.bindings != [] then Some(BindingsExist)
    else if !input.oauthMatches then Some(Conflict)
    else if t.identities != {} then Some(IdentitiesExist)
    else None
  }

  function Reset(t: Tables, authorized: bool, input: ResetInput): (Tables, Outcome) {
    var refusal := ResetRefusal(t, authorized, input);
    if refusal.Some? then (t, Refused(refusal.value)) else (t.(record := None, remotes := []), Done)
  }

  datatype CreateInput = CreateInput(displayName: string, baseURL: string, slug: string, credential: int, acceptable: bool)

  function Create(t: Tables, authorized: bool, encryption: bool, input: CreateInput): (Tables, Outcome) {
    if !input.acceptable then (t, Refused(Validation))
    else if !encryption then (t, Refused(Configuration))
    else if !authorized then (t, Refused(Authorization))
    else if t.record.Some? then (t, Refused(Conflict))
    else
      var id := t.lastConnectionID + 1;
      (t.(record := Some(Record(
            Connection(id, 1, 0, 0, input.baseURL, None, None), input.displayName, input.slug, input.credential, "", None)),
          lastConnectionID := id),
       Done)
  }

  // ----------------------------------------------------------------- the service

  class Service {
    var record: Option<Record>
    var remotes: seq<RemoteRepository>
    var bindings: seq<Binding>
    var identities: set<int>
    var lastConnectionID: int

    ghost function State(): Tables
      reads this
    {
      Tables(record, remotes, bindings, identities, lastConnectionID)
    }

    constructor (t: Tables)
      ensures State() == t
    {
      record, remotes, bindings, identities := t.record, t.remotes, t.bindings, t.identities;
      lastConnectionID := t.lastConnectionID;
    }

    method ReserveCheck(authorized: bool, connectionID: int, revision: int) returns (outcome: Outcome, s: Option<Snapshot>)
      modifies this
      ensures (State(), outcome, s) == Reserve(old(State()), authorized, connectionID, revision)
    {
      if !authorized { return Refused(Authorization), None; }
      if record.None? { return Refused(NoConnection), None; }
      var r, c := record.value, record.value.connection;
      if c.id != connectionID || c.revision != revision { return Refused(Conflict), None; }
      if c.checkGeneration == MAX_INT64 { return Refused(Exhausted), None; }
      var generation := c.checkGeneration + 1;
      record := Some(r.(connection := c.(checkGeneration := generation)));
      outcome := Done;
      s := Some(Snapshot(c.id, c.revision, generation, c.baseURL, r.slug, r.serviceUser, r.OrganizationRemoteID()));
    }

    method ReplacePreview(vs: seq<Visible>, organizationID: int, generation: int, now: int)
      modifies this`remotes
      ensures remotes == Preview(vs, organizationID, generation, now)
    {
      remotes := [];
      for i := 0 to |vs|
        invariant remotes == Preview(vs[..i], organizationID, generation, now)
      {
        assert vs[..i + 1][..i] == vs[..i];
        var v := vs[i];
        remotes := remotes
          + [RemoteRepository(organizationID, v.remoteID, v.owner, v.name, v.defaultBranch, v.private, generation, now)];
      }
      assert vs[..|vs|] == vs;
    }

    method CountPrivate(vs: seq<Visible>) returns (n: nat)
      ensures n == PrivateVisible(vs)
    {
      n := 0;
      for i := 0 to |vs|
        invariant n == PrivateVisible(vs[..i])
      {
        assert vs[..i + 1][..i] == vs[..i];
        if vs[i].private { n := n + 1; }
      }
      assert vs[..|vs|] == vs;
    }

    method PersistCheck(authorized: bool, s: Snapshot, o: Observation, newOrganizationID: int, now: int) returns (outcome: Outcome)
      modifies this
      ensures (State(), outcome) == Persist(old(State()), authorized, s, o, newOrganizationID, now)
    {
      if !authorized { return Refused(Authorization); }
      if record.None? { return Refused(Stale); }
      var r := record.value;
      if r.connection.id != s.connectionID || r.connection.revision != s.revision
         || r.connection.checkGeneration != s.generation || r.connection.baseURL != s.baseURL || r.slug != s.slug
         || r.serviceUser != s.serviceUser || r.OrganizationRemoteID() != s.organizationRemoteID {
        return Refused(Stale);
      }
      var check := SetupCheck(s.revision, s.generation, o.code.IsObserved(), None, None);
      if o.code.IsObserved() {
        var privateVisible := CountPrivate(o.repositories);
        check := check.(visibleCount := Some(|o.repositories|), visiblePrivateCount := Some(privateVisible));
        if r.organization.None? {
          r := r.(connection := r.connection.(organizationID := Some(newOrganizationID)));
        } else if r.organization.value.remoteID != o.organization.remoteID {
          return Refused(RefreshFailed);
        }
        r := r.(organization := Some(o.organization));
        if r.serviceUser == "" { r := r.(serviceUser := o.serviceUser); }
        var organizationID := if r.connection.organizationID.Some? then r.connection.organizationID.value else 0;
        ReplacePreview(o.repositories, organizationID, s.generation, now);
      }
      record := Some(r.(connection := r.connection.(setupCheck := Some(check))));
      outcome := Done;
    }

    method EditConnection(authorized: bool, encryption: bool, input: EditInput) returns (outcome: Outcome)
      modifies this
      ensures (State(), outcome) == Edit(old(State()), authorized, encryption, input)
    {
      if input.connectionID <= 0 || input.revision <= 0 { return Refused(Validation); }
      if !input.normalizes { return Refused(Validation); }
      if input.credential.Some? && !input.credentialValid { return Refused(Validation); }
      if !encryption { return Refused(Configuration); }
      if !authorized { return Refused(Authorization); }
      if record.None? { return Refused(Conflict); }
      var r := record.value;
      if r.connection.id != input.connectionID || r.connection.revision != input.revision { return Refused(Conflict); }
      var moves := r.connection.baseURL != input.baseURL;
      if r.serviceUser != "" && r.organization.Some? && (moves || r.slug != input.slug) { return Refused(Validation); }
      if moves && input.credential.None? { return Refused(Validation); }
      if moves && identities != {} { return Refused(Validation); }
      if input.credential.None? && r.displayName == input.displayName && !moves && r.slug == input.slug { return Done; }
      if r.connection.revision == MAX_INT64 { return Refused(Exhausted); }
      var credential := if input.credential.Some? then input.credential.value else r.credential;
      var connection := r.connection.(baseURL := input.baseURL, revision := r.connection.revision + 1);
      record := Some(Record(connection, input.displayName, input.slug, credential, r.serviceUser, r.organization));
      outcome := Done;
    }

    method ResetConnection(authorized: bool, input: ResetInput) returns (outcome: Outcome)
      modifies this
      ensures (State(), outcome) == Reset(old(State()), authorized, input)
    {
      if input.connectionID <= 0 || input.revision <= 0 || input.bindingRevision < 0 { return Refused(Validation); }
      if !input.confirm { return Refused(Validation); }
      if !authorized { return Refused(Authorization); }
      if record.None? { return Refused(Conflict); }
      var c := record.value.connection;
      if c.id != input.connectionID || c.revision != input.revision || c.bindingRevision != input.bindingRevision {
        return Refused(Conflict);
      }
      if bindings != [] { return Refused(BindingsExist); }
      if !input.oauthMatches { return Refused(Conflict); }
      if identities != {} { return Refused(IdentitiesExist); }
      record, remotes := None, [];
      outcome := Done;
    }

    method CreateConnection(authorized: bool, encryption: bool, input: CreateInput) returns (outcome: Outcome)
      modifies this
      ensures (State(), outcome) == Create(old(State()), authorized, encryption, input)
    {
      if !input.acceptable { return Refused(Validation); }
      if !encryption { return Refused(Configuration); }
      if !authorized { return Refused(Authorization); }
      if record.Some? { return Refused(Conflict); }
      lastConnectionID := lastConnectionID + 1;
      var connection := Connection(lastConnectionID, 1, 0, 0, input.baseURL, None, None);
      record := Some(Record(connection, input.displayName, input.slug, input.credential, "", None));
      outcome := Done;
    }
  }
}
