/**
 Interleavings of checks, edits, resets, binds and unbinds: who may persist,
 how long evidence stays current, and which identities never change.
 */
module CheckTheorems {
  import opened Wrappers
  import opened BindingDerivation
  import opened BindingTheorems
  import opened ConnectionCheck

  /** The tables, and the reservations whose workers have not persisted yet. */
  datatype World = World(tables: Tables, pending: set<Snapshot>)

  datatype Op =
    | OpCreate(authorized: bool, encryption: bool, create: CreateInput)
    | OpReserve(authorized: bool, connectionID: int, revision: int)
    | OpPersist(authorized: bool, snapshot: Snapshot, observation: Observation, newOrganizationID: int, now: int)
    | OpEdit(authorized: bool, encryption: bool, edit: EditInput)
    | OpReset(authorized: bool, reset: ResetInput)
    | OpBindings(bindings: seq<Binding>, bindingRevision: int)
    | OpIdentities(identities: set<int>)

  function Apply(w: World, op: Op): World {
    match op
    case OpCreate(authorized, encryption, input) => w.(tables := Create(w.tables, authorized, encryption, input).0)
    case OpReserve(authorized, connectionID, revision) =>
      var result := Reserve(w.tables, authorized, connectionID, revision);
      World(result.0, if result.2.Some? then w.pending + {result.2.value} else w.pending)
    case OpPersist(authorized, s, o, newOrganizationID, now) =>
      World(Persist(w.tables, authorized, s, o, newOrganizationID, now).0, w.pending - {s})
    case OpEdit(authorized, encryption, input) => w.(tables := Edit(w.tables, authorized, encryption, input).0)
    case OpReset(authorized, input) => w.(tables := Reset(w.tables, authorized, input).0)
    case OpBindings(bindings, bindingRevision) =>
      if w.tables.record.None? then w
      else
        var r := w.tables.record.value;
        w.(tables := w.tables.(
             bindings := bindings, record := Some(r.(connection := r.connection.(bindingRevision := bindingRevision)))))
    case OpIdentities(identities) => w.(tables := w.tables.(identities := identities))
  }

  /** A worker persists only its own pending reservation, and only what passed the observation check. */
  ghost predicate Enabled(w: World, op: Op) {
    op.OpPersist? ==> op.snapshot in w.pending && ValidObservation(op.snapshot, op.observation) && op.newOrganizationID > 0
  }

  ghost predicate ValidRecord(r: Record) {
    var c := r.connection;
    && c.id > 0 && 0 < c.revision <= MAX_INT64 && 0 <= c.checkGeneration <= MAX_INT64
    && (r.organization.Some? <==> c.organizationID.Some?) && (r.organization.Some? <==> r.serviceUser != "")
    && (c.organizationID.Some? ==> c.organizationID.value > 0)
    && (r.organization.Some? ==> r.organization.value.remoteID != "")
    && (c.setupCheck.Some? ==>
          c.setupCheck.value.configRevision <= c.revision && c.setupCheck.value.checkGeneration <= c.checkGeneration)
  }

  ghost predicate Valid(w: World) {
    && w.tables.lastConnectionID >= 0
    && (w.tables.record.Some? ==>
          && ValidRecord(w.tables.record.value)
          && w.tables.record.value.connection.id <= w.tables.lastConnectionID)
    && UniqueRemotes(w.tables.remotes)
    && (forall s :: s in w.pending ==>
          && s.connectionID <= w.tables.lastConnectionID && s.generation > 0
          && (w.tables.record.Some? && w.tables.record.value.connection.id == s.connectionID ==>
                s.generation <= w.tables.record.value.connection.checkGeneration))
  }

  /** The reader's currency predicate, over what the check protocol stores. */
  predicate Current(t: Tables) { t.record.Some? && CurrentEvidence(t.record.value.connection, t.remotes) }

  // -------------------------------------------------------------- the preview

  lemma {:induction false} PreviewMembers(vs: seq<Visible>, organizationID: int, generation: int, now: int)
    ensures |Preview(vs, organizationID, generation, now)| == |vs|
    ensures forall i :: 0 <= i < |vs| ==>
              Preview(vs, organizationID, generation, now)[i]
              == RemoteRepository(organizationID, vs[i].remoteID, vs[i].owner, vs[i].name,
                                  vs[i].defaultBranch, vs[i].private, generation, now)
  {
    if vs != [] {
      var last := |vs| - 1;
      var before := Preview(vs[..last], organizationID, generation, now);
      PreviewMembers(vs[..last], organizationID, generation, now);
      assert Preview(vs, organizationID, generation, now)[..last] == before;
    }
  }

  lemma {:induction false} PreviewCount(vs: seq<Visible>, organizationID: int, generation: int, now: int)
    ensures PrivateCount(Preview(vs, organizationID, generation, now)) == PrivateVisible(vs)
  {
    if vs != [] {
      var last := |vs| - 1;
      var p := Preview(vs, organizationID, generation, now);
      PreviewCount(vs[..last], organizationID, generation, now);
      assert p[..|p| - 1] == Preview(vs[..last], organizationID, generation, now);
    }
  }

  lemma PreviewIsUnique(s: Snapshot, o: Observation, organizationID: int, now: int)
    requires ValidObservation(s, o) && o.code.IsObserved()
    ensures UniqueRemotes(Preview(o.repositories, organizationID, s.generation, now))
  {
    PreviewMembers(o.repositories, organizationID, s.generation, now);
    var p := Preview(o.repositories, organizationID, s.generation, now);
    forall r | r in p ensures r.owner != "" && r.name != "" {
      var i :| 0 <= i < |p| && p[i] == r;
      assert ValidVisible(o.repositories[i]);
    }
  }

  // ------------------------------------------------------------- every step

  lemma PersistKeepsValid(w: World, op: Op)
    requires Valid(w) && Enabled(w, op) && op.OpPersist?
    ensures Valid(Apply(w, op))
  {
    if op.observation.code.IsObserved() {
      var result := Persist(w.tables, op.authorized, op.snapshot, op.observation, op.newOrganizationID, op.now);
      if result.1 == Done {
        var bound := BoundRecord(w.tables.record.value, op.observation, op.newOrganizationID);
        PreviewIsUnique(op.snapshot, op.observation, bound.connection.organizationID.value, op.now);
      }
    }
  }

  lemma EditKeepsValid(w: World, op: Op)
    requires Valid(w) && op.OpEdit?
    ensures Valid(Apply(w, op))
  {
  }

  lemma StepKeepsValid(w: World, op: Op)
    requires Valid(w) && Enabled(w, op)
    ensures Valid(Apply(w, op))
  {
    if op.OpPersist? { PersistKeepsValid(w, op); }
    if op.OpEdit? { EditKeepsValid(w, op); }
  }

  /** The stored preview never meets the refresh failure or a duplicate key: validation rules them out. */
  lemma PersistNeverFailsRefresh(w: World, op: Op)
    requires Valid(w) && Enabled(w, op) && op.OpPersist?
    ensures Persist(w.tables, op.authorized, op.snapshot, op.observation, op.newOrganizationID, op.now).1 != Refused(RefreshFailed)
    ensures UniqueRemotes(Apply(w, op).tables.remotes)
  {
    StepKeepsValid(w, op);
  }

  // ------------------------------------------------------- how long evidence lasts

  lemma {:induction false} PreviewIsCurrent(vs: seq<Visible>, organizationID: int, generation: int, now: int)
    ensures var p := Preview(vs, organizationID, generation, now);
            && |p| == |vs| && PrivateCount(p) == PrivateVisible(vs)
            && forall r :: r in p ==> r.generation == generation && r.organizationID == organizationID
  {
    PreviewMembers(vs, organizationID, generation, now);
    PreviewCount(vs, organizationID, generation, now);
    var p := Preview(vs, organizationID, generation, now);
    forall r | r in p ensures r.generation == generation && r.organizationID == organizationID {
      var i :| 0 <= i < |p| && p[i] == r;
    }
  }

  /** What a persisted observed check stores. */
  lemma {:induction false} PersistedParts(t: Tables, authorized: bool, s: Snapshot, o: Observation, newOrganizationID: int, now: int)
    requires Persist(t, authorized, s, o, newOrganizationID, now).1 == Done && o.code.IsObserved()
    requires t.record.Some? && newOrganizationID > 0
    requires var r := t.record.value; r.organization.Some? ==> r.connection.organizationID.Some? && r.connection.organizationID.value > 0
    ensures var after := Persist(t, authorized, s, o, newOrganizationID, now).0;
            && after.record.Some?
            && var c := after.record.value.connection;
            && c.organizationID.Some? && c.organizationID.value > 0
            && c.revision == s.revision && c.checkGeneration == s.generation && c.setupCheck == Some(CheckRow(s, o))
            && after.remotes == Preview(o.repositories, c.organizationID.value, s.generation, now)
  {
  }

  /** A successful observed check makes the evidence current. */
  lemma {:induction false} ObservedCheckMakesCurrent(w: World, op: Op)
    requires Valid(w) && Enabled(w, op) && op.OpPersist? && op.observation.code.IsObserved()
    requires Persist(w.tables, op.authorized, op.snapshot, op.observation, op.newOrganizationID, op.now).1 == Done
    ensures Current(Apply(w, op).tables)
  {
    PersistedParts(w.tables, op.authorized, op.snapshot, op.observation, op.newOrganizationID, op.now);
    var c := Apply(w, op).tables.record.value.connection;
    PreviewIsCurrent(op.observation.repositories, c.organizationID.value, op.snapshot.generation, op.now);
  }

  /** Steps that supersede evidence: a reservation, an edit that changes something, a reset. */
  predicate Supersedes(w: World, op: Op) {
    match op
    case OpReserve(authorized, connectionID, revision) => Reserve(w.tables, authorized, connectionID, revision).1 == Done
    case OpEdit(authorized, encryption, input) =>
      Edit(w.tables, authorized, encryption, input).1 == Done && EditChanges(w.tables.record.value, input)
    case OpReset(authorized, input) => Reset(w.tables, authorized, input).1 == Done
    case _ => false
  }

  lemma SupersedingEndsCurrency(w: World, op: Op)
    requires Valid(w) && Supersedes(w, op)
    ensures !Current(Apply(w, op).tables)
  {
  }

  /** Every other step leaves current evidence current; a late worker's persist is refused or repeats nothing. */
  lemma {:induction false} OtherStepsKeepCurrency(w: World, op: Op)
    requires Valid(w) && Enabled(w, op) && Current(w.tables) && !Supersedes(w, op) && !PendingIsNewest(w)
    ensures Current(Apply(w, op).tables) && !PendingIsNewest(Apply(w, op))
  {
    match op
    case OpPersist(authorized, s, o, newOrganizationID, now) =>
      assert !StillCurrent(w.tables, s);
    case OpEdit(authorized, encryption, input) =>
      assert Apply(w, op).tables == w.tables;
    case OpReset(authorized, input) =>
      assert Apply(w, op).tables == w.tables;
    case OpReserve(authorized, connectionID, revision) =>
      assert Apply(w, op).tables == w.tables;
    case _ =>
  }

  /** Some pending reservation is the newest of the stored connection. */
  ghost predicate PendingIsNewest(w: World) {
    exists s :: s in w.pending && w.tables.record.Some? && s.connectionID == w.tables.record.value.connection.id
                && s.generation == w.tables.record.value.connection.checkGeneration
  }

  /** Reservations in play are told apart by connection and generation. */
  ghost predicate DistinctPending(w: World) {
    forall s, s' :: s in w.pending && s' in w.pending && s.connectionID == s'.connectionID && s.generation == s'.generation ==> s == s'
  }

  lemma {:induction false} StepKeepsDistinct(w: World, op: Op)
    requires Valid(w) && Enabled(w, op) && DistinctPending(w)
    ensures DistinctPending(Apply(w, op))
  {
    if op.OpReserve? {
      var s := Reserve(w.tables, op.authorized, op.connectionID, op.revision).2;
      if s.Some? {
        forall s' | s' in w.pending ensures !(s'.connectionID == s.value.connectionID && s'.generation == s.value.generation) {
        }
      }
    }
  }

  /** Once the newest reservation has persisted, nothing pending can still persist over it. */
  lemma PersistConsumesNewest(w: World, op: Op)
    requires Valid(w) && Enabled(w, op) && DistinctPending(w) && op.OpPersist?
    requires Persist(w.tables, op.authorized, op.snapshot, op.observation, op.newOrganizationID, op.now).1 == Done
    ensures !PendingIsNewest(Apply(w, op))
  {
  }

  // -------------------------------------------------------------------- histories

  datatype History = History(ops: seq<Op>, states: seq<World>)

  /** Step `k` takes its state to the next. */
  ghost predicate Steps(h: History, k: nat)
    requires k < |h.ops| && |h.states| == |h.ops| + 1
  {
    Enabled(h.states[k], h.ops[k]) && h.states[k + 1] == Apply(h.states[k], h.ops[k])
  }

  ghost predicate Legal(h: History) {
    && |h.states| == |h.ops| + 1 && h.states[0] == World(Tables(None, [], [], {}, 0), {})
    && (forall k: nat :: k < |h.ops| ==> Steps(h, k))
  }

  lemma {:induction false} AlwaysValid(h: History, k: nat)
    requires Legal(h) && k <= |h.ops|
    ensures Valid(h.states[k]) && DistinctPending(h.states[k])
  {
    if k > 0 {
      AlwaysValid(h, k - 1);
      assert Steps(h, k - 1);
      StepKeepsValid(h.states[k - 1], h.ops[k - 1]);
      StepKeepsDistinct(h.states[k - 1], h.ops[k - 1]);
    }
  }

  /** Step `k` of a history, as a step from a valid state. */
  lemma {:induction false} StepAt(h: History, k: nat)
    requires Legal(h) && k < |h.ops|
    ensures Valid(h.states[k]) && DistinctPending(h.states[k])
    ensures Enabled(h.states[k], h.ops[k]) && h.states[k + 1] == Apply(h.states[k], h.ops[k])
  {
    AlwaysValid(h, k);
    assert Steps(h, k);
  }

  /** Step `i` persisted an observed check. */
  ghost predicate PersistedObserved(h: History, i: nat) {
    && i < |h.ops| < |h.states| && h.ops[i].OpPersist? && h.ops[i].observation.code.IsObserved()
    && Persist(h.states[i].tables, h.ops[i].authorized, h.ops[i].snapshot, h.ops[i].observation,
               h.ops[i].newOrganizationID, h.ops[i].now).1 == Done
  }

  /**
   After an observed check persists, the evidence stays current until the next
   reservation, effective edit or reset, through binds, unbinds and stale workers.
   */
  lemma {:induction false} CurrentUntilSuperseded(h: History, i: nat, k: nat)
    requires Legal(h) && PersistedObserved(h, i) && i < k <= |h.ops|
    requires forall m :: i < m < k ==> !Supersedes(h.states[m], h.ops[m])
    ensures Current(h.states[k].tables) && !PendingIsNewest(h.states[k])
    decreases k
  {
    StepAt(h, k - 1);
    if k == i + 1 {
      ObservedCheckMakesCurrent(h.states[i], h.ops[i]);
      PersistConsumesNewest(h.states[i], h.ops[i]);
    } else {
      CurrentUntilSuperseded(h, i, k - 1);
      OtherStepsKeepCurrency(h.states[k - 1], h.ops[k - 1]);
    }
  }

  /** ... and the superseding step ends it at once. */
  lemma CurrentEndsWhenSuperseded(h: History, k: nat)
    requires Legal(h) && k < |h.ops| && Supersedes(h.states[k], h.ops[k])
    ensures !Current(h.states[k + 1].tables)
  {
    StepAt(h, k);
    SupersedingEndsCurrency(h.states[k], h.ops[k]);
  }

  // ------------------------------------------------ only the newest may persist

  /** The connection is at least this far: gone for good, or at this generation or later. */
  ghost predicate Beyond(t: Tables, connectionID: int, generation: int) {
    && connectionID <= t.lastConnectionID
    && (t.record.Some? && t.record.value.connection.id == connectionID ==> t.record.value.connection.checkGeneration >= generation)
  }

  lemma StepStaysBeyond(w: World, op: Op, connectionID: int, generation: int)
    requires Valid(w) && Beyond(w.tables, connectionID, generation)
    ensures Beyond(Apply(w, op).tables, connectionID, generation)
  {
  }

  lemma {:induction false} BeyondForGood(h: History, i: nat, k: nat, connectionID: int, generation: int)
    requires Legal(h) && i <= k <= |h.ops| && Beyond(h.states[i].tables, connectionID, generation)
    ensures Beyond(h.states[k].tables, connectionID, generation)
    decreases k
  {
    if i < k {
      BeyondForGood(h, i, k - 1, connectionID, generation);
      StepAt(h, k - 1);
      StepStaysBeyond(h.states[k - 1], h.ops[k - 1], connectionID, generation);
    }
  }

  /** The reservation a step made. */
  function ReservedBy(w: World, op: Op): Option<Snapshot> {
    if op.OpReserve? then Reserve(w.tables, op.authorized, op.connectionID, op.revision).2 else None
  }

  lemma {:induction false} ReservingReaches(w: World, op: Op, s: Snapshot)
    requires Valid(w) && ReservedBy(w, op) == Some(s)
    ensures Beyond(Apply(w, op).tables, s.connectionID, s.generation)
  {
  }

  lemma {:induction false} ReservingPasses(w: World, op: Op, s: Snapshot, generation: int)
    requires Valid(w) && ReservedBy(w, op) == Some(s) && Beyond(w.tables, s.connectionID, generation)
    ensures Beyond(Apply(w, op).tables, s.connectionID, generation + 1)
  {
  }

  /** Once another check of the connection has been reserved, an older one never persists again. */
  lemma OnlyNewestPersists(h: History, i: nat, j: nat, k: nat, s: Snapshot, s': Snapshot, o: Observation, organizationID: int, now: int)
    requires Legal(h) && i < j < k <= |h.ops|
    requires ReservedBy(h.states[i], h.ops[i]) == Some(s) && ReservedBy(h.states[j], h.ops[j]) == Some(s')
    requires s.connectionID == s'.connectionID
    ensures Persist(h.states[k].tables, true, s, o, organizationID, now) == (h.states[k].tables, Refused(Stale))
  {
    StepAt(h, i);
    ReservingReaches(h.states[i], h.ops[i], s);
    BeyondForGood(h, i + 1, j, s.connectionID, s.generation);
    StepAt(h, j);
    ReservingPasses(h.states[j], h.ops[j], s', s.generation);
    BeyondForGood(h, j + 1, k, s.connectionID, s.generation + 1);
  }

  // -------------------------------------------------------------- immutable ids

  /** What a connection is bound to, if it is. */
  function BoundTo(t: Tables): Option<(int, string, string, int)> {
    if t.record.Some? && t.record.value.Bound() && t.record.value.connection.organizationID.Some?
    then Some((t.record.value.connection.id, t.record.value.serviceUser, t.record.value.organization.value.remoteID,
               t.record.value.connection.organizationID.value))
    else None
  }

  lemma StepKeepsBound(w: World, op: Op)
    requires Valid(w) && Enabled(w, op) && BoundTo(w.tables).Some?
    ensures Apply(w, op).tables.record.None? || BoundTo(Apply(w, op).tables) == BoundTo(w.tables)
  {
  }

  /** No record carries this connection's id any more. */
  predicate Gone(t: Tables, connectionID: int) {
    connectionID <= t.lastConnectionID && (t.record.Some? ==> t.record.value.connection.id != connectionID)
  }

  lemma {:induction false} StepStaysGone(w: World, op: Op, connectionID: int)
    requires Valid(w) && Gone(w.tables, connectionID)
    ensures Gone(Apply(w, op).tables, connectionID)
  {
  }

  /** The connection is bound as it was, or gone. */
  predicate BoundOrGone(t: Tables, bound: (int, string, string, int)) { BoundTo(t) == Some(bound) || Gone(t, bound.0) }

  lemma {:induction false} StepBoundOrGone(w: World, op: Op, bound: (int, string, string, int))
    requires Valid(w) && Enabled(w, op) && BoundOrGone(w.tables, bound)
    ensures BoundOrGone(Apply(w, op).tables, bound)
  {
    if BoundTo(w.tables) == Some(bound) { StepKeepsBound(w, op); } else { StepStaysGone(w, op, bound.0); }
    StepNeverRewinds(w, op);
  }

  lemma {:induction false} StepNeverRewinds(w: World, op: Op)
    requires Valid(w)
    ensures w.tables.record.Some? ==> w.tables.record.value.connection.id <= Apply(w, op).tables.lastConnectionID
  {
  }

  lemma {:induction false} AlwaysBoundOrGone(h: History, i: nat, k: nat, bound: (int, string, string, int))
    requires Legal(h) && i <= k <= |h.ops| && BoundTo(h.states[i].tables) == Some(bound)
    ensures BoundOrGone(h.states[k].tables, bound)
    decreases k
  {
    if i < k {
      AlwaysBoundOrGone(h, i, k - 1, bound);
      StepAt(h, k - 1);
      StepBoundOrGone(h.states[k - 1], h.ops[k - 1], bound);
    }
  }

  /** The service user and organization a connection is bound to never change while it exists. */
  lemma {:induction false} BoundIdentitiesNeverChange(h: History, i: nat, k: nat)
    requires Legal(h) && i <= k <= |h.ops| && BoundTo(h.states[i].tables).Some?
    ensures var t := h.states[k].tables;
            (t.record.Some? && t.record.value.connection.id == BoundTo(h.states[i].tables).value.0)
            ==> BoundTo(t) == BoundTo(h.states[i].tables)
  {
    AlwaysBoundOrGone(h, i, k, BoundTo(h.states[i].tables).value);
  }
}
