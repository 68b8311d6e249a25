/**
 Binding and unbinding as the service commits them: every guard in the order the
 code checks it, one transaction each, over the tables the derivation reads.
 */
module BindingService {
  import opened Wrappers
  import opened Order
  import opened BindingDerivation
  import opened BindingTheorems
  import opened BindingEffect

  datatype Refusal = Validation | Authorization | Conflict | Exhausted | Unavailable

  datatype Outcome = Done | Refused(reason: Refusal)

  datatype Event = Bound(repositoryID: int, bindingRevision: int) | Unbound(repositoryID: int, bindingRevision: int)

  /** `repositoryCreatedAt` is None when the form's timestamp does not parse. */
  datatype BindInput = BindInput(
    connectionID: int, configRevision: int, checkGeneration: int, bindingRevision: int,
    repositoryID: int, repositoryCreatedAt: Option<int>, confirm: bool)

  datatype UnbindInput = UnbindInput(
    connectionID: int, configRevision: int, bindingRevision: int, repositoryID: int, confirm: bool)

  datatype Tables = Tables(
    admins: set<int>, connection: Option<Connection>, locals: seq<LocalRepository>,
    remotes: seq<RemoteRepository>, bindings: seq<Binding>, events: seq<Event>)

  /** Keys, the foreign key from bindings to repositories, and a binding revision in range. */
  ghost predicate Valid(t: Tables) {
    t.connection.Some? ==>
      && WellFormed(InputsOf(t.connection.value, t.locals, t.remotes), t.bindings)
      && t.connection.value.bindingRevision <= MAX_INT64
  }

  function ReadModel(t: Tables): Derivation
    requires t.connection.Some?
  {
    Derive(InputsOf(t.connection.value, t.locals, t.remotes), t.bindings)
  }

  function FirstLocal(locals: seq<LocalRepository>, id: int): Option<LocalRepository> {
    if locals == [] then None else if locals[0].id == id then Some(locals[0]) else FirstLocal(locals[1..], id)
  }

  predicate BindInputValid(input: BindInput) {
    && input.connectionID > 0 && input.configRevision > 0 && input.checkGeneration > 0
    && input.bindingRevision >= 0 && input.repositoryID > 0 && input.confirm && input.repositoryCreatedAt.Some?
  }

  predicate BindFences(t: Tables, input: BindInput) {
    && t.connection.Some?
    && t.connection.value.id == input.connectionID && t.connection.value.revision == input.configRevision
    && t.connection.value.checkGeneration == input.checkGeneration
    && t.connection.value.bindingRevision == input.bindingRevision
  }

  predicate UnbindInputValid(input: UnbindInput) {
    && input.connectionID > 0 && input.configRevision > 0 && input.bindingRevision >= 0
    && input.repositoryID > 0 && input.confirm
  }

  predicate UnbindFences(t: Tables, input: UnbindInput) {
    && t.connection.Some?
    && t.connection.value.id == input.connectionID && t.connection.value.revision == input.configRevision
    && t.connection.value.bindingRevision == input.bindingRevision
  }

  function NextRevision(t: Tables): Tables
    requires t.connection.Some?
  {
    var c := t.connection.value;
    t.(connection := Some(c.(bindingRevision := c.bindingRevision + 1)))
  }

  function Bind(t: Tables, actor: int, input: BindInput): (result: (Tables, Outcome))
    ensures result.0.connection.Some? <==> t.connection.Some?
  {
    if !BindInputValid(input) then (t, Refused(Validation))
    else if actor !in t.admins then (t, Refused(Authorization))
    else if !BindFences(t, input) then (t, Refused(Conflict))
    else if t.connection.value.bindingRevision == MAX_INT64 then (t, Refused(Exhausted))
    else
      var d := ReadModel(t);
      var local := FirstLocal(t.locals, input.repositoryID);
      if !d.current then (t, Refused(Unavailable))
      else if local.None? || Some(local.value.createdAt) != input.repositoryCreatedAt then (t, Refused(Conflict))
      else if input.repositoryID !in d.readyRemotes then (t, Refused(Unavailable))
      else
        var remote := d.readyRemotes[input.repositoryID];
        if exists b :: b in t.bindings && (b.repositoryID == input.repositoryID || b.remoteID == remote.remoteID)
        then (t, Refused(Conflict))
        else
          var organizationID := t.connection.value.organizationID;
          var added := Binding(
            input.repositoryID, if organizationID.Some? then organizationID.value else 0, remote.remoteID);
          (NextRevision(t).(
             bindings := InsertBinding(t.bindings, added),
             events := t.events + [Bound(input.repositoryID, t.connection.value.bindingRevision + 1)]),
           Done)
  }

  function Unbind(t: Tables, actor: int, input: UnbindInput): (result: (Tables, Outcome))
    ensures result.0.connection.Some? <==> t.connection.Some?
  {
    if !UnbindInputValid(input) then (t, Refused(Validation))
    else if actor !in t.admins then (t, Refused(Authorization))
    else if !UnbindFences(t, input) then (t, Refused(Conflict))
    else if t.connection.value.bindingRevision == MAX_INT64 then (t, Refused(Exhausted))
    else if !exists b :: b in t.bindings && b.repositoryID == input.repositoryID then (t, Refused(Conflict))
    else
      (NextRevision(t).(
         bindings := RemoveBinding(t.bindings, input.repositoryID),
         events := t.events + [Unbound(input.repositoryID, t.connection.value.bindingRevision + 1)]),
       Done)
  }

  /** The insert position is the first later repository. */
  lemma {:induction false} InsertAt(bindings: seq<Binding>, b: Binding, k: nat)
    requires k <= |bindings| && forall j :: 0 <= j < k ==> bindings[j].repositoryID <= b.repositoryID
    requires k < |bindings| ==> b.repositoryID < bindings[k].repositoryID
    ensures InsertBinding(bindings, b) == bindings[..k] + [b] + bindings[k..]
  {
    if k > 0 {
      InsertAt(bindings[1..], b, k - 1);
      assert bindings[1..][..k - 1] == bindings[1..k] && bindings[1..][k - 1..] == bindings[k..];
      assert bindings[..k] == [bindings[0]] + bindings[1..k];
    }
  }

  // ------------------------------------------------------------ the service

  /** The service over its tables; each method is one committed or refused transaction. */
  class Service {
    var admins: set<int>
    var connection: Option<Connection>
    var locals: seq<LocalRepository>
    var remotes: seq<RemoteRepository>
    var bindings: seq<Binding>
    var events: seq<Event>

    ghost function State(): Tables
      reads this
    {
      Tables(admins, connection, locals, remotes, bindings, events)
    }

    constructor (t: Tables)
      ensures State() == t
    {
      admins, connection, locals, remotes := t.admins, t.connection, t.locals, t.remotes;
      bindings, events := t.bindings, t.events;
    }

    method LocalRepositoryByID(id: int) returns (local: Option<LocalRepository>)
      ensures local == FirstLocal(locals, id)
    {
      for i := 0 to |locals|
        invariant FirstLocal(locals, id) == FirstLocal(locals[i..], id)
      {
        if locals[i].id == id { return Some(locals[i]); }
        assert locals[i..][1..] == locals[i + 1..];
      }
      local := None;
    }

    method InsertRow(b: Binding)
      modifies this`bindings
      ensures bindings == InsertBinding(old(bindings), b)
    {
      var i := 0;
      while i < |bindings| && bindings[i].repositoryID <= b.repositoryID
        invariant 0 <= i <= |bindings| && bindings == old(bindings)
        invariant forall j :: 0 <= j < i ==> bindings[j].repositoryID <= b.repositoryID
      {
        i := i + 1;
      }
      InsertAt(bindings, b, i);
      bindings := bindings[..i] + [b] + bindings[i..];
    }

    method DeleteRow(repositoryID: int)
      modifies this`bindings
      ensures bindings == RemoveBinding(old(bindings), repositoryID)
    {
      var kept := [];
      for i := 0 to |bindings|
        invariant bindings == old(bindings)
        invariant RemoveBinding(bindings, repositoryID) == kept + RemoveBinding(bindings[i..], repositoryID)
      {
        assert bindings[i..][1..] == bindings[i + 1..];
        if bindings[i].repositoryID != repositoryID { kept := kept + [bindings[i]]; }
      }
      bindings := kept;
    }

    /** The writes of a bind: the row, the next revision and the event. */
    method CommitBinding(b: Binding)
      requires connection.Some?
      modifies this
      ensures State() == NextRevision(old(State())).(
                bindings := InsertBinding(old(bindings), b),
                events := old(events) + [Bound(b.repositoryID, old(connection).value.bindingRevision + 1)])
    {
      var record := connection.value;
      InsertRow(b);
      connection := Some(record.(bindingRevision := record.bindingRevision + 1));
      events := events + [Bound(b.repositoryID, record.bindingRevision + 1)];
    }

    method BindRepository(actor: int, input: BindInput) returns (outcome: Outcome)
      modifies this
      ensures (State(), outcome) == Bind(old(State()), actor, input)
    {
      if !BindInputValid(input) { return Refused(Validation); }
      if actor !in admins { return Refused(Authorization); }
      if connection.None? { return Refused(Conflict); }
      var record := connection.value;
      if record.id != input.connectionID || record.revision != input.configRevision
         || record.checkGeneration != input.checkGeneration || record.bindingRevision != input.bindingRevision {
        return Refused(Conflict);
      }
      if record.bindingRevision == MAX_INT64 { return Refused(Exhausted); }
      var derivation := DeriveRepositoryBindings(record, locals, remotes, bindings);
      if !derivation.current { return Refused(Unavailable); }
      var local := LocalRepositoryByID(input.repositoryID);
      if local.None? || Some(local.value.createdAt) != input.repositoryCreatedAt { return Refused(Conflict); }
      if input.repositoryID !in derivation.readyRemotes { return Refused(Unavailable); }
      var remote := derivation.readyRemotes[input.repositoryID];
      var alreadyBound := exists b ::
        b in bindings && (b.repositoryID == input.repositoryID || b.remoteID == remote.remoteID);
      if alreadyBound { return Refused(Conflict); }
      var organizationID := if record.organizationID.Some? then record.organizationID.value else 0;
      CommitBinding(Binding(input.repositoryID, organizationID, remote.remoteID));
      outcome := Done;
    }

    method UnbindRepository(actor: int, input: UnbindInput) returns (outcome: Outcome)
      modifies this
      ensures (State(), outcome) == Unbind(old(State()), actor, input)
    {
      if !UnbindInputValid(input) { return Refused(Validation); }
      if actor !in admins { return Refused(Authorization); }
      if connection.None? { return Refused(Conflict); }
      var record := connection.value;
      if record.id != input.connectionID || record.revision != input.configRevision
         || record.bindingRevision != input.bindingRevision {
        return Refused(Conflict);
      }
      if record.bindingRevision == MAX_INT64 { return Refused(Exhausted); }
      if !exists b :: b in bindings && b.repositoryID == input.repositoryID { return Refused(Conflict); }
      DeleteRow(input.repositoryID);
      connection := Some(record.(bindingRevision := record.bindingRevision + 1));
      events := events + [Unbound(input.repositoryID, record.bindingRevision + 1)];
      outcome := Done;
    }
  }

  // ------------------------------------------------------- what the steps mean

  lemma {:induction false} FirstLocalMeaning(locals: seq<LocalRepository>, id: int)
    ensures FirstLocal(locals, id).Some? ==>
              FirstLocal(locals, id).value in locals && FirstLocal(locals, id).value.id == id
    ensures FirstLocal(locals, id).None? ==> forall l :: l in locals ==> l.id != id
  {
    if locals != [] && locals[0].id != id {
      FirstLocalMeaning(locals[1..], id);
      assert locals == [locals[0]] + locals[1..];
    }
  }

  /** The form named an existing repository of this incarnation. */
  ghost predicate NamesLocal(t: Tables, input: BindInput, l: LocalRepository) {
    l in t.locals && l.id == input.repositoryID && input.repositoryCreatedAt == Some(l.createdAt)
  }

  ghost predicate PassesFences(t: Tables, actor: int, input: BindInput) {
    BindInputValid(input) && actor in t.admins && BindFences(t, input) && t.connection.value.bindingRevision < MAX_INT64
  }

  /** The pair a committed bind joins. */
  ghost predicate Bindable(t: Tables, input: BindInput, l: LocalRepository, r: RemoteRepository)
    requires t.connection.Some?
  {
    var x := InputsOf(t.connection.value, t.locals, t.remotes);
    x.current && NamesLocal(t, input, l) && PairReady(x, t.bindings, l, r)
  }

  lemma ReadyRemoteIsThePair(x: Inputs, bindings: seq<Binding>, l: LocalRepository, r: RemoteRepository)
    requires x.current && WellFormed(x, bindings) && PairReady(x, bindings, l, r)
    ensures l.id in Derive(x, bindings).readyRemotes && Derive(x, bindings).readyRemotes[l.id] == r
  {
    ReadyRemoteIff(x, bindings, l);
    var r' := Derive(x, bindings).readyRemotes[l.id];
  }

  /**
   A bind commits exactly when the form's fences hold, the evidence is current
   and the named incarnation is half of a ready pair; the table's uniqueness
   check behind it never refuses.
   */
  lemma {:induction false} BindCommitsIff(t: Tables, actor: int, input: BindInput)
    requires Valid(t)
    ensures Bind(t, actor, input).1 == Done
       <==> PassesFences(t, actor, input) && exists l, r :: Bindable(t, input, l, r)
  {
    if PassesFences(t, actor, input) {
      var x := InputsOf(t.connection.value, t.locals, t.remotes);
      FirstLocalMeaning(t.locals, input.repositoryID);
      if l, r :| Bindable(t, input, l, r) {
        SameLocal(t.locals, FirstLocal(t.locals, input.repositoryID).value, l);
        ReadyRemoteIsThePair(x, t.bindings, l, r);
      }
      if Bind(t, actor, input).1 == Done {
        var l := FirstLocal(t.locals, input.repositoryID).value;
        ReadyRemoteIff(x, t.bindings, l);
        var r :| PairReady(x, t.bindings, l, r);
        assert Bindable(t, input, l, r);
      }
    }
  }

  lemma EvidenceIgnoresBindingRevision(c: Connection, n: int, locals: seq<LocalRepository>, remotes: seq<RemoteRepository>)
    ensures InputsOf(c.(bindingRevision := n), locals, remotes) == InputsOf(c, locals, remotes)
  {
  }

  /** The tables with the pair joined. */
  ghost function Joined(t: Tables, l: LocalRepository, r: RemoteRepository): Tables
    requires t.connection.Some? && t.connection.value.organizationID.Some?
  {
    var c := t.connection.value;
    t.(connection := Some(c.(bindingRevision := c.bindingRevision + 1)),
       bindings := InsertBinding(t.bindings, BindingFor(InputsOf(c, t.locals, t.remotes), l, r)),
       events := t.events + [Bound(l.id, c.bindingRevision + 1)])
  }

  /** What a committed bind leaves behind, in terms of the pair it joined. */
  lemma BindJoinsThePair(t: Tables, actor: int, input: BindInput, l: LocalRepository, r: RemoteRepository)
    requires Valid(t) && PassesFences(t, actor, input) && Bindable(t, input, l, r)
    ensures Bind(t, actor, input) == (Joined(t, l, r), Done)
  {
    var x := InputsOf(t.connection.value, t.locals, t.remotes);
    FirstLocalMeaning(t.locals, input.repositoryID);
    SameLocal(t.locals, FirstLocal(t.locals, input.repositoryID).value, l);
    ReadyRemoteIsThePair(x, t.bindings, l, r);
  }

  lemma {:induction false} JoinedKeepsValid(t: Tables, l: LocalRepository, r: RemoteRepository)
    requires Valid(t) && t.connection.Some? && t.connection.value.bindingRevision < MAX_INT64
    requires var x := InputsOf(t.connection.value, t.locals, t.remotes); x.current && PairReady(x, t.bindings, l, r)
    ensures t.connection.value.organizationID.Some? && Valid(Joined(t, l, r))
  {
    var c := t.connection.value;
    var x := InputsOf(c, t.locals, t.remotes);
    InsertKeepsUnique(t.bindings, BindingFor(x, l, r));
    EvidenceIgnoresBindingRevision(c, c.bindingRevision + 1, t.locals, t.remotes);
    var k := InsertSplits(t.bindings, BindingFor(x, l, r));
    forall b | b in InsertBinding(t.bindings, BindingFor(x, l, r)) ensures exists l' :: l' in x.locals && l'.id == b.repositoryID {
      SplitMembers(t.bindings, k, b);
      if b == BindingFor(x, l, r) { assert l in x.locals; } else { assert b in t.bindings; }
    }
  }

  /** Committing a bind keeps the tables well formed. */
  lemma {:induction false} BindKeepsValid(t: Tables, actor: int, input: BindInput)
    requires Valid(t)
    ensures Valid(Bind(t, actor, input).0)
  {
    if Bind(t, actor, input).1 == Done {
      BindCommitsIff(t, actor, input);
      var l, r :| Bindable(t, input, l, r);
      BindJoinsThePair(t, actor, input, l, r);
      JoinedKeepsValid(t, l, r);
    } else {
      RefusedBindChangesNothing(t, actor, input);
    }
  }

  lemma {:induction false} RefusedBindChangesNothing(t: Tables, actor: int, input: BindInput)
    requires Bind(t, actor, input).1 != Done
    ensures Bind(t, actor, input).0 == t
  {
  }

  lemma UnbindKeepsValid(t: Tables, actor: int, input: UnbindInput)
    requires Valid(t)
    ensures Valid(Unbind(t, actor, input).0)
  {
    if Unbind(t, actor, input).1 == Done {
      var c := t.connection.value;
      RemoveIsSub(t.bindings, input.repositoryID);
      EvidenceIgnoresBindingRevision(c, c.bindingRevision + 1, t.locals, t.remotes);
    }
  }

  lemma {:induction false} JoinedRewritesOneRow(t: Tables, l: LocalRepository, r: RemoteRepository) returns (i: nat)
    requires Valid(t) && t.connection.Some? && InputsOf(t.connection.value, t.locals, t.remotes).current
    requires PairReady(InputsOf(t.connection.value, t.locals, t.remotes), t.bindings, l, r)
    ensures var before, after := ReadModel(t), ReadModel(Joined(t, l, r));
            && i < |before.rows| && before.rows[i] == ReadyRow(l, r) && after.current == before.current
            && after.rows == before.rows[i := before.rows[i].(row := before.rows[i].row.(state := BoundCurrent))]
  {
    var c := t.connection.value;
    EvidenceIgnoresBindingRevision(c, c.bindingRevision + 1, t.locals, t.remotes);
    i := BindChangesOneState(InputsOf(c, t.locals, t.remotes), t.bindings, l, r);
  }

  /**
   Seen through the read model, a committed bind rewrites one state, Ready to
   bound_current, and moves nothing.
   */
  lemma {:induction false} BindRewritesOneRow(t: Tables, actor: int, input: BindInput) returns (i: nat)
    requires Valid(t) && Bind(t, actor, input).1 == Done
    ensures var before, after := ReadModel(t), ReadModel(Bind(t, actor, input).0);
            && i < |before.rows| && before.rows[i].row.state == Ready
            && before.rows[i].row.repositoryID == input.repositoryID
            && after.current == before.current
            && after.rows == before.rows[i := before.rows[i].(row := before.rows[i].row.(state := BoundCurrent))]
  {
    BindCommitsIff(t, actor, input);
    var l, r :| Bindable(t, input, l, r);
    BindJoinsThePair(t, actor, input, l, r);
    i := JoinedRewritesOneRow(t, l, r);
    ReadyRowFields(l, r);
  }

  lemma {:induction false} ReadyRowFields(l: LocalRepository, r: RemoteRepository)
    ensures ReadyRow(l, r).row.state == Ready && ReadyRow(l, r).row.repositoryID == l.id
  {
    WithGroupKeeps(EmptyRow(Ready), [r]);
  }

  lemma {:induction false} JoinedReadModel(t: Tables, c: Connection, t': Tables)
    requires t.connection == Some(c) && t'.connection.Some?
    requires t'.connection.value == c.(bindingRevision := t'.connection.value.bindingRevision)
    requires t'.bindings == t.bindings && t'.locals == t.locals && t'.remotes == t.remotes
    ensures ReadModel(t') == ReadModel(t)
  {
    EvidenceIgnoresBindingRevision(c, t'.connection.value.bindingRevision, t.locals, t.remotes);
  }

  /** Unbinding straight after, at the next revision, restores the bindings table and the whole read model. */
  lemma {:induction false} UnbindUndoesBind(t: Tables, actor: int, input: BindInput, back: UnbindInput)
    requires Valid(t) && Bind(t, actor, input).1 == Done
    requires back == UnbindInput(input.connectionID, input.configRevision, input.bindingRevision + 1, input.repositoryID, true)
    requires input.bindingRevision + 1 < MAX_INT64
    ensures var result := Unbind(Bind(t, actor, input).0, actor, back);
            && result.1 == Done
            && result.0.bindings == t.bindings && result.0.locals == t.locals && result.0.remotes == t.remotes
            && result.0.connection == Some(t.connection.value.(bindingRevision := input.bindingRevision + 2))
            && ReadModel(result.0) == ReadModel(t)
  {
    BindCommitsIff(t, actor, input);
    var l, r :| Bindable(t, input, l, r);
    BindJoinsThePair(t, actor, input, l, r);
    UnbindAfterJoin(t, l, r, actor, back);
    JoinedReadModel(t, t.connection.value, Unbind(Joined(t, l, r), actor, back).0);
  }

  lemma UnbindAfterJoin(t: Tables, l: LocalRepository, r: RemoteRepository, actor: int, back: UnbindInput)
    requires t.connection.Some? && t.connection.value.organizationID.Some?
    requires forall b :: b in t.bindings ==> b.repositoryID != l.id
    requires UnbindInputValid(back) && actor in t.admins && UnbindFences(Joined(t, l, r), back)
    requires back.repositoryID == l.id && back.bindingRevision < MAX_INT64
    ensures var result := Unbind(Joined(t, l, r), actor, back);
            && result.1 == Done
            && result.0.bindings == t.bindings && result.0.locals == t.locals && result.0.remotes == t.remotes
            && result.0.connection == Some(t.connection.value.(bindingRevision := back.bindingRevision + 1))
  {
    var b := BindingFor(InputsOf(t.connection.value, t.locals, t.remotes), l, r);
    JoinedHasTheRow(t.bindings, b);
    RemoveUndoesInsert(t.bindings, b);
  }

  lemma {:induction false} JoinedHasTheRow(bindings: seq<Binding>, b: Binding)
    ensures b in InsertBinding(bindings, b)
  {
    var k := InsertSplits(bindings, b);
  }

  // ---------------------------------------------------------------- histories

  /** Besides bind and unbind: a check or an edit rewrites the connection and the listing, and local repositories change. */
  datatype Op =
    | OpBind(actor: int, bind: BindInput)
    | OpUnbind(actor: int, unbind: UnbindInput)
    | OpObserve(connection: Connection, locals: seq<LocalRepository>, remotes: seq<RemoteRepository>)

  /** What an observing step leaves; it keeps the binding revision, the keys and the bound repositories. */
  function Observed(t: Tables, connection: Connection, locals: seq<LocalRepository>, remotes: seq<RemoteRepository>): Tables {
    t.(connection := Some(connection), locals := locals, remotes := remotes)
  }

  function Step(t: Tables, op: Op): Tables {
    match op
    case OpBind(actor, input) => Bind(t, actor, input).0
    case OpUnbind(actor, input) => Unbind(t, actor, input).0
    case OpObserve(connection, locals, remotes) => Observed(t, connection, locals, remotes)
  }

  ghost predicate MayStep(t: Tables, op: Op) {
    op.OpObserve? ==>
      && t.connection.Some? && op.connection.bindingRevision == t.connection.value.bindingRevision
      && Valid(Observed(t, op.connection, op.locals, op.remotes))
  }

  ghost predicate Legal(t: Tables, ops: seq<Op>) {
    ops == [] || (Legal(t, ops[..|ops| - 1]) && MayStep(Run(t, ops[..|ops| - 1]), ops[|ops| - 1]))
  }

  function Run(t: Tables, ops: seq<Op>): Tables {
    if ops == [] then t else Step(Run(t, ops[..|ops| - 1]), ops[|ops| - 1])
  }

  /** Repositories the audit trail says are bound, starting from `bound`. */
  function BoundByEvents(bound: set<int>, events: seq<Event>): set<int> {
    if events == [] then bound
    else
      var before := BoundByEvents(bound, events[..|events| - 1]);
      match events[|events| - 1]
      case Bound(id, _) => before + {id}
      case Unbound(id, _) => before - {id}
  }

  /** A refused or observing step: no event, no revision, the same bindings. */
  ghost predicate Unrecorded(t: Tables, t': Tables) {
    && t'.events == t.events && t'.bindings == t.bindings && t.connection.Some? && t'.connection.Some?
    && t'.connection.value.bindingRevision == t.connection.value.bindingRevision
  }

  /** One committed step: one event, one revision, and the change the event names. */
  ghost predicate Recorded(t: Tables, t': Tables, e: Event) {
    && t.connection.Some? && t'.events == t.events + [e]
    && t'.connection == Some(t.connection.value.(bindingRevision := t.connection.value.bindingRevision + 1))
    && e.bindingRevision == t.connection.value.bindingRevision + 1
    && BoundRepositories(t'.bindings) == BoundByEvents(BoundRepositories(t.bindings), [e])
  }

  lemma {:induction false} StepRecorded(t: Tables, op: Op)
    requires Valid(t) && t.connection.Some? && MayStep(t, op)
    ensures Valid(Step(t, op)) && Step(t, op).connection.Some?
    ensures Unrecorded(t, Step(t, op)) || exists e :: Recorded(t, Step(t, op), e)
  {
    match op
    case OpBind(actor, input) =>
      BindKeepsValid(t, actor, input);
      if Bind(t, actor, input).1 == Done { BindRecorded(t, actor, input); }
    case OpUnbind(actor, input) =>
      UnbindKeepsValid(t, actor, input);
      if Unbind(t, actor, input).1 == Done { UnbindRecorded(t, actor, input); }
    case OpObserve(_, _, _) =>
  }

  lemma {:induction false} OneEvent(bound: set<int>, e: Event)
    ensures BoundByEvents(bound, [e]) == if e.Bound? then bound + {e.repositoryID} else bound - {e.repositoryID}
  {
    assert [e][..0] == [];
  }

  lemma JoinedRecorded(t: Tables, l: LocalRepository, r: RemoteRepository)
    requires t.connection.Some? && t.connection.value.organizationID.Some?
    ensures Recorded(t, Joined(t, l, r), Bound(l.id, t.connection.value.bindingRevision + 1))
  {
    InsertedRepositories(t.bindings, BindingFor(InputsOf(t.connection.value, t.locals, t.remotes), l, r));
    OneEvent(BoundRepositories(t.bindings), Bound(l.id, t.connection.value.bindingRevision + 1));
  }

  lemma BindRecorded(t: Tables, actor: int, input: BindInput)
    requires Valid(t) && Bind(t, actor, input).1 == Done
    ensures Recorded(t, Bind(t, actor, input).0, Bound(input.repositoryID, t.connection.value.bindingRevision + 1))
  {
    BindCommitsIff(t, actor, input);
    var l, r :| Bindable(t, input, l, r);
    BindJoinsThePair(t, actor, input, l, r);
    JoinedRecorded(t, l, r);
  }

  lemma UnbindRecorded(t: Tables, actor: int, input: UnbindInput)
    requires Valid(t) && Unbind(t, actor, input).1 == Done
    ensures Recorded(t, Unbind(t, actor, input).0, Unbound(input.repositoryID, t.connection.value.bindingRevision + 1))
  {
    RemovedRepositories(t.bindings, input.repositoryID);
    OneEvent(BoundRepositories(t.bindings), Unbound(input.repositoryID, t.connection.value.bindingRevision + 1));
  }

  lemma {:induction false} SplitMembers<T>(s: seq<T>, k: nat, c: T)
    requires k <= |s|
    ensures c in s <==> c in s[..k] || c in s[k..]
  {
    assert s == s[..k] + s[k..];
  }

  lemma InsertedRepositories(bindings: seq<Binding>, b: Binding)
    ensures BoundRepositories(InsertBinding(bindings, b)) == BoundRepositories(bindings) + {b.repositoryID}
  {
    var k := InsertSplits(bindings, b);
    forall c ensures c in InsertBinding(bindings, b) <==> c == b || c in bindings { SplitMembers(bindings, k, c); }
    forall id ensures id in BoundRepositories(InsertBinding(bindings, b)) <==> id in BoundRepositories(bindings) + {b.repositoryID} {
      if id in BoundRepositories(bindings) {
        var c :| c in bindings && c.repositoryID == id;
        assert c in InsertBinding(bindings, b);
      }
      assert b in InsertBinding(bindings, b);
    }
  }

  lemma RemovedRepositories(bindings: seq<Binding>, id: int)
    requires UniqueBindings(bindings)
    ensures BoundRepositories(RemoveBinding(bindings, id)) == BoundRepositories(bindings) - {id}
  {
    RemoveIsSub(bindings, id);
    forall k ensures k in BoundRepositories(RemoveBinding(bindings, id)) <==> k in BoundRepositories(bindings) - {id} {
      if k in BoundRepositories(bindings) - {id} {
        var c :| c in bindings && c.repositoryID == k;
        assert c in RemoveBinding(bindings, id);
      }
    }
  }

  lemma {:induction false} EventsSplit(bound: set<int>, events: seq<Event>, e: Event)
    ensures BoundByEvents(bound, events + [e]) == BoundByEvents(BoundByEvents(bound, events), [e])
  {
    assert (events + [e])[..|events|] == events;
    OneEvent(BoundByEvents(bound, events), e);
  }

  /**
   Over any history of binds, unbinds, checks, edits and changing listings the
   tables stay well formed, the binding revision counts the committed events,
   and replaying those events gives the bound repositories.
   */
  lemma {:induction false} EventsTellTheBindings(t: Tables, ops: seq<Op>)
    requires Valid(t) && t.connection.Some? && t.events == [] && Legal(t, ops)
    ensures var t' := Run(t, ops);
            && Valid(t') && t'.connection.Some?
            && t'.connection.value.bindingRevision == t.connection.value.bindingRevision + |t'.events|
            && BoundRepositories(t'.bindings) == BoundByEvents(BoundRepositories(t.bindings), t'.events)
  {
    if ops != [] {
      var last := |ops| - 1;
      EventsTellTheBindings(t, ops[..last]);
      var before := Run(t, ops[..last]);
      StepRecorded(before, ops[last]);
      var after := Run(t, ops);
      if !Unrecorded(before, after) {
        var e :| Recorded(before, after, e);
        EventsSplit(BoundRepositories(t.bindings), before.events, e);
      }
    }
  }
}
