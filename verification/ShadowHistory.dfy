/**
 Whole histories of the shadow protocol: late finalizers, what stored rows mean,
 what an unchanged scope label means, and the periodic cadence.
 */
module ShadowHistory {
  import opened Wrappers
  import opened ShadowAccess
  import opened ShadowRuns
  import opened ShadowWorld

  datatype History = History(ops: seq<Op>, states: seq<World>)

  /** A connection before its first run. */
  ghost predicate Initial(w: World) {
    Valid(w) && w.issued == map[] && w.db.runs == [] && w.db.observations == map[]
  }

  /** Step `k` takes its state to the next. */
  ghost predicate Steps(h: History, k: nat)
    requires k < |h.ops| && |h.states| == |h.ops| + 1
  {
    Enabled(h.states[k], h.ops[k]) && h.states[k + 1] == Apply(h.states[k], h.ops[k])
  }

  ghost predicate Legal(h: History) {
    && |h.states| == |h.ops| + 1 && Initial(h.states[0])
    && (forall k: nat :: k < |h.ops| ==> Steps(h, k))
  }

  lemma {:induction false} AlwaysValid(h: History, k: nat)
    requires Legal(h) && k <= |h.ops|
    ensures Valid(h.states[k])
  {
    if k > 0 {
      AlwaysValid(h, k - 1);
      assert Steps(h, k - 1);
      StepKeepsValid(h.states[k - 1], h.ops[k - 1]);
    }
  }

  /** Step `k` of a history, as a step from a valid state. */
  lemma {:induction false} StepAt(h: History, k: nat)
    requires Legal(h) && k < |h.ops|
    ensures Valid(h.states[k]) && Enabled(h.states[k], h.ops[k]) && h.states[k + 1] == Apply(h.states[k], h.ops[k])
  {
    AlwaysValid(h, k);
    assert Steps(h, k);
  }

  /**
   In every reachable state at most one run is unfinished and it has the largest
   id, and at most three run rows exist.
   */
  lemma OneUnfinishedAndThreeRows(h: History, k: nat)
    requires Legal(h) && k <= |h.ops|
    ensures var runs := h.states[k].db.runs;
            && |runs| <= 3
            && (forall i, j :: 0 <= i < |runs| && 0 <= j < |runs| && Unfinished(runs[i]) ==>
                  runs[j].id <= runs[i].id && (Unfinished(runs[j]) ==> i == j))
  {
    AlwaysValid(h, k);
    ShapeMeans(h.states[k].db.runs);
  }

  // ---------------------------------------------------------- late finalizers

  /** The run was reserved and is no longer running: ended, or ended and retained away. */
  ghost predicate Over(db: Db, id: int) {
    id <= db.lastRunID && forall i :: 0 <= i < |db.runs| && db.runs[i].id == id ==> !Unfinished(db.runs[i])
  }

  lemma {:induction false} NotRunningAllEnded(runs: seq<Run>)
    requires Shape(runs) && (runs == [] || !Unfinished(runs[|runs| - 1]))
    ensures forall i :: 0 <= i < |runs| ==> !Unfinished(runs[i])
  {
    assert Terminals(runs) == runs;
  }

  lemma {:induction false} EndedStaysOver(runs: seq<Run>, row: Run, lastRunID: int, id: int)
    requires id <= lastRunID < row.id && forall i :: 0 <= i < |runs| ==> !Unfinished(runs[i])
    ensures forall i :: 0 <= i < |runs + [row]| && (runs + [row])[i].id == id ==> !Unfinished((runs + [row])[i])
  {
  }

  lemma {:induction false} ReservedStaysOver(w: World, now: int, runTrigger: Trigger, requester: Option<int>, startedAt: int, id: int)
    requires ValidRuns(w.db) && Over(w.db, id)
    ensures Over(ReservedWorld(w, now, runTrigger, requester, startedAt).db, id)
  {
    var ready := Recovered(w.db, now);
    RecoveredShape(w.db, now);
    NotRunningAllEnded(ready.runs);
    EndedStaysOver(ready.runs, NewRun(ready, runTrigger, requester, startedAt), w.db.lastRunID, id);
  }

  lemma {:induction false} FinishStaysOver(w: World, s: Snapshot, o: AccessObservation, at: int, id: int)
    requires ValidRuns(w.db) && Over(w.db, id)
    ensures Over(Finalize(w.db, s, o, at).0, id)
  {
    if Awaited(w.db, s) {
      FinalizeIs(w, s, o, at);
      var code, counts := FinalCode(w.db, s, o), FinalCounts(w.db, s, o);
      EndedNewest(w.db, code, counts, at);
      EndedShape(w.db.runs, Ended(w.db.runs[|w.db.runs| - 1], code, counts, at));
      NotRunningAllEnded(EndedAfter(w.db, code, counts, at));
    } else {
      LateChangesNothing(w.db, s, o, at);
    }
  }

  lemma {:induction false} SameRunsOver(a: World, b: World, id: int)
    requires SameRuns(a, b) && Over(b.db, id)
    ensures Over(a.db, id)
  {
  }

  lemma {:induction false} ManualStaysOver(w: World, op: Op, id: int)
    requires ValidRuns(w.db) && Over(w.db, id) && op.OpManual?
    ensures Over(Apply(w, op).db, id)
  {
    var reserved := ReservedWorld(w, op.now, Manual, Some(op.actor), op.now);
    ManualRuns(w, op);
    ReservedStaysOver(w, op.now, Manual, Some(op.actor), op.now, id);
    SameRunsOver(Apply(w, op), if SameRuns(Apply(w, op), w) then w else reserved, id);
  }

  lemma {:induction false} ScanStaysOver(w: World, op: Op, id: int)
    requires ValidRuns(w.db) && Over(w.db, id) && op.OpScan?
    ensures Over(Apply(w, op).db, id)
  {
    var startedAt := Max(op.started, op.now);
    var reserved := ReservedWorld(w, op.now, Periodic, None, startedAt);
    ScanRuns(w, op);
    ReservedStaysOver(w, op.now, Periodic, None, startedAt, id);
    SameRunsOver(Apply(w, op), if SameRuns(Apply(w, op), w) then w else reserved, id);
  }

  lemma {:induction false} StepStaysOver(w: World, op: Op, id: int)
    requires Valid(w) && Enabled(w, op) && Over(w.db, id)
    ensures Over(Apply(w, op).db, id)
  {
    match op
    case OpManual(_, _, _, _) => ManualStaysOver(w, op, id);
    case OpScan(_, _, _, _) => ScanStaysOver(w, op, id);
    case OpFinish(runID, _, _, _, _, at) => FinishStaysOver(w, w.issued[runID], FinishedObservation(w, op), at, id);
    case _ =>
      ChangeKeepsRuns(w, op);
      SameRunsOver(Apply(w, op), w, id);
  }

  lemma {:induction false} OverAfter(h: History, k: nat, id: int)
    requires Legal(h) && k < |h.ops| && Over(h.states[k].db, id)
    ensures Over(h.states[k + 1].db, id)
  {
    StepAt(h, k);
    StepStaysOver(h.states[k], h.ops[k], id);
  }

  lemma {:induction false} OverForGood(h: History, i: nat, j: nat, id: int)
    requires Legal(h) && i <= j <= |h.ops| && Over(h.states[i].db, id)
    ensures Over(h.states[j].db, id)
    decreases j
  {
    if i < j {
      OverForGood(h, i, j - 1, id);
      OverAfter(h, j - 1, id);
    }
  }

  lemma OverNeverAwaited(db: Db, s: Snapshot)
    requires Over(db, s.runID)
    ensures !Awaited(db, s)
  {
    FindRunMeaning(db.runs, s.runID);
  }

  /**
   Once a run is over, its worker can return at any later time with any answer
   and the tables do not change: a terminalized run never publishes.
   */
  lemma LateFinalizerNeverPublishes(h: History, i: nat, j: nat, s: Snapshot, o: AccessObservation, at: int)
    requires Legal(h) && i <= j <= |h.ops| && Over(h.states[i].db, s.runID)
    ensures Finalize(h.states[j].db, s, o, at) == (h.states[j].db, None)
  {
    OverForGood(h, i, j, s.runID);
    OverNeverAwaited(h.states[j].db, s);
  }

  // --------------------------------------------------- stored rows as a fold

  datatype Event =
    | Publication(runID: int, at: int, pairs: seq<Pair>)
    | IdentityGone(identity: int)
    | BindingGone(repository: int)
    | Nothing

  function EventOf(w: World, op: Op): Event {
    match op
    case OpFinish(runID, _, _, _, _, at) =>
      if runID in w.issued && Finalize(w.db, w.issued[runID], FinishedObservation(w, op), at).1 == Some(Complete)
      then Publication(runID, at, FinishedObservation(w, op).pairs) else Nothing
    case OpUnlink(identity) => if Unlink(w.db, identity).1 then IdentityGone(identity) else Nothing
    case OpUnbind(repository) => if Unbind(w.db, repository).1 then BindingGone(repository) else Nothing
    case _ => Nothing
  }

  /** The events of a history, step by step. */
  ghost predicate Traces(h: History, events: seq<Event>) {
    |events| == |h.ops| < |h.states| && forall k :: 0 <= k < |h.ops| ==> events[k] == EventOf(h.states[k], h.ops[k])
  }

  predicate Drops(e: Event, key: Key) {
    (e.IdentityGone? && e.identity == key.0) || (e.BindingGone? && e.repository == key.1)
  }

  function Classifies(e: Event, key: Key): Option<Reason> {
    if e.Publication? then ReasonFor(e.pairs, key) else None
  }

  /** One pair's row after an event. */
  function Folded(before: Option<Observation>, e: Event, key: Key): Option<Observation> {
    if Drops(e, key) then None
    else if Classifies(e, key).Some? then Some(Upserted(before, Classifies(e, key).value, e.runID, e.at))
    else before
  }

  function Fold(events: seq<Event>, k: nat, key: Key): Option<Observation>
    requires k <= |events|
  {
    if k == 0 then None else Folded(Fold(events, k - 1, key), events[k - 1], key)
  }

  lemma PublicationFolds(w: World, op: Op, key: Key)
    requires Valid(w) && Enabled(w, op) && op.OpFinish?
    ensures Get(Apply(w, op).db.observations, key) == Folded(Get(w.db.observations, key), EventOf(w, op), key)
  {
    var s, o := w.issued[op.runID], FinishedObservation(w, op);
    SettledIsSound(s, op.decrypts, op.provider, op.cancelled);
    if Awaited(w.db, s) {
      FinalizeIs(w, s, o, op.at);
      if FinalCode(w.db, s, o) == Complete { PublishedAt(w.db.observations, o.pairs, s.runID, op.at, key); }
    }
  }

  lemma StepFolds(w: World, op: Op, key: Key)
    requires Valid(w) && Enabled(w, op)
    ensures Get(Apply(w, op).db.observations, key) == Folded(Get(w.db.observations, key), EventOf(w, op), key)
  {
    if op.OpFinish? { PublicationFolds(w, op, key); }
  }

  /** Each pair's stored row is the fold of the history of completed runs, unlinks and unbinds. */
  lemma {:induction false} StoredRowIsFold(h: History, events: seq<Event>, k: nat, key: Key)
    requires Legal(h) && Traces(h, events) && k <= |h.ops|
    ensures Get(h.states[k].db.observations, key) == Fold(events, k, key)
  {
    if k > 0 {
      StoredRowIsFold(h, events, k - 1, key);
      StepAt(h, k - 1);
      StepFolds(h.states[k - 1], h.ops[k - 1], key);
    }
  }

  /** No event from step `m` up to `k` drops the pair. */
  ghost predicate Undropped(events: seq<Event>, m: nat, k: nat, key: Key)
    requires k <= |events|
  {
    forall n :: m <= n < k ==> !Drops(events[n], key)
  }

  /** Step `m` gave the row its latest classification: it classified the pair and nothing has since. */
  ghost predicate GaveLatest(events: seq<Event>, m: nat, k: nat, key: Key, o: Observation)
    requires k <= |events|
  {
    && m < k && events[m].Publication? && Classifies(events[m], key) == Some(o.reason)
    && events[m].runID == o.runID && events[m].at == o.at
    && Undropped(events, m + 1, k, key) && (forall n :: m < n < k ==> Classifies(events[n], key) == None)
  }

  /** Step `m` gave the row its confirmation: the last confirming classification since the pair was last dropped. */
  ghost predicate GaveConfirmation(events: seq<Event>, m: nat, k: nat, key: Key, c: Confirmation)
    requires k <= |events|
  {
    && m < k && events[m].Publication? && Classifies(events[m], key) == Some(c.reason) && c.reason.Confirmed()
    && events[m].runID == c.runID && events[m].at == c.at
    && Undropped(events, m + 1, k, key) && NothingConfirms(events, m + 1, k, key)
  }

  ghost predicate NothingConfirms(events: seq<Event>, m: nat, k: nat, key: Key)
    requires k <= |events|
  {
    forall n :: m <= n < k && Classifies(events[n], key).Some? ==> !Classifies(events[n], key).value.Confirmed()
  }

  /** After the last drop, nothing confirmed the pair. */
  ghost predicate NeverConfirmed(events: seq<Event>, k: nat, key: Key)
    requires k <= |events|
  {
    forall m :: 0 <= m < k && Undropped(events, m, k, key) ==> NothingConfirms(events, m, k, key)
  }

  lemma {:induction false} LatestIsLastClassification(events: seq<Event>, k: nat, key: Key) returns (m: nat)
    requires k <= |events| && Fold(events, k, key).Some?
    ensures GaveLatest(events, m, k, key, Fold(events, k, key).value)
  {
    if Classifies(events[k - 1], key).Some? {
      m := k - 1;
    } else {
      m := LatestIsLastClassification(events, k - 1, key);
    }
  }

  lemma {:induction false} ConfirmationIsLastConfirmed(events: seq<Event>, k: nat, key: Key) returns (m: nat)
    requires k <= |events| && Fold(events, k, key).Some? && Fold(events, k, key).value.confirmed.Some?
    ensures GaveConfirmation(events, m, k, key, Fold(events, k, key).value.confirmed.value)
  {
    var classified := Classifies(events[k - 1], key);
    if classified.Some? && classified.value.Confirmed() {
      m := k - 1;
    } else {
      m := ConfirmationIsLastConfirmed(events, k - 1, key);
    }
  }

  lemma {:induction false} UnconfirmedMeansNever(events: seq<Event>, k: nat, key: Key)
    requires k <= |events|
    requires Fold(events, k, key).None? || Fold(events, k, key).value.confirmed.None?
    ensures NeverConfirmed(events, k, key)
  {
    if k > 0 && !Drops(events[k - 1], key) {
      UnconfirmedMeansNever(events, k - 1, key);
      forall m | 0 <= m < k && Undropped(events, m, k, key) ensures NothingConfirms(events, m, k, key) {
        if m < k - 1 { assert Undropped(events, m, k - 1, key); }
      }
    }
  }

  /**
   Every stored row says exactly this: its latest fields are the last completed
   classification of the pair since it was last dropped; its confirmation is the
   most recent confirming one; no confirmation means there was none.
   */
  lemma StoredRowMeaning(h: History, events: seq<Event>, k: nat, key: Key)
    requires Legal(h) && Traces(h, events) && k <= |h.ops| && key in h.states[k].db.observations
    ensures var o := h.states[k].db.observations[key];
            && (exists m :: GaveLatest(events, m, k, key, o))
            && (o.confirmed.Some? ==> exists m :: GaveConfirmation(events, m, k, key, o.confirmed.value))
            && (o.confirmed.None? ==> NeverConfirmed(events, k, key))
  {
    StoredRowIsFold(h, events, k, key);
    var m := LatestIsLastClassification(events, k, key);
    if h.states[k].db.observations[key].confirmed.Some? {
      var n := ConfirmationIsLastConfirmed(events, k, key);
    } else {
      UnconfirmedMeansNever(events, k, key);
    }
  }

  // ------------------------------------------------- what the scope label means

  /** Revisions only grow, and while one stands still so does what it fences, but for the saturated identity set. */
  ghost predicate Revised(before: Db, after: Db) {
    && after.fences.identity >= before.fences.identity && after.fences.binding >= before.fences.binding
    && (after.fences.identity == before.fences.identity ==> after.identities <= before.identities)
    && (after.fences.identity == before.fences.identity < MAX_INT64 ==> after.identities == before.identities)
    && (after.fences.binding == before.fences.binding ==> after.bindings == before.bindings)
  }

  lemma RevisedThrough(a: Db, b: Db, c: Db)
    requires Revised(a, b) && Revised(b, c)
    ensures Revised(a, c)
  {
  }

  lemma FinishKeepsScope(db: Db, s: Snapshot, o: AccessObservation, at: int)
    ensures var after := Finalize(db, s, o, at).0;
            after.fences == db.fences && after.identities == db.identities && after.bindings == db.bindings
  {
  }

  lemma {:induction false} StepRevisions(w: World, op: Op)
    requires Valid(w) && Enabled(w, op)
    ensures Revised(w.db, Apply(w, op).db)
  {
    if op.OpFinish? { FinishKeepsScope(w.db, w.issued[op.runID], FinishedObservation(w, op), op.at); }
  }

  lemma {:induction false} RevisedAfter(h: History, k: nat)
    requires Legal(h) && k < |h.ops|
    ensures Revised(h.states[k].db, h.states[k + 1].db)
  {
    StepAt(h, k);
    StepRevisions(h.states[k], h.ops[k]);
  }

  lemma {:induction false} RevisionsOverTime(h: History, i: nat, j: nat)
    requires Legal(h) && i <= j <= |h.ops|
    ensures Revised(h.states[i].db, h.states[j].db)
    decreases j
  {
    if i < j {
      RevisionsOverTime(h, i, j - 1);
      RevisedAfter(h, j - 1);
      RevisedThrough(h.states[i].db, h.states[j - 1].db, h.states[j].db);
    }
  }

  /**
   Between any two reachable states, equal access-identity revision and equal
   identity count mean the identical set of linked identities, saturated or not.
   */
  lemma SameRevisionAndCountSameIdentities(h: History, i: nat, j: nat)
    requires Legal(h) && i <= |h.ops| && j <= |h.ops|
    requires h.states[i].db.fences.identity == h.states[j].db.fences.identity
    requires |h.states[i].db.identities| == |h.states[j].db.identities|
    ensures h.states[i].db.identities == h.states[j].db.identities
  {
    if i <= j {
      RevisionsOverTime(h, i, j);
      SubsetOfSameSize(h.states[j].db.identities, h.states[i].db.identities);
    } else {
      RevisionsOverTime(h, j, i);
      SubsetOfSameSize(h.states[i].db.identities, h.states[j].db.identities);
    }
  }

  /** At the maximum no identity can be linked, so the set only shrinks from there. */
  lemma SaturatedOnlyShrinks(h: History, i: nat, j: nat)
    requires Legal(h) && i <= j <= |h.ops| && h.states[i].db.fences.identity == MAX_INT64
    ensures h.states[j].db.fences.identity == MAX_INT64 && h.states[j].db.identities <= h.states[i].db.identities
    ensures Link(h.states[j].db) == (h.states[j].db, false)
  {
    RevisionsOverTime(h, i, j);
    AlwaysValid(h, j);
  }

  /** Where a snapshot was cut: the state whose scope it carries. */
  ghost predicate CutAt(w: World, s: Snapshot) {
    s.fences == w.db.fences && s.identities == w.db.identities && s.bindings == w.db.bindings
  }

  lemma NewlyIssued(w: World, op: Op, id: int)
    requires Valid(w) && id in Apply(w, op).issued
    ensures (id in w.issued && Apply(w, op).issued[id] == w.issued[id]) || CutAt(w, Apply(w, op).issued[id])
  {
  }

  lemma {:induction false} IssuedFrom(h: History, k: nat, id: int) returns (i: nat)
    requires Legal(h) && k <= |h.ops| && id in h.states[k].issued
    ensures i <= k && CutAt(h.states[i], h.states[k].issued[id])
  {
    StepAt(h, k - 1);
    NewlyIssued(h.states[k - 1], h.ops[k - 1], id);
    if id in h.states[k - 1].issued && h.states[k].issued[id] == h.states[k - 1].issued[id] {
      i := IssuedFrom(h, k - 1, id);
    } else {
      i := k - 1;
    }
  }

  ghost predicate RowsIssued(w: World) { forall i :: 0 <= i < |w.db.runs| ==> w.db.runs[i].id in w.issued }

  lemma {:induction false} KeptIssued(w: World, after: seq<Run>)
    requires RowsIssued(w) && forall j :: 0 <= j < |after| ==> KeptFrom(w.db.runs, after[j])
    ensures forall j :: 0 <= j < |after| ==> after[j].id in w.issued
  {
    forall j | 0 <= j < |after| ensures after[j].id in w.issued {
      assert KeptFrom(w.db.runs, after[j]);
      var i :| 0 <= i < |w.db.runs|
        && after[j] == w.db.runs[i].(result := after[j].result, counts := after[j].counts, finishedAt := after[j].finishedAt);
    }
  }

  lemma {:induction false} ReservedIssued(w: World, now: int, runTrigger: Trigger, requester: Option<int>, startedAt: int)
    requires Valid(w) && RowsIssued(w)
    ensures RowsIssued(ReservedWorld(w, now, runTrigger, requester, startedAt))
  {
    RecoveredRows(w.db, now);
    KeptIssued(w, Recovered(w.db, now).runs);
  }

  lemma {:induction false} SameRunsIssued(a: World, b: World)
    requires SameRuns(a, b) && RowsIssued(b)
    ensures RowsIssued(a)
  {
  }

  lemma FinishedIssued(w: World, op: Op)
    requires Valid(w) && Enabled(w, op) && RowsIssued(w) && op.OpFinish?
    ensures RowsIssued(Apply(w, op))
  {
    var s, o := w.issued[op.runID], FinishedObservation(w, op);
    if Awaited(w.db, s) {
      SettledIsSound(s, op.decrypts, op.provider, op.cancelled);
      AwaitedIsNewest(w.db, s);
      FinalizeIs(w, s, o, op.at);
      assert Matches(w.db.runs[|w.db.runs| - 1], s);
      FinalCountsFit(w.db, s, o, op.at);
      EndedValid(w.db, FinalCode(w.db, s, o), FinalCounts(w.db, s, o), op.at);
      KeptIssued(w, EndedAfter(w.db, FinalCode(w.db, s, o), FinalCounts(w.db, s, o), op.at));
    } else {
      LateChangesNothing(w.db, s, o, op.at);
    }
  }

  lemma {:induction false} StepKeepsIssued(w: World, op: Op)
    requires Valid(w) && Enabled(w, op) && RowsIssued(w)
    ensures RowsIssued(Apply(w, op))
  {
    match op
    case OpManual(actor, _, _, now) =>
      var reserved := ReservedWorld(w, now, Manual, Some(actor), now);
      ManualRuns(w, op);
      ReservedIssued(w, now, Manual, Some(actor), now);
      SameRunsIssued(Apply(w, op), if SameRuns(Apply(w, op), w) then w else reserved);
    case OpScan(_, _, now, started) =>
      var reserved := ReservedWorld(w, now, Periodic, None, Max(started, now));
      ScanRuns(w, op);
      ReservedIssued(w, now, Periodic, None, Max(started, now));
      SameRunsIssued(Apply(w, op), if SameRuns(Apply(w, op), w) then w else reserved);
    case OpFinish(_, _, _, _, _, _) => FinishedIssued(w, op);
    case _ =>
      ChangeKeepsRuns(w, op);
      SameRunsIssued(Apply(w, op), w);
  }

  lemma {:induction false} RowsAlwaysIssued(h: History, k: nat)
    requires Legal(h) && k <= |h.ops|
    ensures RowsIssued(h.states[k])
  {
    if k > 0 {
      RowsAlwaysIssued(h, k - 1);
      StepAt(h, k - 1);
      StepKeepsIssued(h.states[k - 1], h.ops[k - 1]);
    }
  }

  /** The reader's scope label for a run row: revisions and counts, without the check generation. */
  predicate ScopeCurrent(db: Db, r: Run) {
    && db.fences.config == r.fences.config && db.fences.binding == r.fences.binding
    && db.fences.identity == r.fences.identity
    && |db.identities| == r.identityCount && |db.bindings| == r.repositoryCount
  }

  /**
   A run row labelled current really was reserved over today's identities and
   bindings: comparing revisions and counts compares the sets themselves.
   */
  lemma ScopeCurrentMeansSameScope(h: History, k: nat, i: nat)
    requires Legal(h) && k <= |h.ops| && i < |h.states[k].db.runs| && ScopeCurrent(h.states[k].db, h.states[k].db.runs[i])
    ensures var r := h.states[k].db.runs[i];
            && r.id in h.states[k].issued
            && h.states[k].issued[r.id].identities == h.states[k].db.identities
            && h.states[k].issued[r.id].bindings == h.states[k].db.bindings
  {
    AlwaysValid(h, k);
    RowsAlwaysIssued(h, k);
    var r := h.states[k].db.runs[i];
    var s := h.states[k].issued[r.id];
    assert Matches(r, s);
    var cut := IssuedFrom(h, k, r.id);
    RevisionsOverTime(h, cut, k);
    SubsetOfSameSize(h.states[k].db.identities, s.identities);
  }

  // ------------------------------------------------------------------ cadence

  /** The start instant of the periodic run a step reserved, if it reserved one. */
  function PeriodicStart(w: World, op: Op): Option<int> {
    if op.OpScan? && PeriodicScan(w.db, op.encryption, op.fault, op.now, op.started).1.Reserved?
    then Some(Max(op.started, op.now)) else None
  }

  /** The clock each step samples never goes back: step `k` samples between `clock[k]` and `clock[k + 1]`. */
  ghost predicate Clocked(h: History, clock: seq<int>) {
    && |clock| == |h.ops| + 1
    && (forall k :: 0 <= k < |h.ops| ==> clock[k] <= clock[k + 1])
    && (forall k :: 0 <= k < |h.ops| && h.ops[k].OpScan? ==>
          clock[k] <= h.ops[k].now <= clock[k + 1] && clock[k] <= h.ops[k].started <= clock[k + 1])
    && (forall k :: 0 <= k < |h.ops| && h.ops[k].OpEnable? ==> clock[k] <= h.ops[k].now <= clock[k + 1])
  }

  predicate DueAfter(db: Db, at: int) {
    db.periodic.Some? && db.periodic.value.due.Some? ==> db.periodic.value.due.value >= at
  }

  lemma {:induction false} SetDueAfter(db: Db, due: int, at: int)
    requires due >= at
    ensures DueAfter(SetDue(db, due), at)
  {
  }

  lemma {:induction false} ScanKeepsDue(w: World, op: Op, at: int)
    requires op.OpScan? && DueAfter(w.db, at) && op.now + CADENCE >= at
    ensures DueAfter(Apply(w, op).db, at)
  {
    var startedAt := Max(op.started, op.now);
    ScanIs(w, op.encryption, op.fault, op.now, op.started);
    SetDueAfter(w.db, op.now + CADENCE, at);
    SetDueAfter(ReservedWorld(w, op.now, Periodic, None, startedAt).db, startedAt + CADENCE, at);
  }

  lemma {:induction false} FinishKeepsDue(w: World, op: Op, at: int)
    requires op.OpFinish? && DueAfter(w.db, at)
    ensures DueAfter(Apply(w, op).db, at)
  {
  }

  lemma {:induction false} EnableKeepsDue(w: World, op: Op, at: int)
    requires (op.OpEnable? || op.OpDisable?) && DueAfter(w.db, at) && (op.OpEnable? ==> op.now + CADENCE >= at)
    ensures DueAfter(Apply(w, op).db, at)
  {
  }

  lemma {:induction false} OtherKeepsDue(w: World, op: Op)
    requires !op.OpScan? && !op.OpFinish? && !op.OpEnable? && !op.OpDisable?
    ensures Apply(w, op).db.periodic == w.db.periodic
  {
  }

  /** No step brings the due time forward of a cadence after an instant already past. */
  lemma {:induction false} StepKeepsDue(w: World, op: Op, at: int)
    requires DueAfter(w.db, at) && (op.OpScan? || op.OpEnable? ==> op.now + CADENCE >= at)
    ensures DueAfter(Apply(w, op).db, at)
  {
    if op.OpScan? { ScanKeepsDue(w, op, at); }
    else if op.OpFinish? { FinishKeepsDue(w, op, at); }
    else if op.OpEnable? || op.OpDisable? { EnableKeepsDue(w, op, at); }
    else { OtherKeepsDue(w, op); }
  }

  lemma {:induction false} ClockedSince(h: History, clock: seq<int>, i: nat, k: nat)
    requires Clocked(h, clock) && i <= k < |clock|
    ensures clock[i] <= clock[k]
    decreases k
  {
    if i < k { ClockedSince(h, clock, i, k - 1); }
  }

  /** Once the due time is a cadence past an instant, it stays so. */
  lemma {:induction false} DueStaysPostponed(h: History, clock: seq<int>, i: nat, k: nat, instant: int)
    requires Legal(h) && Clocked(h, clock) && i <= k <= |h.ops|
    requires instant <= clock[i] && DueAfter(h.states[i].db, instant + CADENCE)
    ensures DueAfter(h.states[k].db, instant + CADENCE)
    decreases k
  {
    if i < k {
      DueStaysPostponed(h, clock, i, k - 1, instant);
      ClockedSince(h, clock, i, k - 1);
      StepAt(h, k - 1);
      StepKeepsDue(h.states[k - 1], h.ops[k - 1], instant + CADENCE);
    }
  }

  lemma {:induction false} StartPostpones(w: World, op: Op)
    requires PeriodicStart(w, op).Some?
    ensures ScanIsDue(w.db, op.now) && DueAfter(Apply(w, op).db, PeriodicStart(w, op).value + CADENCE)
  {
  }

  /**
   Whatever else happens in between (manual runs, blocked and failed scans,
   disabling and enabling), two periodic runs start at least five minutes apart.
   */
  lemma {:induction false} PeriodicRunsAreSpaced(h: History, clock: seq<int>, i: nat, j: nat)
    requires Legal(h) && Clocked(h, clock) && i < j < |h.ops|
    requires PeriodicStart(h.states[i], h.ops[i]).Some? && PeriodicStart(h.states[j], h.ops[j]).Some?
    ensures PeriodicStart(h.states[j], h.ops[j]).value - PeriodicStart(h.states[i], h.ops[i]).value >= CADENCE
  {
    StepAt(h, i);
    StartPostpones(h.states[i], h.ops[i]);
    DueStaysPostponed(h, clock, i + 1, j, PeriodicStart(h.states[i], h.ops[i]).value);
    StartPostpones(h.states[j], h.ops[j]);
  }

  /** A due scan leaves the due time a full cadence past its clock, whichever way it ends. */
  lemma {:induction false} DueScanPostpones(w: World, op: Op)
    requires op.OpScan? && ScanIsDue(w.db, op.now)
    ensures DueAfter(Apply(w, op).db, op.now + CADENCE)
    ensures var after := Apply(w, op).db.periodic;
            after.Some? && after.value.due.Some? && after.value.due.value > op.now && after.value.revision == w.db.periodic.value.revision
  {
  }

  /**
   Every due scan, whether it reserves, is blocked or fails, moves the due time
   strictly past the clock it sampled, and no scan of any later step, through
   disabling and enabling, comes due again within five minutes of it.
   */
  lemma {:induction false} DueScanMovesOn(h: History, clock: seq<int>, i: nat, j: nat)
    requires Legal(h) && Clocked(h, clock) && i < j < |h.ops|
    requires h.ops[i].OpScan? && ScanIsDue(h.states[i].db, h.ops[i].now)
    ensures var after := h.states[i + 1].db.periodic;
            after.Some? && after.value.due.Some? && after.value.due.value > h.ops[i].now
    ensures h.ops[j].OpScan? && ScanIsDue(h.states[j].db, h.ops[j].now) ==> h.ops[j].now - h.ops[i].now >= CADENCE
  {
    StepAt(h, i);
    DueScanPostpones(h.states[i], h.ops[i]);
    DueStaysPostponed(h, clock, i + 1, j, h.ops[i].now);
  }
}
