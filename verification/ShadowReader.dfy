/**
 The read side: every malformed-data check of the loaders, and the proof that no
 row the protocol can write ever fails one; each is read back as it was written.
 */
module ShadowReader {
  import opened Wrappers
  import opened ShadowAccess
  import opened ShadowRuns
  import opened ShadowWorld
  import opened ShadowHistory

  /** An observation row as stored: the confirmation is three nullable columns. */
  datatype StoredObservation = StoredObservation(
    key: Key, reason: Reason, runID: int, at: int,
    confirmedReason: Option<Reason>, confirmedRunID: Option<int>, confirmedAt: Option<int>)

  /** A run row as stored: result, counts and finish time are nullable columns. */
  datatype StoredRun = StoredRun(
    id: int, runTrigger: Trigger, requester: Option<int>, fences: Fences, identityCount: int, repositoryCount: int,
    result: Option<Code>, present: Option<int>, unknown: Option<int>, startedAt: int, finishedAt: Option<int>)

  function StoreObservation(key: Key, o: Observation): StoredObservation {
    match o.confirmed
    case Some(c) => StoredObservation(key, o.reason, o.runID, o.at, Some(c.reason), Some(c.runID), Some(c.at))
    case None => StoredObservation(key, o.reason, o.runID, o.at, None, None, None)
  }

  function StoreRun(r: Run): StoredRun {
    StoredRun(
      r.id, r.runTrigger, r.requester, r.fences, r.identityCount, r.repositoryCount, r.result,
      if r.counts.Some? then Some(r.counts.value.present) else None,
      if r.counts.Some? then Some(r.counts.value.unknown) else None, r.startedAt, r.finishedAt)
  }

  // ------------------------------------------------------------- the loaders

  /** None when the loader rejects the row as malformed. */
  function ReadObservation(s: StoredObservation): Option<Observation> {
    if s.key.0 <= 0 || s.key.1 <= 0 || !s.reason.Valid() || s.runID <= 0 then None
    else if s.confirmedReason.Some? != s.confirmedRunID.Some? || s.confirmedReason.Some? != s.confirmedAt.Some? then None
    else if s.reason.Confirmed() && s.confirmedReason.None? then None
    else if s.confirmedReason.None? then Some(Observation(s.reason, s.runID, s.at, None))
    else
      var c := Confirmation(s.confirmedReason.value, s.confirmedRunID.value, s.confirmedAt.value);
      if !c.reason.Confirmed() || c.runID <= 0 then None
      else if s.reason.Confirmed() && (c.reason != s.reason || c.runID != s.runID || c.at != s.at) then None
      else if !s.reason.Confirmed() && c.runID >= s.runID then None
      else Some(Observation(s.reason, s.runID, s.at, Some(c)))
  }

  function ReadRun(s: StoredRun): Option<Run> {
    if s.id <= 0 || s.fences.config <= 0 || s.fences.check <= 0 || s.fences.binding < 0 || s.fences.identity <= 0
       || s.identityCount < 1 || s.identityCount > IDENTITY_LIMIT
       || s.repositoryCount < 1 || s.repositoryCount > REPOSITORY_LIMIT then None
    else if s.result.Some? && (!s.result.value.Valid() || s.finishedAt.None?) then None
    else if s.result.None? && s.finishedAt.Some? then None
    else if s.present.Some? != (s.result == Some(Complete)) || s.unknown.Some? != (s.result == Some(Complete)) then None
    else if s.present.Some? && (s.present.value < 0 || s.unknown.value < 0
                                || s.present.value + s.unknown.value > s.identityCount * s.repositoryCount) then None
    else
      Some(Run(
        s.id, s.runTrigger, s.requester, s.fences, s.identityCount, s.repositoryCount, s.result,
        if s.present.Some? then Some(Counts(s.present.value, s.unknown.value)) else None, s.startedAt, s.finishedAt))
  }

  ghost predicate DistinctStored(rows: seq<StoredObservation>) {
    forall i, j :: 0 <= i < j < |rows| ==> rows[i].key != rows[j].key
  }

  /** Loads a query's rows; a malformed or repeated row fails the whole read. */
  method LoadObservations(rows: seq<StoredObservation>) returns (loaded: Option<map<Key, Observation>>)
    ensures loaded.Some? <==> DistinctStored(rows) && forall i :: 0 <= i < |rows| ==> ReadObservation(rows[i]).Some?
    ensures loaded.Some? ==>
              && (forall i :: 0 <= i < |rows| ==>
                    rows[i].key in loaded.value && ReadObservation(rows[i]) == Some(loaded.value[rows[i].key]))
              && (forall k :: k in loaded.value ==> exists i :: 0 <= i < |rows| && rows[i].key == k)
  {
    var observations: map<Key, Observation> := map[];
    for i := 0 to |rows|
      invariant forall j, k :: 0 <= j < k < i ==> rows[j].key != rows[k].key
      invariant forall j :: 0 <= j < i ==> ReadObservation(rows[j]).Some?
      invariant forall j :: 0 <= j < i ==> rows[j].key in observations && ReadObservation(rows[j]) == Some(observations[rows[j].key])
      invariant forall k :: k in observations ==> exists j :: 0 <= j < i && rows[j].key == k
    {
      var record := ReadObservation(rows[i]);
      if record.None? || rows[i].key in observations { return None; }
      observations := observations[rows[i].key := record.value];
    }
    loaded := Some(observations);
  }

  // ----------------------------------------------------- the writer agrees

  lemma ObservationReadsBack(key: Key, o: Observation)
    requires key.0 > 0 && key.1 > 0 && ObservationReadable(o)
    ensures ReadObservation(StoreObservation(key, o)) == Some(o)
  {
  }

  lemma RunReadsBack(r: Run)
    requires r.id > 0 && RunReadable(r)
    ensures ReadRun(StoreRun(r)) == Some(r)
  {
  }

  /** Whatever the history, the loaders accept every stored row and give back exactly what was written. */
  lemma EverythingWrittenReadsBack(h: History, k: nat)
    requires Legal(h) && k <= |h.ops|
    ensures var db := h.states[k].db;
            && (forall i :: 0 <= i < |db.runs| ==> ReadRun(StoreRun(db.runs[i])) == Some(db.runs[i]))
            && (forall key :: key in db.observations ==>
                  ReadObservation(StoreObservation(key, db.observations[key])) == Some(db.observations[key]))
  {
    AlwaysValid(h, k);
    var db := h.states[k].db;
    forall i | 0 <= i < |db.runs| ensures ReadRun(StoreRun(db.runs[i])) == Some(db.runs[i]) {
      RunReadsBack(db.runs[i]);
    }
    forall key | key in db.observations
      ensures ReadObservation(StoreObservation(key, db.observations[key])) == Some(db.observations[key])
    {
      ObservationReadsBack(key, db.observations[key]);
    }
  }

  // --------------------------------------------------------- derived models

  datatype SnapshotView = SnapshotView(
    runID: int, present: int, absent: int, unknown: int, pairs: int, scopeCurrent: bool, age: int)

  /** The completed-snapshot card; None when the row is malformed. */
  function DeriveSnapshot(db: Db, r: Run, now: int): Option<SnapshotView> {
    if !IsComplete(r) || r.counts.None? || r.finishedAt.None? then None
    else
      var pairs := r.identityCount * r.repositoryCount;
      Some(SnapshotView(
        r.id, r.counts.value.present, pairs - r.counts.value.present - r.counts.value.unknown, r.counts.value.unknown,
        pairs, ScopeCurrent(db, r), Max(0, now - r.finishedAt.value)))
  }

  /** The card of any completed run is well formed and its three counts split the pairs. */
  lemma SnapshotCountsSplit(h: History, k: nat, i: nat, now: int)
    requires Legal(h) && k <= |h.ops| && i < |h.states[k].db.runs| && IsComplete(h.states[k].db.runs[i])
    ensures var view := DeriveSnapshot(h.states[k].db, h.states[k].db.runs[i], now);
            && view.Some? && view.value.present >= 0 && view.value.absent >= 0 && view.value.unknown >= 0
            && view.value.present + view.value.absent + view.value.unknown == view.value.pairs
            && (view.value.scopeCurrent ==> view.value.pairs == |h.states[k].db.identities| * |h.states[k].db.bindings|)
  {
    AlwaysValid(h, k);
  }

  /** The card derives the absent pairs by subtraction. */
  lemma {:induction false} AbsentBySubtraction(db: Db, r: Run, pairs: seq<Pair>, now: int)
    requires IsComplete(r) && r.finishedAt.Some? && r.counts == Some(Counts(CountState(pairs, ConfirmedPresent), CountState(pairs, Unknown)))
    requires |pairs| == r.identityCount * r.repositoryCount
    ensures DeriveSnapshot(db, r, now).Some? && DeriveSnapshot(db, r, now).value.absent == CountState(pairs, ConfirmedAbsent)
  {
    CountsCoverPairs(pairs);
  }

  lemma {:induction false} PairsFillTheRow(r: Run, s: Snapshot, pairs: seq<Pair>)
    requires Matches(r, s) && ValidPairs(Product(s.identities, s.bindings), pairs)
    ensures |pairs| == r.identityCount * r.repositoryCount
  {
    ProductSize(s.identities, s.bindings);
  }

  /** A publication ends its own run, the newest row, with the counts of its pairs. */
  lemma {:induction false} PublicationRow(w: World, op: Op)
    requires Valid(w) && Enabled(w, op) && op.OpFinish? && EventOf(w, op).Publication?
    ensures var after, pairs := Apply(w, op).db, EventOf(w, op).pairs;
            && RunningNow(w.db) && after.runs != [] && Matches(w.db.runs[|w.db.runs| - 1], w.issued[op.runID])
            && w.db.runs[|w.db.runs| - 1].id == op.runID
            && after.runs[|after.runs| - 1] == Ended(w.db.runs[|w.db.runs| - 1], Complete,
                 Some(Counts(CountState(pairs, ConfirmedPresent), CountState(pairs, Unknown))), op.at)
  {
    var s, o := w.issued[op.runID], FinishedObservation(w, op);
    AwaitedIsNewest(w.db, s);
    FinalizeIs(w, s, o, op.at);
    EndedNewest(w.db, FinalCode(w.db, s, o), FinalCounts(w.db, s, o), op.at);
  }

  /** The derived absent count is the number of pairs the run confirmed absent. */
  lemma {:induction false} AbsentCountIsObserved(w: World, op: Op, now: int)
    requires Valid(w) && Enabled(w, op) && op.OpFinish? && EventOf(w, op).Publication?
    ensures var after := Apply(w, op).db;
            && after.runs != [] && after.runs[|after.runs| - 1].id == op.runID
            && DeriveSnapshot(after, after.runs[|after.runs| - 1], now).Some?
            && DeriveSnapshot(after, after.runs[|after.runs| - 1], now).value.absent
               == CountState(EventOf(w, op).pairs, ConfirmedAbsent)
  {
    var s, pairs, after := w.issued[op.runID], EventOf(w, op).pairs, Apply(w, op).db;
    SettledIsSound(s, op.decrypts, op.provider, op.cancelled);
    PublicationRow(w, op);
    PairsFillTheRow(w.db.runs[|w.db.runs| - 1], s, pairs);
    AbsentBySubtraction(after, after.runs[|after.runs| - 1], pairs, now);
  }

  datatype AttemptStatus = AttemptRunning | AttemptInterrupted | AttemptSuperseded | AttemptCompleted | AttemptFailed | OutcomeUnknown

  function AttemptOf(r: Run, now: int): AttemptStatus {
    if Unfinished(r) then (if now - r.startedAt < INTERRUPTION_AGE then AttemptRunning else AttemptInterrupted)
    else if r.result == Some(Interrupted) then AttemptInterrupted
    else if r.result == Some(ScopeChanged) then AttemptSuperseded
    else if IsComplete(r) then AttemptCompleted
    else if r.result.value.Valid() then AttemptFailed
    else OutcomeUnknown
  }

  /**
   The latest attempt never shows an unknown outcome, and reads as running
   exactly while a correctly fenced reservation would be turned away for it.
   */
  lemma RunningLabelMatchesReservation(h: History, k: nat, actor: int, input: RunInput, now: int)
    requires Legal(h) && k <= |h.ops| && h.states[k].db.runs != []
    ensures var db := h.states[k].db;
            var status := AttemptOf(db.runs[|db.runs| - 1], now);
            && status != OutcomeUnknown
            && (status == AttemptRunning ==> !ReserveManual(db, actor, true, input, now).1.Reserved?)
            && (ReserveManual(db, actor, true, input, now).1 == Refused(Running) ==> status == AttemptRunning)
  {
    AlwaysValid(h, k);
    var db := h.states[k].db;
    assert RunReadable(db.runs[|db.runs| - 1]);
  }

  // ------------------------------------------ exactly one classification per pair

  /** How many times an observation classifies a pair. */
  function Occurrences(pairs: seq<Pair>, key: Key): nat {
    if pairs == [] then 0
    else Occurrences(pairs[..|pairs| - 1], key) + if pairs[|pairs| - 1].key == key then 1 else 0
  }

  function Keys(pairs: seq<Pair>): set<Key> { set i | 0 <= i < |pairs| :: pairs[i].key }

  lemma {:induction false} OccurrencesMeaning(pairs: seq<Pair>, key: Key)
    ensures Occurrences(pairs, key) > 0 <==> key in Keys(pairs)
    ensures DistinctKeys(pairs) ==> Occurrences(pairs, key) <= 1
  {
    if pairs != [] {
      var last := |pairs| - 1;
      OccurrencesMeaning(pairs[..last], key);
      assert forall i :: 0 <= i < last ==> pairs[..last][i] == pairs[i];
      if key in Keys(pairs) && pairs[last].key != key {
        var i :| 0 <= i < |pairs| && pairs[i].key == key;
        assert pairs[..last][i].key == key;
      }
    }
  }

  lemma {:induction false} KeysSize(pairs: seq<Pair>)
    ensures |Keys(pairs)| <= |pairs|
    ensures DistinctKeys(pairs) <==> |Keys(pairs)| == |pairs|
  {
    if pairs == [] {
      assert Keys(pairs) == {};
    } else {
      var last := |pairs| - 1;
      KeysSize(pairs[..last]);
      KeysSnoc(pairs);
      if pairs[last].key in Keys(pairs[..last]) {
        assert !DistinctKeys(pairs);
      } else {
        assert DistinctKeys(pairs[..last]) ==> DistinctKeys(pairs);
        assert DistinctKeys(pairs) ==> DistinctKeys(pairs[..last]);
      }
    }
  }

  lemma {:induction false} KeysSnoc(pairs: seq<Pair>)
    requires pairs != []
    ensures Keys(pairs) == Keys(pairs[..|pairs| - 1]) + {pairs[|pairs| - 1].key}
  {
    var last := |pairs| - 1;
    assert forall i :: 0 <= i < last ==> pairs[..last][i] == pairs[i];
  }

  /** The observation check passes exactly when every expected pair is classified once, and no other is. */
  lemma ValidPairsIff(scope: set<Key>, pairs: seq<Pair>)
    ensures ValidPairs(scope, pairs)
       <==> (forall i :: 0 <= i < |pairs| ==> pairs[i].reason.Valid())
            && forall key :: Occurrences(pairs, key) == if key in scope then 1 else 0
  {
    forall key ensures (Occurrences(pairs, key) > 0 <==> key in Keys(pairs)) && (DistinctKeys(pairs) ==> Occurrences(pairs, key) <= 1) {
      OccurrencesMeaning(pairs, key);
    }
    KeysSize(pairs);
    if ValidPairs(scope, pairs) {
      assert Keys(pairs) <= scope;
      SubsetOfSameSize(Keys(pairs), scope);
    }
    if forall key :: Occurrences(pairs, key) == if key in scope then 1 else 0 {
      assert Keys(pairs) == scope;
      OnceMeansDistinct(pairs);
      forall i | 0 <= i < |pairs| ensures pairs[i].key in scope { assert pairs[i].key in Keys(pairs); }
    }
  }

  lemma {:induction false} OnceMeansDistinct(pairs: seq<Pair>)
    requires forall key :: Occurrences(pairs, key) <= 1
    ensures DistinctKeys(pairs)
  {
    if pairs != [] {
      var last := |pairs| - 1;
      forall key ensures Occurrences(pairs[..last], key) <= 1 { assert Occurrences(pairs, key) <= 1; }
      OnceMeansDistinct(pairs[..last]);
      forall i, j | 0 <= i < j < |pairs| ensures pairs[i].key != pairs[j].key {
        if j == last {
          OccurrencesMeaning(pairs[..last], pairs[last].key);
          assert Occurrences(pairs, pairs[last].key) <= 1;
          assert pairs[..last][i] == pairs[i];
        } else {
          assert pairs[..last][i] == pairs[i] && pairs[..last][j] == pairs[j];
        }
      }
    }
  }

  lemma {:induction false} EveryPairHasAReason(scope: set<Key>, pairs: seq<Pair>, key: Key)
    requires ValidPairs(scope, pairs) && key in scope
    ensures ReasonFor(pairs, key).Some?
  {
    ValidPairsIff(scope, pairs);
    assert Occurrences(pairs, key) == 1;
    OccurrencesMeaning(pairs, key);
    ReasonForMeaning(pairs, key);
  }

  lemma {:induction false} PublicationWrites(w: World, op: Op, key: Key)
    requires Valid(w) && Enabled(w, op) && op.OpFinish? && EventOf(w, op).Publication?
    requires key in Product(w.db.identities, w.db.bindings)
    ensures Classifies(EventOf(w, op), key).Some?
  {
    var s := w.issued[op.runID];
    SettledIsSound(s, op.decrypts, op.provider, op.cancelled);
    EveryPairHasAReason(Product(s.identities, s.bindings), FinishedObservation(w, op).pairs, key);
  }

  lemma {:induction false} PublicationKeepsScope(w: World, op: Op)
    requires Valid(w) && Enabled(w, op) && op.OpFinish?
    ensures Apply(w, op).db.identities == w.db.identities && Apply(w, op).db.bindings == w.db.bindings
    ensures ValidObservations(Apply(w, op).db)
  {
    StepKeepsValid(w, op);
    FinishKeepsScope(w.db, w.issued[op.runID], FinishedObservation(w, op), op.at);
  }

  lemma {:induction false} PublicationStamps(w: World, op: Op, key: Key)
    requires Valid(w) && Enabled(w, op) && op.OpFinish? && EventOf(w, op).Publication?
    requires key in Product(w.db.identities, w.db.bindings)
    ensures var after := Apply(w, op).db.observations;
            key in after && after[key].runID == op.runID && after[key].at == op.at
  {
    PublicationWrites(w, op, key);
    PublicationFolds(w, op, key);
    assert Get(Apply(w, op).db.observations, key).Some?;
  }

  /**
   A publication passed the scope check, so it covers today's scope exactly:
   afterwards the stored pairs are the linked identities times the bound
   repositories, and every one of them carries this run.
   */
  lemma {:induction false} PublicationCoversScope(w: World, op: Op)
    requires Valid(w) && Enabled(w, op) && op.OpFinish? && EventOf(w, op).Publication?
    ensures var after := Apply(w, op).db;
            && after.identities == w.db.identities && after.bindings == w.db.bindings
            && after.observations.Keys == Product(after.identities, after.bindings)
            && (forall key :: key in after.observations ==>
                  after.observations[key].runID == op.runID && after.observations[key].at == op.at)
  {
    var after := Apply(w, op).db;
    PublicationKeepsScope(w, op);
    forall key | key in Product(w.db.identities, w.db.bindings)
      ensures key in after.observations && after.observations[key].runID == op.runID && after.observations[key].at == op.at
    {
      PublicationStamps(w, op, key);
    }
  }
}
