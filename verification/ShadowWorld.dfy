/**
 All interleavings of the shadow protocol: workers holding snapshots, lost
 workers, periodic scans, identity and binding changes. What every step keeps.
 */
module ShadowWorld {
  import opened Wrappers
  import opened ShadowAccess
  import opened ShadowRuns

  /** The tables, and every snapshot ever handed to a worker. */
  datatype World = World(db: Db, issued: map<int, Snapshot>)

  datatype Op =
    | OpManual(actor: int, authorized: bool, input: RunInput, now: int)
    | OpScan(encryption: bool, fault: Fault, now: int, started: int)
    | OpFinish(runID: int, decrypts: bool, provider: AccessObservation, cancelled: bool, now: int, at: int)
    | OpEnable(authorized: bool, encryption: bool, enable: EnableInput, now: int)
    | OpDisable(authorized: bool, revision: int, confirm: bool)
    | OpLink
    | OpUnlink(identity: int)
    | OpBind(repository: int)
    | OpUnbind(repository: int)
    | OpReconfigure(config: int, check: int, evidence: bool)

  function Issue(w: World, result: (Db, Reservation)): World {
    World(result.0, if result.1.Reserved? then w.issued[result.1.snapshot.runID := result.1.snapshot] else w.issued)
  }

  function FinishedObservation(w: World, op: Op): AccessObservation
    requires op.OpFinish? && op.runID in w.issued
  {
    Settled(w.issued[op.runID], op.decrypts, op.provider, op.cancelled)
  }

  function Apply(w: World, op: Op): World {
    match op
    case OpManual(actor, authorized, input, now) => Issue(w, ReserveManual(w.db, actor, authorized, input, now))
    case OpScan(encryption, fault, now, started) => Issue(w, PeriodicScan(w.db, encryption, fault, now, started))
    case OpFinish(runID, _, _, _, _, at) =>
      if runID in w.issued then w.(db := Finalize(w.db, w.issued[runID], FinishedObservation(w, op), at).0) else w
    case OpEnable(authorized, encryption, input, now) => w.(db := EnablePeriodic(w.db, authorized, encryption, input, now).0)
    case OpDisable(authorized, revision, confirm) => w.(db := DisablePeriodic(w.db, authorized, revision, confirm).0)
    case OpLink => w.(db := Link(w.db).0)
    case OpUnlink(identity) => w.(db := Unlink(w.db, identity).0)
    case OpBind(repository) => w.(db := Bind(w.db, repository).0)
    case OpUnbind(repository) => w.(db := Unbind(w.db, repository).0)
    case OpReconfigure(config, check, evidence) =>
      w.(db := w.db.(fences := w.db.fences.(config := config, check := check), evidence := evidence))
  }

  /**
   A finishing step uses the finish instant the code computes; reconfiguring
   stands for edits and setup checks, which only raise the two counters, and
   evidence is current only for a check that was taken.
   */
  ghost predicate Enabled(w: World, op: Op) {
    match op
    case OpFinish(runID, _, _, _, now, at) =>
      && runID in w.issued
      && FinishTime(w.db, w.issued[runID].startedAt,
                    FinalCode(w.db, w.issued[runID], FinishedObservation(w, op)) == Complete, now, at)
    case OpReconfigure(config, check, evidence) =>
      config >= w.db.fences.config && check >= w.db.fences.check && (evidence ==> check > 0)
    case _ => true
  }

  // ------------------------------------------------------------- the invariant

  ghost predicate RunReadable(r: Run) {
    && r.fences.config > 0 && r.fences.check > 0 && r.fences.binding >= 0 && r.fences.identity > 0
    && 1 <= r.identityCount <= IDENTITY_LIMIT && 1 <= r.repositoryCount <= REPOSITORY_LIMIT
    && r.identityCount * r.repositoryCount <= PAIR_LIMIT
    && (r.result.Some? <==> r.finishedAt.Some?)
    && (r.result.Some? ==> r.result.value.Valid() && r.finishedAt.value >= r.startedAt)
    && (r.counts.Some? <==> IsComplete(r))
    && (r.counts.Some? ==> r.counts.value.present + r.counts.value.unknown <= r.identityCount * r.repositoryCount)
    && (r.runTrigger == Periodic ==> r.requester.None?)
  }

  ghost predicate ObservationReadable(o: Observation) {
    && o.reason.Valid() && o.runID > 0
    && (o.reason.Confirmed() ==> o.confirmed == Some(Confirmation(o.reason, o.runID, o.at)))
    && (o.confirmed.Some? ==>
          && o.confirmed.value.reason.Confirmed() && o.confirmed.value.reason.Valid()
          && o.confirmed.value.runID > 0 && o.confirmed.value.at <= o.at
          && (!o.reason.Confirmed() ==> o.confirmed.value.runID < o.runID))
  }

  ghost predicate ValidRuns(db: Db) {
    && Shape(db.runs) && db.lastRunID >= 0
    && (forall i :: 0 <= i < |db.runs| ==> db.runs[i].id <= db.lastRunID && RunReadable(db.runs[i]))
  }

  ghost predicate ValidScope(db: Db) {
    && db.lastIdentityID >= 0 && (forall i :: i in db.identities ==> 0 < i <= db.lastIdentityID)
    && (forall b :: b in db.bindings ==> b > 0)
    && db.fences.config > 0 && db.fences.check >= 0
    && 0 <= db.fences.binding <= MAX_INT64 && 0 <= db.fences.identity <= MAX_INT64
    && (db.identities != {} ==> db.fences.identity > 0) && (db.evidence ==> db.fences.check > 0)
    && (db.periodic.Some? ==> 0 < db.periodic.value.revision <= MAX_INT64)
  }

  ghost predicate ValidObservations(db: Db) {
    forall k :: k in db.observations ==>
      && k.0 in db.identities && k.1 in db.bindings && ObservationReadable(db.observations[k])
      && db.observations[k].runID <= db.lastRunID && (RunningNow(db) ==> db.observations[k].runID < NewestID(db))
  }

  /** The row a snapshot was cut from, while it is still there. */
  ghost predicate Matches(r: Run, s: Snapshot) {
    && r.runTrigger == s.runTrigger && r.startedAt == s.startedAt && r.fences == s.fences
    && r.identityCount == |s.identities| && r.repositoryCount == |s.bindings|
  }

  ghost predicate ValidIssued(w: World) {
    forall id :: id in w.issued ==>
      && w.issued[id].runID == id && 0 < id <= w.db.lastRunID
      && (forall i :: 0 <= i < |w.db.runs| && w.db.runs[i].id == id ==> Matches(w.db.runs[i], w.issued[id]))
  }

  ghost predicate Valid(w: World) {
    ValidRuns(w.db) && ValidScope(w.db) && ValidObservations(w.db) && ValidIssued(w)
  }

  // ---------------------------------------------------- pairs and publication

  lemma {:induction false} CountsCoverPairs(pairs: seq<Pair>)
    ensures CountState(pairs, ConfirmedPresent) + CountState(pairs, ConfirmedAbsent) + CountState(pairs, Unknown) == |pairs|
  {
    if pairs != [] { CountsCoverPairs(pairs[..|pairs| - 1]); }
  }

  lemma {:induction false} ProductSize<A, B>(first: set<A>, second: set<B>)
    ensures |Product(first, second)| == |first| * |second|
    decreases first
  {
    if first == {} {
      assert Product(first, second) == {};
    } else {
      var a :| a in first;
      ProductSize(first - {a}, second);
      RowSize(a, second);
      ProductSplits(first, a, second);
      assert |first| * |second| == (|first| - 1) * |second| + |second|;
    }
  }

  lemma ProductSplits<A, B>(first: set<A>, a: A, second: set<B>)
    requires a in first
    ensures |Product(first, second)| == |Product(first - {a}, second)| + |Product({a}, second)|
  {
    assert Product(first, second) == Product(first - {a}, second) + Product({a}, second);
    assert Product(first - {a}, second) !! Product({a}, second);
  }

  lemma {:induction false} RowSize<A, B>(a: A, second: set<B>)
    ensures |Product({a}, second)| == |second|
    decreases second
  {
    if second == {} {
      assert Product({a}, second) == {};
    } else {
      var b :| b in second;
      RowSize(a, second - {b});
      assert Product({a}, second) == Product({a}, second - {b}) + {(a, b)};
    }
  }

  function ReasonFor(pairs: seq<Pair>, key: Key): Option<Reason> {
    if pairs == [] then None
    else if pairs[|pairs| - 1].key == key then Some(pairs[|pairs| - 1].reason)
    else ReasonFor(pairs[..|pairs| - 1], key)
  }

  lemma {:induction false} ReasonForMeaning(pairs: seq<Pair>, key: Key)
    ensures ReasonFor(pairs, key).Some? ==> exists i :: 0 <= i < |pairs| && pairs[i] == Pair(key, ReasonFor(pairs, key).value)
    ensures ReasonFor(pairs, key).None? ==> forall i :: 0 <= i < |pairs| ==> pairs[i].key != key
  {
    if pairs != [] { ReasonForMeaning(pairs[..|pairs| - 1], key); }
  }

  /** Publishing writes each classified pair once and leaves the others alone. */
  lemma {:induction false} PublishedAt(observations: map<Key, Observation>, pairs: seq<Pair>, runID: int, at: int, key: Key)
    requires DistinctKeys(pairs)
    ensures Get(Published(observations, pairs, runID, at), key)
         == match ReasonFor(pairs, key)
            case Some(reason) => Some(Upserted(Get(observations, key), reason, runID, at))
            case None => Get(observations, key)
  {
    if pairs != [] {
      var last := |pairs| - 1;
      PublishedAt(observations, pairs[..last], runID, at, key);
      if pairs[last].key == key { ReasonForMeaning(pairs[..last], key); }
    }
  }

  lemma UpsertedReadable(before: Option<Observation>, reason: Reason, runID: int, at: int)
    requires reason.Valid() && runID > 0
    requires before.Some? ==> ObservationReadable(before.value) && before.value.runID < runID && before.value.at <= at
    ensures ObservationReadable(Upserted(before, reason, runID, at))
  {
  }

  lemma SettledIsSound(s: Snapshot, decrypts: bool, o: AccessObservation, cancelled: bool)
    ensures var settled := Settled(s, decrypts, o, cancelled);
            && settled.code.Valid()
            && (settled.code == Complete ==> ValidPairs(Product(s.identities, s.bindings), settled.pairs))
  {
  }

  // -------------------------------------------------------------- kept by steps

  lemma FencesKeepRuns(w: World, db: Db)
    requires Valid(w) && db.runs == w.db.runs && db.lastRunID == w.db.lastRunID
    ensures ValidRuns(db) && ValidIssued(w.(db := db)) && RunningNow(db) == RunningNow(w.db) && NewestID(db) == NewestID(w.db)
  {
  }

  /** The result a finishing transaction may write on the running row. */
  ghost predicate FitsRow(r: Run, code: Code, counts: Option<Counts>, at: int) {
    && code.Valid() && at >= r.startedAt && (counts.Some? <==> code == Complete)
    && (counts.Some? ==> counts.value.present + counts.value.unknown <= r.identityCount * r.repositoryCount)
  }

  /** The rows once the running one is ended and retention applied. */
  function EndedAfter(db: Db, code: Code, counts: Option<Counts>, at: int): seq<Run>
    requires RunningNow(db)
  {
    AfterEnding(Terminals(db.runs), Ended(db.runs[|db.runs| - 1], code, counts, at))
  }

  lemma {:induction false} EndedValid(db: Db, code: Code, counts: Option<Counts>, at: int)
    requires ValidRuns(db) && RunningNow(db) && FitsRow(db.runs[|db.runs| - 1], code, counts, at)
    ensures ValidRuns(db.(runs := EndedAfter(db, code, counts, at)))
    ensures forall j :: 0 <= j < |EndedAfter(db, code, counts, at)| ==> KeptFrom(db.runs, EndedAfter(db, code, counts, at)[j])
  {
    EndedReadable(db.runs, code, counts, at);
    EndedIDs(db, EndedAfter(db, code, counts, at));
  }

  lemma {:induction false} EndedIsRetained(db: Db, code: Code, counts: Option<Counts>, at: int)
    requires ValidRuns(db) && RunningNow(db)
    ensures EndedAfter(db, code, counts, at) == Retained(EndRun(db.runs, NewestID(db), code, counts, at))
  {
    EndingKeeps(db.runs, code, counts, at);
  }

  lemma {:induction false} EndedNewest(db: Db, code: Code, counts: Option<Counts>, at: int)
    requires ValidRuns(db) && RunningNow(db)
    ensures var after := EndedAfter(db, code, counts, at);
            && after != [] && after[|after| - 1] == Ended(db.runs[|db.runs| - 1], code, counts, at)
            && LastComplete(after) == if code == Complete then NewestID(db) else LastComplete(db.runs)
  {
    EndedShape(db.runs, Ended(db.runs[|db.runs| - 1], code, counts, at));
  }

  lemma {:induction false} EndedLast(db: Db, code: Code, counts: Option<Counts>, at: int)
    requires ValidRuns(db) && RunningNow(db)
    ensures var after := EndedAfter(db, code, counts, at);
            && after == Retained(EndRun(db.runs, NewestID(db), code, counts, at))
            && !RunningNow(db.(runs := after)) && NewestID(db.(runs := after)) == NewestID(db)
            && LastComplete(after) == if code == Complete then NewestID(db) else LastComplete(db.runs)
  {
    EndedIsRetained(db, code, counts, at);
    EndedNewest(db, code, counts, at);
  }

  lemma RecoveredRows(db: Db, now: int)
    requires ValidRuns(db)
    ensures ValidRuns(Recovered(db, now))
    ensures forall j :: 0 <= j < |Recovered(db, now).runs| ==> KeptFrom(db.runs, Recovered(db, now).runs[j])
  {
    if RunningNow(db) {
      var at := Max(now, db.runs[|db.runs| - 1].startedAt);
      EndedValid(db, Interrupted, None, at);
      EndedLast(db, Interrupted, None, at);
    } else {
      forall j | 0 <= j < |db.runs| ensures KeptFrom(db.runs, db.runs[j]) { KeepsItself(db.runs, j); }
    }
  }

  lemma {:induction false} KeepsItself(runs: seq<Run>, j: nat)
    requires j < |runs|
    ensures KeptFrom(runs, runs[j])
  {
    assert runs[j] == runs[j].(result := runs[j].result, counts := runs[j].counts, finishedAt := runs[j].finishedAt);
  }

  lemma {:induction false} EndedIDs(db: Db, after: seq<Run>)
    requires ValidRuns(db) && forall j :: 0 <= j < |after| ==> KeptFrom(db.runs, after[j])
    ensures forall j :: 0 <= j < |after| ==> after[j].id <= db.lastRunID
  {
    forall j | 0 <= j < |after| ensures after[j].id <= db.lastRunID {
      var i :| 0 <= i < |db.runs|
        && after[j] == db.runs[i].(result := after[j].result, counts := after[j].counts, finishedAt := after[j].finishedAt);
    }
  }

  /** Rows after ending the running one: kept rows, or that row with its result. */
  lemma {:induction false} EndedReadable(runs: seq<Run>, code: Code, counts: Option<Counts>, at: int)
    requires Shape(runs) && runs != [] && Unfinished(runs[|runs| - 1])
    requires forall i :: 0 <= i < |runs| ==> RunReadable(runs[i])
    requires code.Valid() && at >= runs[|runs| - 1].startedAt && (counts.Some? <==> code == Complete)
    requires counts.Some? ==> counts.value.present + counts.value.unknown
                              <= runs[|runs| - 1].identityCount * runs[|runs| - 1].repositoryCount
    ensures var after := AfterEnding(Terminals(runs), Ended(runs[|runs| - 1], code, counts, at));
            && Shape(after)
            && (forall j :: 0 <= j < |after| ==> RunReadable(after[j]) && KeptFrom(runs, after[j]))
  {
    var r := Ended(runs[|runs| - 1], code, counts, at);
    EndedShape(runs, r);
    assert RunReadable(r) && KeptFrom(runs, r);
    if |runs| > 1 { assert Terminals(runs)[0] == runs[0] && KeptFrom(runs, runs[0]); }
  }

  /** Same run, up to its result. */
  ghost predicate KeptFrom(runs: seq<Run>, r: Run) {
    exists i :: 0 <= i < |runs| && r == runs[i].(result := r.result, counts := r.counts, finishedAt := r.finishedAt)
  }

  lemma {:induction false} KeptMatches(runs: seq<Run>, after: seq<Run>, s: Snapshot)
    requires forall j :: 0 <= j < |after| ==> KeptFrom(runs, after[j])
    requires forall i :: 0 <= i < |runs| && runs[i].id == s.runID ==> Matches(runs[i], s)
    ensures forall j :: 0 <= j < |after| && after[j].id == s.runID ==> Matches(after[j], s)
  {
    forall j | 0 <= j < |after| && after[j].id == s.runID ensures Matches(after[j], s) {
      var i :| 0 <= i < |runs|
        && after[j] == runs[i].(result := after[j].result, counts := after[j].counts, finishedAt := after[j].finishedAt);
    }
  }

  // ------------------------------------------------------------ reservations

  lemma {:induction false} AppendKeepsValid(db: Db, row: Run)
    requires ValidRuns(db) && !RunningNow(db) && row.id == db.lastRunID + 1 && Unfinished(row) && RunReadable(row)
    ensures ValidRuns(db.(runs := db.runs + [row], lastRunID := db.lastRunID + 1))
  {
    AppendShape(db.runs, row);
  }

  lemma {:induction false} AppendKeepsComplete(runs: seq<Run>, row: Run)
    requires Unfinished(row)
    ensures LastComplete(runs + [row]) == LastComplete(runs)
  {
    assert (runs + [row])[..|runs|] == runs;
  }

  lemma {:induction false} InsertedRuns(db: Db, runTrigger: Trigger, requester: Option<int>, startedAt: int)
    requires ValidRuns(db) && ValidScope(db) && !RunningNow(db) && !Blocked(db, true)
    requires runTrigger == Periodic ==> requester.None?
    ensures ValidRuns(Inserted(db, runTrigger, requester, startedAt))
    ensures LastComplete(Inserted(db, runTrigger, requester, startedAt).runs) == LastComplete(db.runs)
  {
    var row := NewRun(db, runTrigger, requester, startedAt);
    ReservedReadable(db, runTrigger, requester, startedAt);
    AppendKeepsValid(db, row);
    AppendKeepsComplete(db.runs, row);
  }

  lemma ReservedReadable(db: Db, runTrigger: Trigger, requester: Option<int>, startedAt: int)
    requires ValidScope(db) && !Blocked(db, true) && (runTrigger == Periodic ==> requester.None?)
    ensures RunReadable(NewRun(db, runTrigger, requester, startedAt))
  {
  }

  lemma InsertedIssued(w: World, runTrigger: Trigger, requester: Option<int>, startedAt: int)
    requires ValidIssued(w) && ValidRuns(w.db) && w.db.lastRunID >= 0
    ensures var s := SnapshotOf(w.db, runTrigger, startedAt);
            ValidIssued(World(Inserted(w.db, runTrigger, requester, startedAt), w.issued[s.runID := s]))
  {
  }

  lemma InsertedRest(db: Db, ready: Db, runTrigger: Trigger, requester: Option<int>, startedAt: int)
    requires ValidScope(db) && ValidObservations(db) && ready == db.(runs := ready.runs) && ValidRuns(ready)
    ensures ValidScope(Inserted(ready, runTrigger, requester, startedAt))
    ensures ValidObservations(Inserted(ready, runTrigger, requester, startedAt))
    ensures Blocked(db, true) == Blocked(ready, true) && ValidScope(ready)
  {
  }

  /** A reservation's run table, and the snapshot handed out with it. */
  function ReservedWorld(w: World, now: int, runTrigger: Trigger, requester: Option<int>, startedAt: int): World {
    var ready := Recovered(w.db, now);
    var s := SnapshotOf(ready, runTrigger, startedAt);
    World(Inserted(ready, runTrigger, requester, startedAt), w.issued[s.runID := s])
  }

  /** Same run rows, same sequence, same snapshots. */
  ghost predicate SameRuns(a: World, b: World) {
    a.db.runs == b.db.runs && a.db.lastRunID == b.db.lastRunID && a.issued == b.issued
  }

  lemma {:induction false} ManualIs(w: World, actor: int, authorized: bool, input: RunInput, now: int)
    ensures var after := Issue(w, ReserveManual(w.db, actor, authorized, input, now));
            if ManualRefusal(w.db, authorized, input, now).None?
            then after == ReservedWorld(w, now, Manual, Some(actor), now) else after == w
  {
  }

  /** A scan reserves, or leaves the runs alone; the due time apart, nothing else changes. */
  lemma {:induction false} ScanIs(w: World, encryption: bool, fault: Fault, now: int, started: int)
    ensures var result := PeriodicScan(w.db, encryption, fault, now, started);
            var after := Issue(w, result);
            if result.1.Reserved?
            then !Blocked(w.db, encryption)
                 && after == ReservedWorld(w, now, Periodic, None, Max(started, now)).(db := SetDue(
                      ReservedWorld(w, now, Periodic, None, Max(started, now)).db, Max(started, now) + CADENCE))
            else after == w || after == w.(db := SetDue(w.db, now + CADENCE))
  {
  }

  lemma {:induction false} SetDueKeepsRuns(db: Db, due: int)
    ensures SetDue(db, due).runs == db.runs && SetDue(db, due).lastRunID == db.lastRunID
  {
  }

  lemma {:induction false} ManualRuns(w: World, op: Op)
    requires op.OpManual?
    ensures SameRuns(Apply(w, op), w) || SameRuns(Apply(w, op), ReservedWorld(w, op.now, Manual, Some(op.actor), op.now))
  {
    ManualIs(w, op.actor, op.authorized, op.input, op.now);
  }

  lemma {:induction false} ScanRuns(w: World, op: Op)
    requires op.OpScan?
    ensures SameRuns(Apply(w, op), w)
         || SameRuns(Apply(w, op), ReservedWorld(w, op.now, Periodic, None, Max(op.started, op.now)))
  {
    ScanIs(w, op.encryption, op.fault, op.now, op.started);
    SetDueKeepsRuns(w.db, op.now + CADENCE);
    SetDueKeepsRuns(ReservedWorld(w, op.now, Periodic, None, Max(op.started, op.now)).db, Max(op.started, op.now) + CADENCE);
  }

  /** What every successful reservation does to a valid world. */
  lemma {:induction false} ReserveKeepsValid(w: World, now: int, runTrigger: Trigger, requester: Option<int>, startedAt: int)
    requires Valid(w) && !Blocked(w.db, true) && (runTrigger == Periodic ==> requester.None?)
    ensures Valid(ReservedWorld(w, now, runTrigger, requester, startedAt))
    ensures LastComplete(ReservedWorld(w, now, runTrigger, requester, startedAt).db.runs) == LastComplete(w.db.runs)
  {
    var ready := Recovered(w.db, now);
    RecoveredRows(w.db, now);
    RecoveredShape(w.db, now);
    RecoveredIssued(w, now);
    InsertedRest(w.db, ready, runTrigger, requester, startedAt);
    InsertedRuns(ready, runTrigger, requester, startedAt);
    InsertedIssued(w.(db := ready), runTrigger, requester, startedAt);
  }

  lemma RecoveredIssued(w: World, now: int)
    requires Valid(w)
    ensures ValidIssued(w.(db := Recovered(w.db, now)))
  {
    RecoveredRows(w.db, now);
    EndedIssued(w, Recovered(w.db, now).runs);
  }

  lemma {:induction false} ManualKeepsValid(w: World, actor: int, authorized: bool, input: RunInput, now: int)
    requires Valid(w)
    ensures Valid(Issue(w, ReserveManual(w.db, actor, authorized, input, now)))
    ensures LastComplete(Issue(w, ReserveManual(w.db, actor, authorized, input, now)).db.runs) == LastComplete(w.db.runs)
  {
    ManualIs(w, actor, authorized, input, now);
    if ManualRefusal(w.db, authorized, input, now).None? {
      ManualUnblocked(w.db, authorized, input, now);
      ReserveKeepsValid(w, now, Manual, Some(actor), now);
    }
  }

  lemma {:induction false} ManualUnblocked(db: Db, authorized: bool, input: RunInput, now: int)
    requires ManualRefusal(db, authorized, input, now).None?
    ensures !Blocked(db, true)
  {
  }

  lemma SetDueKeepsValid(w: World, due: int)
    requires Valid(w)
    ensures Valid(w.(db := SetDue(w.db, due)))
  {
  }

  lemma {:induction false} ScanKeepsValid(w: World, encryption: bool, fault: Fault, now: int, started: int)
    requires Valid(w)
    ensures Valid(Issue(w, PeriodicScan(w.db, encryption, fault, now, started)))
    ensures LastComplete(Issue(w, PeriodicScan(w.db, encryption, fault, now, started)).db.runs) == LastComplete(w.db.runs)
  {
    var startedAt := Max(started, now);
    ScanIs(w, encryption, fault, now, started);
    SetDueKeepsValid(w, now + CADENCE);
    SetDueKeepsRuns(w.db, now + CADENCE);
    if PeriodicScan(w.db, encryption, fault, now, started).1.Reserved? {
      var reserved := ReservedWorld(w, now, Periodic, None, startedAt);
      ReserveKeepsValid(w, now, Periodic, None, startedAt);
      SetDueKeepsValid(reserved, startedAt + CADENCE);
      SetDueKeepsRuns(reserved.db, startedAt + CADENCE);
    }
  }

  // ------------------------------------------------------------ finalization

  /** Publishing under the newest run keeps every stored row readable. */
  lemma PublishKeepsReadable(db: Db, pairs: seq<Pair>, runID: int, at: int)
    requires ValidObservations(db) && ValidRuns(db) && RunningNow(db) && NewestID(db) == runID
    requires ValidPairs(Product(db.identities, db.bindings), pairs)
    requires forall k :: k in db.observations ==> db.observations[k].at <= at
    ensures forall k :: k in Published(db.observations, pairs, runID, at) ==>
              && k.0 in db.identities && k.1 in db.bindings
              && ObservationReadable(Published(db.observations, pairs, runID, at)[k])
              && Published(db.observations, pairs, runID, at)[k].runID <= runID
  {
    var after := Published(db.observations, pairs, runID, at);
    forall k | k in after
      ensures k.0 in db.identities && k.1 in db.bindings && ObservationReadable(after[k]) && after[k].runID <= runID
    {
      PublishedAt(db.observations, pairs, runID, at, k);
      ReasonForMeaning(pairs, k);
      if ReasonFor(pairs, k).Some? {
        UpsertedReadable(Get(db.observations, k), ReasonFor(pairs, k).value, runID, at);
      }
    }
  }

  /** The counts a finishing run writes fit its row. */
  lemma FinalCountsFit(db: Db, s: Snapshot, o: AccessObservation, at: int)
    requires RunningNow(db) && Matches(db.runs[|db.runs| - 1], s) && at >= s.startedAt && o.code.Valid()
    requires o.code == Complete ==> ValidPairs(Product(s.identities, s.bindings), o.pairs)
    ensures FitsRow(db.runs[|db.runs| - 1], FinalCode(db, s, o), FinalCounts(db, s, o), at)
  {
    CountsCoverPairs(o.pairs);
    ProductSize(s.identities, s.bindings);
  }

  function FinalCounts(db: Db, s: Snapshot, o: AccessObservation): Option<Counts> {
    if FinalCode(db, s, o) == Complete
    then Some(Counts(CountState(o.pairs, ConfirmedPresent), CountState(o.pairs, Unknown))) else None
  }

  function FinalObservations(db: Db, s: Snapshot, o: AccessObservation, at: int): map<Key, Observation> {
    if FinalCode(db, s, o) == Complete then Published(db.observations, o.pairs, s.runID, at) else db.observations
  }

  /** Finalizing an awaited run touches the newest row, the observations and the due time, and nothing else. */
  lemma FinalizeIs(w: World, s: Snapshot, o: AccessObservation, at: int)
    requires ValidRuns(w.db) && Awaited(w.db, s)
    ensures RunningNow(w.db) && NewestID(w.db) == s.runID
    ensures var code, counts := FinalCode(w.db, s, o), FinalCounts(w.db, s, o);
            var after := Finalize(w.db, s, o, at).0;
            after == w.db.(runs := EndedAfter(w.db, code, counts, at),
                           observations := FinalObservations(w.db, s, o, at), periodic := after.periodic)
    ensures var after := Finalize(w.db, s, o, at).0;
            && (after.periodic.Some? <==> w.db.periodic.Some?)
            && (after.periodic.Some? ==> after.periodic.value.revision == w.db.periodic.value.revision)
  {
    AwaitedIsNewest(w.db, s);
    EndedLast(w.db, FinalCode(w.db, s, o), FinalCounts(w.db, s, o), at);
  }

  lemma {:induction false} FinishKeepsValid(w: World, runID: int, o: AccessObservation, now: int, at: int)
    requires Valid(w) && runID in w.issued
    requires o.code.Valid()
    requires o.code == Complete ==> ValidPairs(Product(w.issued[runID].identities, w.issued[runID].bindings), o.pairs)
    requires FinishTime(w.db, w.issued[runID].startedAt, FinalCode(w.db, w.issued[runID], o) == Complete, now, at)
    ensures Valid(w.(db := Finalize(w.db, w.issued[runID], o, at).0))
  {
    var db, s := w.db, w.issued[runID];
    if Awaited(db, s) {
      FinalizeIs(w, s, o, at);
      AwaitedIsNewest(db, s);
      assert Matches(db.runs[|db.runs| - 1], s);
      FinalCountsFit(db, s, o, at);
      EndedValid(db, FinalCode(db, s, o), FinalCounts(db, s, o), at);
      EndedLast(db, FinalCode(db, s, o), FinalCounts(db, s, o), at);
      FinishedParts(w, s, o, at);
    }
  }

  lemma {:induction false} FinishedParts(w: World, s: Snapshot, o: AccessObservation, at: int)
    requires Valid(w) && Awaited(w.db, s) && RunningNow(w.db) && NewestID(w.db) == s.runID
    requires FinalCode(w.db, s, o) == Complete ==> ValidPairs(Product(s.identities, s.bindings), o.pairs)
    requires FinalCode(w.db, s, o) == Complete ==> forall k :: k in w.db.observations ==> w.db.observations[k].at <= at
    requires var after := EndedAfter(w.db, FinalCode(w.db, s, o), FinalCounts(w.db, s, o), at);
             && ValidRuns(w.db.(runs := after)) && !RunningNow(w.db.(runs := after))
             && forall j :: 0 <= j < |after| ==> KeptFrom(w.db.runs, after[j])
    ensures Valid(w.(db := Finalize(w.db, s, o, at).0))
  {
    FinalizeIs(w, s, o, at);
    if FinalCode(w.db, s, o) == Complete { PublishKeepsReadable(w.db, o.pairs, s.runID, at); }
    EndedIssued(w, EndedAfter(w.db, FinalCode(w.db, s, o), FinalCounts(w.db, s, o), at));
  }

  lemma {:induction false} EndedIssued(w: World, after: seq<Run>)
    requires Valid(w) && forall j :: 0 <= j < |after| ==> KeptFrom(w.db.runs, after[j])
    ensures ValidIssued(w.(db := w.db.(runs := after)))
  {
    forall id | id in w.issued
      ensures forall i :: 0 <= i < |after| && after[i].id == id ==> Matches(after[i], w.issued[id])
    {
      KeptMatches(w.db.runs, after, w.issued[id]);
    }
  }

  // ------------------------------------------------------------- every step

  /** Every step keeps the tables valid. */
  lemma {:induction false} StepKeepsValid(w: World, op: Op)
    requires Valid(w) && Enabled(w, op)
    ensures Valid(Apply(w, op))
  {
    match op
    case OpManual(actor, authorized, input, now) => ManualKeepsValid(w, actor, authorized, input, now);
    case OpScan(encryption, fault, now, started) => ScanKeepsValid(w, encryption, fault, now, started);
    case OpFinish(runID, decrypts, provider, cancelled, now, at) =>
      SettledIsSound(w.issued[runID], decrypts, provider, cancelled);
      FinishKeepsValid(w, runID, FinishedObservation(w, op), now, at);
    case _ => ChangeKeepsValid(w, op);
  }

  lemma ScheduleKeepsValid(w: World, periodic: Option<Schedule>)
    requires Valid(w) && (periodic.Some? ==> 0 < periodic.value.revision <= MAX_INT64)
    ensures Valid(w.(db := w.db.(periodic := periodic)))
  {
  }

  lemma {:induction false} EnableKeepsValid(w: World, authorized: bool, encryption: bool, input: EnableInput, now: int)
    requires Valid(w)
    ensures Valid(w.(db := EnablePeriodic(w.db, authorized, encryption, input, now).0))
  {
    ScheduleKeepsValid(w, EnablePeriodic(w.db, authorized, encryption, input, now).0.periodic);
  }

  lemma {:induction false} DisableKeepsValid(w: World, authorized: bool, revision: int, confirm: bool)
    requires Valid(w)
    ensures Valid(w.(db := DisablePeriodic(w.db, authorized, revision, confirm).0))
  {
    ScheduleKeepsValid(w, DisablePeriodic(w.db, authorized, revision, confirm).0.periodic);
  }

  lemma FencesKeepValid(w: World, fences: Fences, evidence: bool)
    requires Valid(w) && fences.identity == w.db.fences.identity && 0 <= fences.binding <= MAX_INT64
    requires fences.config > 0 && fences.check >= 0 && (evidence ==> fences.check > 0)
    ensures Valid(w.(db := w.db.(fences := fences, evidence := evidence)))
  {
  }

  lemma LinkKeepsValid(w: World)
    requires Valid(w)
    ensures Valid(w.(db := Link(w.db).0))
  {
  }

  lemma {:induction false} UnlinkKeepsValid(w: World, identity: int)
    requires Valid(w)
    ensures Valid(w.(db := Unlink(w.db, identity).0))
  {
    var after := Unlink(w.db, identity).0;
    FencesKeepRuns(w, after);
    assert ValidObservations(after);
  }

  lemma BindKeepsValid(w: World, repository: int)
    requires Valid(w)
    ensures Valid(w.(db := Bind(w.db, repository).0))
  {
  }

  lemma {:induction false} UnbindKeepsValid(w: World, repository: int)
    requires Valid(w)
    ensures Valid(w.(db := Unbind(w.db, repository).0))
  {
    var after := Unbind(w.db, repository).0;
    FencesKeepRuns(w, after);
    assert ValidObservations(after);
  }

  lemma {:induction false} ChangeKeepsValid(w: World, op: Op)
    requires Valid(w) && Enabled(w, op) && !op.OpManual? && !op.OpScan? && !op.OpFinish?
    ensures Valid(Apply(w, op))
  {
    match op
    case OpEnable(authorized, encryption, input, now) =>
      EnableKeepsValid(w, authorized, encryption, input, now);
    case OpDisable(authorized, revision, confirm) =>
      DisableKeepsValid(w, authorized, revision, confirm);
    case OpLink => LinkKeepsValid(w);
    case OpUnlink(identity) => UnlinkKeepsValid(w, identity);
    case OpBind(repository) => BindKeepsValid(w, repository);
    case OpUnbind(repository) => UnbindKeepsValid(w, repository);
    case OpReconfigure(config, check, evidence) =>
      FencesKeepValid(w, w.db.fences.(config := config, check := check), evidence);
  }

  lemma ChangeKeepsRuns(w: World, op: Op)
    requires !op.OpManual? && !op.OpScan? && !op.OpFinish?
    ensures Apply(w, op).db.runs == w.db.runs && Apply(w, op).db.lastRunID == w.db.lastRunID
    ensures Apply(w, op).issued == w.issued
  {
  }

  /** A finished row that is still there is the same row. */
  ghost predicate FinishedStay(before: seq<Run>, after: seq<Run>) {
    forall i, j :: 0 <= i < |before| && 0 <= j < |after| && !Unfinished(before[i]) && before[i].id == after[j].id
      ==> after[j] == before[i]
  }

  lemma {:induction false} EndedStay(db: Db, code: Code, counts: Option<Counts>, at: int)
    requires ValidRuns(db) && RunningNow(db)
    ensures FinishedStay(db.runs, EndedAfter(db, code, counts, at))
  {
    assert Terminals(db.runs) == db.runs[..|db.runs| - 1];
  }

  lemma {:induction false} RecoveredStay(db: Db, now: int)
    requires ValidRuns(db)
    ensures FinishedStay(db.runs, Recovered(db, now).runs)
  {
    if RunningNow(db) {
      var at := Max(now, db.runs[|db.runs| - 1].startedAt);
      EndedLast(db, Interrupted, None, at);
      EndedStay(db, Interrupted, None, at);
    }
  }

  lemma {:induction false} ReservedStay(w: World, now: int, runTrigger: Trigger, requester: Option<int>, startedAt: int)
    requires ValidRuns(w.db)
    ensures FinishedStay(w.db.runs, ReservedWorld(w, now, runTrigger, requester, startedAt).db.runs)
  {
    RecoveredStay(w.db, now);
    NewRowIsNew(w.db, now, NewRun(Recovered(w.db, now), runTrigger, requester, startedAt));
  }

  lemma {:induction false} NewRowIsNew(db: Db, now: int, row: Run)
    requires ValidRuns(db) && row.id == db.lastRunID + 1 && FinishedStay(db.runs, Recovered(db, now).runs)
    ensures FinishedStay(db.runs, Recovered(db, now).runs + [row])
  {
    var after := Recovered(db, now).runs + [row];
    forall i, j | 0 <= i < |db.runs| && 0 <= j < |after| && !Unfinished(db.runs[i]) && db.runs[i].id == after[j].id
      ensures after[j] == db.runs[i]
    {
      assert db.runs[i].id <= db.lastRunID && j < |Recovered(db, now).runs|;
    }
  }

  lemma {:induction false} SameStay(runs: seq<Run>)
    requires Ascending(runs)
    ensures FinishedStay(runs, runs)
  {
  }

  lemma {:induction false} FinishStay(w: World, s: Snapshot, o: AccessObservation, at: int)
    requires ValidRuns(w.db)
    ensures FinishedStay(w.db.runs, Finalize(w.db, s, o, at).0.runs)
  {
    if Awaited(w.db, s) {
      FinalizeIs(w, s, o, at);
      EndedStay(w.db, FinalCode(w.db, s, o), FinalCounts(w.db, s, o), at);
    } else {
      LateChangesNothing(w.db, s, o, at);
      SameStay(w.db.runs);
    }
  }

  lemma {:induction false} LateChangesNothing(db: Db, s: Snapshot, o: AccessObservation, at: int)
    requires !Awaited(db, s)
    ensures Finalize(db, s, o, at) == (db, None)
  {
  }

  lemma {:induction false} StepFinishedStay(w: World, op: Op)
    requires Valid(w) && Enabled(w, op)
    ensures FinishedStay(w.db.runs, Apply(w, op).db.runs)
  {
    SameStay(w.db.runs);
    match op
    case OpManual(actor, _, _, now) =>
      ManualRuns(w, op);
      ReservedStay(w, now, Manual, Some(actor), now);
    case OpScan(_, _, now, started) =>
      ScanRuns(w, op);
      ReservedStay(w, now, Periodic, None, Max(started, now));
    case OpFinish(runID, _, _, _, _, at) => FinishStay(w, w.issued[runID], FinishedObservation(w, op), at);
    case _ => ChangeKeepsRuns(w, op);
  }

  lemma {:induction false} FinishCompleteID(w: World, s: Snapshot, o: AccessObservation, at: int)
    requires ValidRuns(w.db)
    ensures LastComplete(Finalize(w.db, s, o, at).0.runs) >= LastComplete(w.db.runs)
  {
    if Awaited(w.db, s) {
      LastCompleteBound(w.db);
      FinalizeIs(w, s, o, at);
      EndedNewest(w.db, FinalCode(w.db, s, o), FinalCounts(w.db, s, o), at);
    } else {
      LateChangesNothing(w.db, s, o, at);
    }
  }

  lemma {:induction false} NewestCompleteID(w: World, op: Op)
    requires Valid(w) && Enabled(w, op)
    ensures LastComplete(Apply(w, op).db.runs) >= LastComplete(w.db.runs)
  {
    match op
    case OpManual(actor, authorized, input, now) => ManualKeepsValid(w, actor, authorized, input, now);
    case OpScan(encryption, fault, now, started) => ScanKeepsValid(w, encryption, fault, now, started);
    case OpFinish(runID, _, _, _, _, at) => FinishCompleteID(w, w.issued[runID], FinishedObservation(w, op), at);
    case _ => ChangeKeepsRuns(w, op);
  }

  /** No step discards or rewrites the newest completed run: the very row stays until a newer run completes. */
  lemma {:induction false} NewestCompleteStays(w: World, op: Op)
    requires Valid(w) && Enabled(w, op) && LastComplete(w.db.runs) > 0
    ensures var before, after := LastComplete(w.db.runs), LastComplete(Apply(w, op).db.runs);
            && after >= before
            && (exists r :: r in Apply(w, op).db.runs && r.id == after && IsComplete(r))
            && (after == before ==>
                  exists r :: r in w.db.runs && r in Apply(w, op).db.runs && r.id == before && IsComplete(r))
  {
    NewestCompleteID(w, op);
    StepFinishedStay(w, op);
    LastCompleteIn(w.db.runs);
    LastCompleteIn(Apply(w, op).db.runs);
    var before, after := w.db.runs, Apply(w, op).db.runs;
    var i :| 0 <= i < |before| && before[i].id == LastComplete(before) && IsComplete(before[i]);
    var j :| 0 <= j < |after| && after[j].id == LastComplete(after) && IsComplete(after[j]);
    assert before[i] in before && after[j] in after;
  }

  lemma {:induction false} LastCompleteIn(runs: seq<Run>)
    ensures LastComplete(runs) == 0 || exists i :: 0 <= i < |runs| && runs[i].id == LastComplete(runs) && IsComplete(runs[i])
  {
    if runs != [] { LastCompleteIn(runs[..|runs| - 1]); }
  }

  lemma LastCompleteBound(db: Db)
    requires ValidRuns(db)
    ensures 0 <= LastComplete(db.runs) <= NewestID(db)
  {
    LastCompleteIn(db.runs);
    if LastComplete(db.runs) != 0 {
      var i :| 0 <= i < |db.runs| && db.runs[i].id == LastComplete(db.runs) && IsComplete(db.runs[i]);
    }
  }
}
