/** The shadow access service over its tables; each method is one transaction. */
module ShadowService {
  import opened Wrappers
  import opened ShadowAccess

  class AccessShadow {
    var fences: Fences
    var evidence: bool
    var identities: set<int>
    var bindings: set<int>
    var lastIdentityID: int
    var runs: seq<Run>
    var lastRunID: int
    var observations: map<Key, Observation>
    var periodic: Option<Schedule>

    ghost function State(): Db
      reads this
    {
      Db(fences, evidence, identities, bindings, lastIdentityID, runs, lastRunID, observations, periodic)
    }

    constructor (db: Db)
      ensures State() == db
    {
      fences, evidence, identities, bindings := db.fences, db.evidence, db.identities, db.bindings;
      lastIdentityID, runs, lastRunID := db.lastIdentityID, db.runs, db.lastRunID;
      observations, periodic := db.observations, db.periodic;
    }

    // ------------------------------------------------------------- run rows

    method ApplyRetention()
      modifies this`runs
      ensures runs == Retained(old(runs))
    {
      var terminal, complete := 0, 0;
      for i := 0 to |runs|
        invariant runs == old(runs)
        invariant terminal == LastTerminal(runs[..i]) && complete == LastComplete(runs[..i])
      {
        assert runs[..i + 1][..i] == runs[..i];
        if !Unfinished(runs[i]) { terminal := runs[i].id; }
        if IsComplete(runs[i]) { complete := runs[i].id; }
      }
      assert runs[..|runs|] == runs;
      var kept := [];
      for i := 0 to |runs|
        invariant runs == old(runs)
        invariant kept == KeepRuns(runs[..i], terminal, complete)
      {
        assert runs[..i + 1][..i] == runs[..i];
        if Unfinished(runs[i]) || runs[i].id == terminal || runs[i].id == complete { kept := kept + [runs[i]]; }
      }
      runs := kept;
    }

    method EndRunRow(id: int, code: Code, counts: Option<Counts>, at: int)
      modifies this`runs
      ensures runs == EndRun(old(runs), id, code, counts, at)
    {
      var updated := [];
      for i := 0 to |runs|
        invariant runs == old(runs)
        invariant updated == EndRun(runs[..i], id, code, counts, at)
      {
        assert runs[..i + 1][..i] == runs[..i];
        var row := runs[i];
        if row.id == id && Unfinished(row) { row := Ended(row, code, counts, at); }
        updated := updated + [row];
      }
      assert runs[..|runs|] == runs;
      runs := updated;
    }

    method LoadRun(id: int) returns (row: Option<Run>)
      ensures row == FindRun(runs, id)
    {
      row := None;
      for i := 0 to |runs|
        invariant row == FindRun(runs[..i], id)
      {
        assert runs[..i + 1][..i] == runs[..i];
        if runs[i].id == id { row := Some(runs[i]); }
      }
      assert runs[..|runs|] == runs;
    }

    method RecoverOrphan(now: int)
      modifies this`runs
      ensures State() == Recovered(old(State()), now)
    {
      if runs == [] { return; }
      var newest := runs[|runs| - 1];
      if newest.result.Some? { return; }
      var finishedAt := now;
      if finishedAt < newest.startedAt { finishedAt := newest.startedAt; }
      EndRunRow(newest.id, Interrupted, None, finishedAt);
      ApplyRetention();
    }

    method InsertRun(runTrigger: Trigger, requester: Option<int>, startedAt: int) returns (s: Snapshot)
      modifies this`runs, this`lastRunID
      ensures State() == Inserted(old(State()), runTrigger, requester, startedAt)
      ensures s == SnapshotOf(old(State()), runTrigger, startedAt)
    {
      var id := lastRunID + 1;
      var row := Run(id, runTrigger, requester, fences, |identities|, |bindings|, None, None, startedAt, None);
      runs := runs + [row];
      lastRunID := id;
      s := Snapshot(id, runTrigger, fences, identities, bindings, startedAt);
    }

    // ------------------------------------------------------------ reservation

    method ReserveRun(actor: int, authorized: bool, input: RunInput, now: int) returns (r: Reservation)
      modifies this
      ensures (State(), r) == ReserveManual(old(State()), actor, authorized, input, now)
    {
      if !RunInputValid(input) { return Refused(Validation); }
      if !authorized { return Refused(Authorization); }
      if fences != input.fences { return Refused(Conflict); }
      if !evidence { return Refused(Conflict); }
      if |identities| == 0 || |bindings| == 0 { return Refused(Validation); }
      if !WithinLimits(|identities|, |bindings|) { return Refused(Validation); }
      if runs == [] {
        if input.newestRunID != 0 { return Refused(Conflict); }
      } else {
        var newest := runs[|runs| - 1];
        if newest.id != input.newestRunID { return Refused(Conflict); }
        if newest.result.None? && now - newest.startedAt < INTERRUPTION_AGE { return Refused(Running); }
      }
      RecoverOrphan(now);
      var s := InsertRun(Manual, Some(actor), now);
      r := Reserved(s);
    }

    method SetNextDue(due: int)
      modifies this`periodic
      ensures State() == SetDue(old(State()), due)
    {
      if periodic.Some? && periodic.value.due.Some? {
        periodic := Some(periodic.value.(due := Some(due)));
      }
    }

    method ReservePeriodicDue(encryption: bool, fault: Fault, now: int, started: int) returns (r: Reservation)
      modifies this
      ensures (State(), r) == PeriodicScan(old(State()), encryption, fault, now, started)
    {
      if fault == DueReadFault {
        SetNextDue(now + CADENCE);
        return NotReserved;
      }
      if periodic.None? || periodic.value.due.None? || periodic.value.due.value > now { return NotReserved; }
      if fault == ReservationFault {
        SetNextDue(now + CADENCE);
        return NotReserved;
      }
      if !encryption || !evidence || |identities| == 0 || |bindings| == 0 || !WithinLimits(|identities|, |bindings|) {
        SetNextDue(now + CADENCE);
        return NotReserved;
      }
      if runs != [] && runs[|runs| - 1].result.None? && now - runs[|runs| - 1].startedAt < INTERRUPTION_AGE {
        SetNextDue(now + CADENCE);
        return NotReserved;
      }
      RecoverOrphan(now);
      var startedAt := started;
      if startedAt < now { startedAt := now; }
      var s := InsertRun(Periodic, None, startedAt);
      SetNextDue(startedAt + CADENCE);
      r := Reserved(s);
    }

    // ------------------------------------------------------------- finalization

    method ReadScope(s: Snapshot) returns (unchangedScope: bool)
      ensures unchangedScope == ScopeUnchanged(State(), s)
    {
      unchangedScope := fences == s.fences && identities == s.identities && bindings == s.bindings;
    }

    method FinalizationTime(startedAt: int, publishes: bool, now: int) returns (at: int)
      ensures FinishTime(State(), startedAt, publishes, now, at)
    {
      at := now;
      if at < startedAt { at := startedAt; }
      if !publishes { return; }
      var floor := at;
      var rest := observations.Keys;
      while rest != {}
        invariant rest <= observations.Keys && at >= floor
        invariant forall k :: k in observations && k !in rest ==> observations[k].at <= at
        invariant at == floor || exists k :: k in observations && observations[k].at == at
        decreases |rest|
      {
        var k := Pick(rest);
        rest := rest - {k};
        if at < observations[k].at { at := observations[k].at; }
      }
    }

    method PublishPairs(pairs: seq<Pair>, runID: int, at: int) returns (present: nat, unknown: nat)
      modifies this`observations
      ensures observations == Published(old(observations), pairs, runID, at)
      ensures present == CountState(pairs, ConfirmedPresent) && unknown == CountState(pairs, Unknown)
    {
      present, unknown := 0, 0;
      for i := 0 to |pairs|
        invariant observations == Published(old(observations), pairs[..i], runID, at)
        invariant present == CountState(pairs[..i], ConfirmedPresent) && unknown == CountState(pairs[..i], Unknown)
      {
        assert pairs[..i + 1][..i] == pairs[..i];
        match pairs[i].reason.State() {
          case ConfirmedPresent => present := present + 1;
          case Unknown => unknown := unknown + 1;
          case ConfirmedAbsent =>
        }
        var before := Get(observations, pairs[i].key);
        observations := observations[pairs[i].key := Upserted(before, pairs[i].reason, runID, at)];
      }
      assert pairs[..|pairs|] == pairs;
    }

    method AdvancePeriodicAfterManualComplete(s: Snapshot)
      modifies this`periodic
      ensures State() == PostponedByManual(old(State()), s)
    {
      if s.runTrigger == Manual && periodic.Some? && periodic.value.due.Some? {
        var nextDue := s.startedAt + CADENCE;
        if periodic.value.due.value < nextDue { periodic := Some(periodic.value.(due := Some(nextDue))); }
      }
    }

    method FinalizeRun(s: Snapshot, o: AccessObservation, now: int) returns (code: Option<Code>, at: int)
      modifies this
      ensures FinishTime(old(State()), s.startedAt, FinalCode(old(State()), s, o) == Complete, now, at)
      ensures (State(), code) == Finalize(old(State()), s, o, at)
    {
      var current := ReadScope(s);
      var result := if current then o.code else ScopeChanged;
      at := FinalizationTime(s.startedAt, result == Complete, now);
      var row := LoadRun(s.runID);
      if row.None? { return None, at; }
      if row.value.result.Some? || row.value.runTrigger != s.runTrigger { return None, at; }
      if result == Complete {
        var present, unknown := PublishPairs(o.pairs, s.runID, at);
        EndRunRow(s.runID, result, Some(Counts(present, unknown)), at);
        AdvancePeriodicAfterManualComplete(s);
      } else {
        EndRunRow(s.runID, result, None, at);
      }
      ApplyRetention();
      code := Some(result);
    }

    // ----------------------------------------------------------------- schedule

    method Enable(authorized: bool, encryption: bool, input: EnableInput, now: int) returns (change: Change)
      modifies this
      ensures (State(), change) == EnablePeriodic(old(State()), authorized, encryption, input, now)
    {
      if !EnableInputValid(input) { return ChangeRefused(Validation); }
      if !authorized { return ChangeRefused(Authorization); }
      var newestRunID := if runs == [] then 0 else runs[|runs| - 1].id;
      var revision := if periodic.Some? then periodic.value.revision else 0;
      if fences != input.fences || newestRunID != input.newestRunID || revision != input.periodicRevision {
        return ChangeRefused(Conflict);
      }
      if periodic.Some? && periodic.value.due.Some? { return Unchanged; }
      if !encryption { return ChangeRefused(Configuration); }
      if !evidence || |identities| == 0 || |bindings| == 0 || !WithinLimits(|identities|, |bindings|) {
        return ChangeRefused(Validation);
      }
      if revision == MAX_INT64 { return ChangeRefused(Exhausted); }
      periodic := Some(Schedule(revision + 1, Some(now + CADENCE)));
      change := Changed;
    }

    method Disable(authorized: bool, expected: int, confirm: bool) returns (change: Change)
      modifies this
      ensures (State(), change) == DisablePeriodic(old(State()), authorized, expected, confirm)
    {
      if expected < 0 || !confirm { return ChangeRefused(Validation); }
      if !authorized { return ChangeRefused(Authorization); }
      var revision := if periodic.Some? then periodic.value.revision else 0;
      if revision != expected { return ChangeRefused(Conflict); }
      if periodic.None? || periodic.value.due.None? { return Unchanged; }
      if revision == MAX_INT64 { return ChangeRefused(Exhausted); }
      periodic := Some(Schedule(revision + 1, None));
      change := Changed;
    }

    // --------------------------------------------------------------- identities

    /** Whether the revision moved; at the maximum it stays. */
    method AdvanceAccessIdentityRevision() returns (advanced: bool)
      modifies this`fences
      ensures fences == old(fences).(identity := Advanced(old(fences).identity))
      ensures advanced <==> old(fences).identity < MAX_INT64
    {
      advanced := fences.identity < MAX_INT64;
      if advanced { fences := fences.(identity := fences.identity + 1); }
    }

    method CompleteLink() returns (linked: bool)
      modifies this
      ensures (State(), linked) == Link(old(State()))
    {
      var advanced := AdvanceAccessIdentityRevision();
      if !advanced { return false; }
      lastIdentityID := lastIdentityID + 1;
      identities := identities + {lastIdentityID};
      linked := true;
    }

    method RemoveIdentity(identity: int) returns (removed: bool)
      modifies this
      ensures (State(), removed) == Unlink(old(State()), identity)
    {
      if identity !in identities { return false; }
      identities := identities - {identity};
      observations := map k | k in observations && k.0 != identity :: observations[k];
      var advanced := AdvanceAccessIdentityRevision();
      removed := true;
    }
  }

  // ---------------------------------------------- the observer's contract, as checked

  /** The check of observer output: every expected pair flagged exactly once. */
  method ValidAccessObservation(s: Snapshot, o: AccessObservation) returns (ok: bool)
    ensures ok == ValidObservation(s, o)
  {
    if !o.code.ObserverReturnable() { return false; }
    if o.requestCount < 0 || o.requestCount > REQUEST_LIMIT { return false; }
    if o.code != Complete { return |o.pairs| == 0; }
    var scope := Product(s.identities, s.bindings);
    var expected: map<Key, bool> := map k | k in scope :: false;
    assert expected.Keys == scope;
    if |o.pairs| != |expected| { return false; }
    for i := 0 to |o.pairs|
      invariant expected.Keys == scope
      invariant forall j :: 0 <= j < i ==> o.pairs[j].key in scope && o.pairs[j].reason.Valid()
      invariant forall j, k :: 0 <= j < k < i ==> o.pairs[j].key != o.pairs[k].key
      invariant forall k :: k in expected && expected[k] <==> exists j :: 0 <= j < i && o.pairs[j].key == k
    {
      var key := o.pairs[i].key;
      if key !in expected || expected[key] || !o.pairs[i].reason.Valid() { return false; }
      expected := expected[key := true];
    }
    ok := true;
  }

  /** From reservation to finalization: decrypt, observe, check, and account for cancellation. */
  method ObserveAccess(s: Snapshot, decrypts: bool, provider: AccessObservation, cancelled: bool) returns (o: AccessObservation)
    ensures o == Settled(s, decrypts, provider, cancelled)
  {
    if !decrypts {
      o := AccessObservation(CredentialUnavailable, [], 0);
    } else {
      var valid := ValidAccessObservation(s, provider);
      o := if valid then provider else AccessObservation(InvalidResponse, [], 0);
    }
    if cancelled && o.code != Complete { o := AccessObservation(Interrupted, [], 0); }
  }
}
