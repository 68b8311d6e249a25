/**
 Shadow access snapshots for one connection: reserve a run, observe the provider
 outside the database, finalize; the periodic cadence; and the identity and
 binding changes that fence them.
 */
module ShadowAccess {
  import opened Wrappers

  /** Timestamps count nanoseconds, the precision of the stored format. */
  const SECOND: int := 1_000_000_000
  const INTERRUPTION_AGE: int := 75 * SECOND
  const CADENCE: int := 300 * SECOND
  const IDENTITY_LIMIT := 10
  const REPOSITORY_LIMIT := 10
  const PAIR_LIMIT := 25
  const REQUEST_LIMIT := 96

  datatype Trigger = Manual | Periodic

  datatype Code =
    | Complete | ProviderUnavailable | AuthenticationFailed | AuthorizationFailed | ServiceUserIsAdmin
    | ServiceUserChanged | OrganizationChanged | CredentialUnavailable | InvalidResponse
    | PaginationIncomplete | WorkLimitExceeded | ScopeChanged | Interrupted | OtherCode(text: string)
  {
    predicate Valid() { !OtherCode? }
    predicate ObserverReturnable() {
      !OtherCode? && !CredentialUnavailable? && !ScopeChanged? && !Interrupted?
    }
  }

  datatype Reason =
    | DirectCollaborator | TeamAccess | NoExplicitAccessNone | IdentityUnresolved | RepositoryUnavailable
    | VisibilitySourceUnproven | PermissionUnavailable | PermissionUnrecognized | EvidenceInconsistent
    | OtherReason(text: string)
  {
    predicate Valid() { !OtherReason? }
    function State(): PairState {
      match this
      case DirectCollaborator => ConfirmedPresent
      case TeamAccess => ConfirmedPresent
      case NoExplicitAccessNone => ConfirmedAbsent
      case _ => Unknown
    }
    predicate Confirmed() { State() != Unknown }
  }

  datatype PairState = ConfirmedPresent | ConfirmedAbsent | Unknown

  /** An identity and a bound repository. */
  type Key = (int, int)

  datatype Pair = Pair(key: Key, reason: Reason)

  datatype AccessObservation = AccessObservation(code: Code, pairs: seq<Pair>, requestCount: int)

  datatype Confirmation = Confirmation(reason: Reason, runID: int, at: int)

  datatype Observation = Observation(reason: Reason, runID: int, at: int, confirmed: Option<Confirmation>)

  datatype Fences = Fences(config: int, check: int, binding: int, identity: int)

  datatype Counts = Counts(present: nat, unknown: nat)

  /** `result` is None while the run executes. */
  datatype Run = Run(
    id: int, runTrigger: Trigger, requester: Option<int>, fences: Fences, identityCount: int,
    repositoryCount: int, result: Option<Code>, counts: Option<Counts>, startedAt: int, finishedAt: Option<int>)

  /** What a worker carries from reservation to finalization. */
  datatype Snapshot = Snapshot(
    runID: int, runTrigger: Trigger, fences: Fences, identities: set<int>, bindings: set<int>, startedAt: int)

  /** `due` is None while disabled. */
  datatype Schedule = Schedule(revision: int, due: Option<int>)

  /** `runs` is in id order; `lastRunID` and `lastIdentityID` are the never-reused sequences. */
  datatype Db = Db(
    fences: Fences, evidence: bool, identities: set<int>, bindings: set<int>, lastIdentityID: int,
    runs: seq<Run>, lastRunID: int, observations: map<Key, Observation>, periodic: Option<Schedule>)

  datatype Refusal = Validation | Authorization | Conflict | Running | Exhausted | Configuration | RunInterrupted

  // --------------------------------------------------------------- run rows

  predicate Unfinished(r: Run) { r.result.None? }

  predicate IsComplete(r: Run) { r.result == Some(Complete) }

  function LastTerminal(runs: seq<Run>): int {
    if runs == [] then 0
    else if !Unfinished(runs[|runs| - 1]) then runs[|runs| - 1].id
    else LastTerminal(runs[..|runs| - 1])
  }

  function LastComplete(runs: seq<Run>): int {
    if runs == [] then 0
    else if IsComplete(runs[|runs| - 1]) then runs[|runs| - 1].id
    else LastComplete(runs[..|runs| - 1])
  }

  function KeepRuns(runs: seq<Run>, terminal: int, complete: int): seq<Run> {
    if runs == [] then []
    else
      var last := runs[|runs| - 1];
      KeepRuns(runs[..|runs| - 1], terminal, complete)
      + if Unfinished(last) || last.id == terminal || last.id == complete then [last] else []
  }

  /** Every running row, the newest terminal row and the newest completed row. */
  function Retained(runs: seq<Run>): seq<Run> { KeepRuns(runs, LastTerminal(runs), LastComplete(runs)) }

  function Ended(r: Run, code: Code, counts: Option<Counts>, at: int): Run {
    r.(result := Some(code), counts := counts, finishedAt := Some(at))
  }

  /** The guarded update: only a row with this id that is still running changes. */
  function EndRun(runs: seq<Run>, id: int, code: Code, counts: Option<Counts>, at: int): seq<Run> {
    if runs == [] then []
    else
      var last := runs[|runs| - 1];
      EndRun(runs[..|runs| - 1], id, code, counts, at)
      + [if last.id == id && Unfinished(last) then Ended(last, code, counts, at) else last]
  }

  function FindRun(runs: seq<Run>, id: int): Option<Run> {
    if runs == [] then None
    else if runs[|runs| - 1].id == id then Some(runs[|runs| - 1])
    else FindRun(runs[..|runs| - 1], id)
  }

  function Max(a: int, b: int): int { if a < b then b else a }

  // ------------------------------------------------------------- reservations

  predicate WithinLimits(identities: int, bindings: int) {
    identities <= IDENTITY_LIMIT && bindings <= REPOSITORY_LIMIT && identities * bindings <= PAIR_LIMIT
  }

  predicate Blocked(db: Db, encryption: bool) {
    !encryption || !db.evidence || |db.identities| == 0 || |db.bindings| == 0
    || !WithinLimits(|db.identities|, |db.bindings|)
  }

  function NewestID(db: Db): int { if db.runs == [] then 0 else db.runs[|db.runs| - 1].id }

  predicate RunningNow(db: Db) { db.runs != [] && Unfinished(db.runs[|db.runs| - 1]) }

  predicate Young(db: Db, now: int)
    requires RunningNow(db)
  {
    now - db.runs[|db.runs| - 1].startedAt < INTERRUPTION_AGE
  }

  /** A running row left behind by a lost worker is ended, and retention applied. */
  function Recovered(db: Db, now: int): Db {
    if !RunningNow(db) then db
    else
      var newest := db.runs[|db.runs| - 1];
      db.(runs := Retained(EndRun(db.runs, newest.id, Interrupted, None, Max(now, newest.startedAt))))
  }

  function NewRun(db: Db, runTrigger: Trigger, requester: Option<int>, startedAt: int): Run {
    Run(db.lastRunID + 1, runTrigger, requester, db.fences, |db.identities|, |db.bindings|, None, None, startedAt, None)
  }

  function Inserted(db: Db, runTrigger: Trigger, requester: Option<int>, startedAt: int): Db {
    db.(runs := db.runs + [NewRun(db, runTrigger, requester, startedAt)], lastRunID := db.lastRunID + 1)
  }

  function SnapshotOf(db: Db, runTrigger: Trigger, startedAt: int): Snapshot {
    Snapshot(db.lastRunID + 1, runTrigger, db.fences, db.identities, db.bindings, startedAt)
  }

  datatype RunInput = RunInput(fences: Fences, newestRunID: int, confirm: bool)

  predicate RunInputValid(input: RunInput) {
    && input.fences.config > 0 && input.fences.check > 0 && input.fences.binding >= 0
    && input.fences.identity > 0 && input.newestRunID >= 0 && input.confirm
  }

  datatype Reservation = Reserved(snapshot: Snapshot) | NotReserved | Refused(reason: Refusal)

  /** The manual guard chain up to the newest-run check. */
  function ManualRefusal(db: Db, authorized: bool, input: RunInput, now: int): Option<Refusal> {
    if !RunInputValid(input) then Some(Validation)
    else if !authorized then Some(Authorization)
    else if db.fences != input.fences || !db.evidence then Some(Conflict)
    else if |db.identities| == 0 || |db.bindings| == 0 || !WithinLimits(|db.identities|, |db.bindings|) then Some(Validation)
    else if NewestID(db) != input.newestRunID then Some(Conflict)
    else if RunningNow(db) && Young(db, now) then Some(Running)
    else None
  }

  function ReserveManual(db: Db, actor: int, authorized: bool, input: RunInput, now: int): (Db, Reservation) {
    var refusal := ManualRefusal(db, authorized, input, now);
    if refusal.Some? then (db, Refused(refusal.value))
    else
      var ready := Recovered(db, now);
      (Inserted(ready, Manual, Some(actor), now), Reserved(SnapshotOf(ready, Manual, now)))
  }

  function SetDue(db: Db, due: int): Db {
    if db.periodic.Some? && db.periodic.value.due.Some?
    then db.(periodic := Some(db.periodic.value.(due := Some(due)))) else db
  }

  /** Where an unexpected failure strikes a periodic scan, if it does. */
  datatype Fault = NoFault | DueReadFault | ReservationFault

  predicate ScanIsDue(db: Db, now: int) {
    db.periodic.Some? && db.periodic.value.due.Some? && db.periodic.value.due.value <= now
  }

  /**
   One due scan. `started` is the clock sampled again just before the insert;
   failures after the due check roll back to the savepoint and only move the due time.
   */
  function PeriodicScan(db: Db, encryption: bool, fault: Fault, now: int, started: int): (Db, Reservation) {
    if fault == DueReadFault then (SetDue(db, now + CADENCE), NotReserved)
    else if !ScanIsDue(db, now) then (db, NotReserved)
    else if fault == ReservationFault then (SetDue(db, now + CADENCE), NotReserved)
    else if Blocked(db, encryption) || (RunningNow(db) && Young(db, now)) then (SetDue(db, now + CADENCE), NotReserved)
    else
      var ready := Recovered(db, now);
      var startedAt := Max(started, now);
      (SetDue(Inserted(ready, Periodic, None, startedAt), startedAt + CADENCE), Reserved(SnapshotOf(ready, Periodic, startedAt)))
  }

  // --------------------------------------------------- observations in memory

  function Product<A, B>(first: set<A>, second: set<B>): set<(A, B)> {
    set a, b | a in first && b in second :: (a, b)
  }

  predicate DistinctKeys(pairs: seq<Pair>) {
    forall i, j :: 0 <= i < j < |pairs| ==> pairs[i].key != pairs[j].key
  }

  predicate ValidPairs(scope: set<Key>, pairs: seq<Pair>) {
    && |pairs| == |scope| && DistinctKeys(pairs)
    && (forall i :: 0 <= i < |pairs| ==> pairs[i].key in scope && pairs[i].reason.Valid())
  }

  predicate ValidObservation(s: Snapshot, o: AccessObservation) {
    && o.code.ObserverReturnable() && 0 <= o.requestCount <= REQUEST_LIMIT
    && if o.code == Complete then ValidPairs(Product(s.identities, s.bindings), o.pairs) else o.pairs == []
  }

  /** What reaches finalization: decryption failures, contract violations and cancellation are settled first. */
  function Settled(s: Snapshot, decrypts: bool, o: AccessObservation, cancelled: bool): AccessObservation {
    var seen :=
      if !decrypts then AccessObservation(CredentialUnavailable, [], 0)
      else if !ValidObservation(s, o) then AccessObservation(InvalidResponse, [], 0)
      else o;
    if cancelled && seen.code != Complete then AccessObservation(Interrupted, [], 0) else seen
  }

  // ------------------------------------------------------------- finalization

  predicate ScopeUnchanged(db: Db, s: Snapshot) {
    db.fences == s.fences && db.identities == s.identities && db.bindings == s.bindings
  }

  function Upserted(before: Option<Observation>, reason: Reason, runID: int, at: int): Observation {
    Observation(reason, runID, at,
      if reason.Confirmed() then Some(Confirmation(reason, runID, at))
      else if before.Some? then before.value.confirmed else None)
  }

  function Get(observations: map<Key, Observation>, key: Key): Option<Observation> {
    if key in observations then Some(observations[key]) else None
  }

  function Published(observations: map<Key, Observation>, pairs: seq<Pair>, runID: int, at: int): map<Key, Observation> {
    if pairs == [] then observations
    else
      var last := pairs[|pairs| - 1];
      var before := Published(observations, pairs[..|pairs| - 1], runID, at);
      before[last.key := Upserted(Get(before, last.key), last.reason, runID, at)]
  }

  function CountState(pairs: seq<Pair>, state: PairState): nat {
    if pairs == [] then 0
    else CountState(pairs[..|pairs| - 1], state) + if pairs[|pairs| - 1].reason.State() == state then 1 else 0
  }

  /**
   The finish instant: the clock, but never before the run's start nor, when
   publishing, before any stored observation.
   */
  predicate FinishTime(db: Db, startedAt: int, publishes: bool, now: int, at: int) {
    && at >= now && at >= startedAt
    && (publishes ==> forall k :: k in db.observations ==> at >= db.observations[k].at)
    && (at == now || at == startedAt || (publishes && exists k :: k in db.observations && db.observations[k].at == at))
  }

  function FinalCode(db: Db, s: Snapshot, o: AccessObservation): Code {
    if ScopeUnchanged(db, s) then o.code else ScopeChanged
  }

  /** Whether the run row still waits for this snapshot's result. */
  predicate Awaited(db: Db, s: Snapshot) {
    var row := FindRun(db.runs, s.runID);
    row.Some? && Unfinished(row.value) && row.value.runTrigger == s.runTrigger
  }

  function PostponedByManual(db: Db, s: Snapshot): Db {
    if s.runTrigger == Manual && db.periodic.Some? && db.periodic.value.due.Some?
    then SetDue(db, Max(db.periodic.value.due.value, s.startedAt + CADENCE)) else db
  }

  function Finalize(db: Db, s: Snapshot, o: AccessObservation, at: int): (Db, Option<Code>) {
    if !Awaited(db, s) then (db, None)
    else
      var code := FinalCode(db, s, o);
      if code == Complete then
        var counts := Counts(CountState(o.pairs, ConfirmedPresent), CountState(o.pairs, Unknown));
        var ended := db.(
          observations := Published(db.observations, o.pairs, s.runID, at),
          runs := Retained(EndRun(db.runs, s.runID, code, Some(counts), at)));
        (PostponedByManual(ended, s), Some(code))
      else
        (db.(runs := Retained(EndRun(db.runs, s.runID, code, None, at))), Some(code))
  }

  // ----------------------------------------------------------------- schedule

  datatype EnableInput = EnableInput(fences: Fences, newestRunID: int, periodicRevision: int, confirm: bool)

  predicate EnableInputValid(input: EnableInput) {
    && input.fences.config > 0 && input.fences.check > 0 && input.fences.binding >= 0
    && input.fences.identity > 0 && input.newestRunID >= 0 && input.periodicRevision >= 0 && input.confirm
  }

  function PeriodicRevision(db: Db): int { if db.periodic.Some? then db.periodic.value.revision else 0 }

  datatype Change = Changed | Unchanged | ChangeRefused(reason: Refusal)

  function EnablePeriodic(db: Db, authorized: bool, encryption: bool, input: EnableInput, now: int): (Db, Change) {
    if !EnableInputValid(input) then (db, ChangeRefused(Validation))
    else if !authorized then (db, ChangeRefused(Authorization))
    else if db.fences != input.fences || NewestID(db) != input.newestRunID || PeriodicRevision(db) != input.periodicRevision
    then (db, ChangeRefused(Conflict))
    else if db.periodic.Some? && db.periodic.value.due.Some? then (db, Unchanged)
    else if Blocked(db, encryption) then (db, ChangeRefused(if encryption then Validation else Configuration))
    else if PeriodicRevision(db) == MAX_INT64 then (db, ChangeRefused(Exhausted))
    else (db.(periodic := Some(Schedule(PeriodicRevision(db) + 1, Some(now + CADENCE)))), Changed)
  }

  function DisablePeriodic(db: Db, authorized: bool, revision: int, confirm: bool): (Db, Change) {
    if revision < 0 || !confirm then (db, ChangeRefused(Validation))
    else if !authorized then (db, ChangeRefused(Authorization))
    else if PeriodicRevision(db) != revision then (db, ChangeRefused(Conflict))
    else if db.periodic.None? || db.periodic.value.due.None? then (db, Unchanged)
    else if PeriodicRevision(db) == MAX_INT64 then (db, ChangeRefused(Exhausted))
    else (db.(periodic := Some(Schedule(PeriodicRevision(db) + 1, None))), Changed)
  }

  // ------------------------------------------------------- identities, bindings

  function Advanced(revision: int): int { if revision < MAX_INT64 then revision + 1 else revision }

  /** A link must advance the revision: at the maximum it is refused. */
  function Link(db: Db): (Db, bool) {
    if db.fences.identity >= MAX_INT64 then (db, false)
    else
      (db.(fences := db.fences.(identity := db.fences.identity + 1),
           identities := db.identities + {db.lastIdentityID + 1}, lastIdentityID := db.lastIdentityID + 1),
       true)
  }

  /** Unlinking and purging delete the identity and, by cascade, its observations. */
  function Unlink(db: Db, identity: int): (Db, bool) {
    if identity !in db.identities then (db, false)
    else
      (db.(fences := db.fences.(identity := Advanced(db.fences.identity)),
           identities := db.identities - {identity},
           observations := map k | k in db.observations && k.0 != identity :: db.observations[k]),
       true)
  }

  function Bind(db: Db, repository: int): (Db, bool) {
    if repository <= 0 || repository in db.bindings || db.fences.binding >= MAX_INT64 then (db, false)
    else
      (db.(fences := db.fences.(binding := db.fences.binding + 1), bindings := db.bindings + {repository}), true)
  }

  function Unbind(db: Db, repository: int): (Db, bool) {
    if repository !in db.bindings || db.fences.binding >= MAX_INT64 then (db, false)
    else
      (db.(fences := db.fences.(binding := db.fences.binding + 1), bindings := db.bindings - {repository},
           observations := map k | k in db.observations && k.1 != repository :: db.observations[k]),
       true)
  }
}
