/**
 The queue over whole histories, with many workers holding claims that may have
 expired or been superseded: exactly when new work can be lost, that no two claims
 of a job are current, and that every job stays claimable within fifteen minutes.
 */
module JobsTheorems {
  import opened Wrappers
  import opened Jobs

  /** One committed statement. A completion or rescheduling that matches nothing is followed by `Release`. */
  datatype Op =
    | Upsert(repositoryID: int, at: int, advance: bool, category: string, freshID: int)
    | Claim(id: int, generation: int, at: int)
    | Delete(token: Token)
    | Reschedule(token: Token, at: int, category: string)
    | Release(token: Token)
    | MakeDue(repositoryID: int, at: int)
    | Remove(repositoryID: int)

  function Apply(jobs: Table, op: Op): Table {
    match op
    case Upsert(p, at, advance, category, freshID) => UpsertRow(jobs, p, at, advance, category, freshID)
    case Claim(id, generation, at) => ClaimRow(jobs, id, generation, at)
    case Delete(t) => DeleteHeld(jobs, t)
    case Reschedule(t, at, category) => RescheduleHeld(jobs, t, at, category)
    case Release(t) => ReleaseSuperseded(jobs, t)
    case MakeDue(p, at) => DueNow(jobs, p, at)
    case Remove(p) => jobs - {p}
  }

  /** What the store and the database guarantee of a step: positive repositories, unused row ids. */
  ghost predicate Enabled(jobs: Table, op: Op) {
    op.Upsert? ==> op.repositoryID > 0 && op.freshID > 0 && (op.repositoryID !in jobs ==> !IDTaken(jobs, op.freshID))
  }

  /** Statements in commit order, and the table before each and after the last. */
  datatype History = History(ops: seq<Op>, states: seq<Table>)

  ghost predicate Legal(h: History) {
    && |h.states| == |h.ops| + 1 && h.states[0] == map[]
    && forall k :: 0 <= k < |h.ops| ==> Enabled(h.states[k], h.ops[k]) && h.states[k + 1] == Apply(h.states[k], h.ops[k])
  }

  lemma {:induction false} StepKeepsValid(jobs: Table, op: Op)
    requires Valid(jobs) && Enabled(jobs, op)
    ensures Valid(Apply(jobs, op))
  {
    if op.Upsert? && op.repositoryID !in jobs {
      assert forall p :: p in jobs ==> jobs[p].id != op.freshID;
    }
  }

  lemma {:induction false} AlwaysValid(h: History, k: nat)
    requires Legal(h) && k <= |h.ops|
    ensures Valid(h.states[k])
  {
    if k > 0 {
      AlwaysValid(h, k - 1);
      StepKeepsValid(h.states[k - 1], h.ops[k - 1]);
    }
  }

  // ------------------------------------------------------------ claims in time

  /** Step `m` claimed `q`'s row under `t`'s id and instant, at whatever generation. */
  ghost predicate Locks(h: History, m: nat, q: int, t: Token) {
    && m < |h.ops| < |h.states| && h.ops[m].Claim? && h.ops[m].id == t.id && h.ops[m].at == t.lockedAt
    && q in h.states[m] && Claims(h.states[m][q], h.ops[m].id, h.ops[m].generation, h.ops[m].at)
  }

  /** Step `i` is the claim that handed out `t`, on repository `p`'s row. */
  ghost predicate Took(h: History, i: nat, t: Token, p: int) {
    Locks(h, i, p, t) && h.ops[i].generation == t.generation
  }

  /** Strictly between steps `i` and `j` nobody claims `t`'s row id at `t`'s instant again. */
  ghost predicate NotRetaken(h: History, i: nat, j: nat, t: Token) {
    forall m: nat, q :: i < m < j ==> !Locks(h, m, q, t)
  }

  /** Step `op` advances `p`'s row: an advancing enqueue, or a make-due that was not refused. */
  predicate Advances(jobs: Table, op: Op, p: int) {
    && p in jobs
    && ((op.Upsert? && op.repositoryID == p && op.advance) || (op.MakeDue? && op.repositoryID == p && Free(jobs[p], op.at)))
  }

  /** Step `op` puts `p`'s row into the queue. */
  predicate Inserts(jobs: Table, op: Op, p: int) { op.Upsert? && op.repositoryID == p && p !in jobs }

  /** Step `op` commits new work for `p`. */
  predicate NewWork(jobs: Table, op: Op, p: int) { Advances(jobs, op, p) || Inserts(jobs, op, p) }

  /** Steps from `i` up to `j` that advanced `p`'s row. */
  ghost function AdvanceCount(h: History, i: nat, j: nat, p: int): nat
    requires i <= j <= |h.ops| < |h.states|
    decreases j
  {
    if i == j then 0 else AdvanceCount(h, i, j - 1, p) + if Advances(h.states[j - 1], h.ops[j - 1], p) then 1 else 0
  }

  ghost predicate LockedAt(h: History, k: nat, p: int, t: Token) {
    k < |h.states| && p in h.states[k] && LockedBy(h.states[k][p], t)
  }

  /** Step `m` wrote the lock that `q`'s row has carried ever since, up to `j`. */
  ghost predicate LockSince(h: History, m: nat, j: nat, q: int, t: Token) {
    Locks(h, m, q, t) && m < j && forall k :: m < k <= j ==> LockedAt(h, k, q, t)
  }

  /** A lock is only ever written by the claim that carries its instant. */
  lemma LockComesFromClaim(jobs: Table, op: Op, p: int, t: Token)
    requires p in Apply(jobs, op) && LockedBy(Apply(jobs, op)[p], t)
    ensures (p in jobs && LockedBy(jobs[p], t))
         || (op.Claim? && op.id == t.id && op.at == t.lockedAt && p in jobs && Claims(jobs[p], op.id, op.generation, op.at))
  {
  }

  /** Every stored lock goes back, unbroken, to a claim of its row at its instant. */
  lemma {:induction false} LockGoesBack(h: History, j: nat, q: int, t: Token) returns (m: nat)
    requires Legal(h) && j <= |h.ops| && LockedAt(h, j, q, t)
    ensures LockSince(h, m, j, q, t)
  {
    LockComesFromClaim(h.states[j - 1], h.ops[j - 1], q, t);
    if LockedAt(h, j - 1, q, t) {
      m := LockGoesBack(h, j - 1, q, t);
    } else {
      m := j - 1;
    }
  }

  lemma StepGeneration(jobs: Table, op: Op, p: int)
    requires p in jobs && p in Apply(jobs, op)
    ensures Apply(jobs, op)[p].generation == jobs[p].generation + if Advances(jobs, op, p) then 1 else 0
    ensures Apply(jobs, op)[p].id == jobs[p].id
  {
  }

  /** While a row stays in the queue its id stays, and its generation counts the new work committed. */
  lemma {:induction false} GenerationCounts(h: History, i: nat, j: nat, q: int)
    requires Legal(h) && i <= j <= |h.ops| && forall k :: i <= k <= j ==> q in h.states[k]
    ensures h.states[j][q].generation == h.states[i][q].generation + AdvanceCount(h, i, j, q)
    ensures h.states[j][q].id == h.states[i][q].id
    decreases j
  {
    if i < j {
      GenerationCounts(h, i, j - 1, q);
      assert q in h.states[j - 1] && q in h.states[j];
      StepGeneration(h.states[j - 1], h.ops[j - 1], q);
    }
  }

  /** While a lock is kept, the generation is the claimed one plus the new work committed since. */
  lemma {:induction false} GenerationCountsNewWork(h: History, m: nat, j: nat, q: int, t: Token)
    requires Legal(h) && j <= |h.ops| && LockSince(h, m, j, q, t)
    ensures LockedAt(h, j, q, t)
    ensures h.states[j][q].generation == h.ops[m].generation + AdvanceCount(h, m + 1, j, q)
  {
    StepGeneration(h.states[m], h.ops[m], q);
    assert LockedAt(h, m + 1, q, t);
    forall k | m + 1 <= k <= j ensures q in h.states[k] { assert LockedAt(h, k, q, t); }
    GenerationCounts(h, m + 1, j, q);
  }

  /** The claim a token's completion really acts on: one that reaches the token's generation by `j`. */
  ghost predicate Serves(h: History, m: nat, j: nat, q: int, t: Token)
    requires j <= |h.ops| < |h.states|
  {
    LockSince(h, m, j, q, t) && h.ops[m].generation + AdvanceCount(h, m + 1, j, q) == t.generation
  }

  /**
   In every history, whatever its clock and row ids: a token matches a row
   exactly when some claim of that row, under the token's id and instant, has
   been locked since and has reached the token's generation.
   */
  lemma {:induction false} HeldIff(h: History, j: nat, t: Token)
    requires Legal(h) && j <= |h.ops|
    ensures AnyHeld(h.states[j], t) <==> exists m, q :: Serves(h, m, j, q, t)
  {
    if AnyHeld(h.states[j], t) {
      var q :| q in h.states[j] && HeldBy(h.states[j][q], t);
      var m := LockGoesBack(h, j, q, t);
      GenerationCountsNewWork(h, m, j, q, t);
      assert Serves(h, m, j, q, t);
    }
    if m: nat, q :| Serves(h, m, j, q, t) {
      GenerationCountsNewWork(h, m, j, q, t);
      assert LockedAt(h, j, q, t);
    }
  }

  /** The lock behind a token taken at step `i` is no older than `i`, and if it is that one, it is on the same row. */
  lemma {:induction false} LockNotOlder(h: History, i: nat, m: nat, j: nat, t: Token, p: int, q: int)
    requires Legal(h) && Took(h, i, t, p) && i < j <= |h.ops| && LockSince(h, m, j, q, t)
    ensures i <= m && (m == i ==> q == p)
  {
    AlwaysValid(h, i);
    assert m < i ==> LockedAt(h, i, q, t);
  }

  /**
   No new work is lost: unless the row id is claimed again at the same instant,
   a claim's completion deletes a row exactly when that row has carried the
   claim's lock ever since it was taken and nothing advanced it in between.
   */
  lemma {:induction false} DeletesIff(h: History, i: nat, j: nat, t: Token, p: int)
    requires Legal(h) && Took(h, i, t, p) && i < j <= |h.ops| && NotRetaken(h, i, j, t)
    ensures AnyHeld(h.states[j], t) <==> LockedAt(h, j, p, t) && AdvanceCount(h, i + 1, j, p) == 0
    ensures AnyHeld(h.states[j], t) ==> forall k :: i < k <= j ==> LockedAt(h, k, p, t)
    ensures DeleteHeld(h.states[j], t) == if AnyHeld(h.states[j], t) then h.states[j] - {p} else h.states[j]
  {
    var jobs := h.states[j];
    if LockedAt(h, j, p, t) { OwnLock(h, i, j, t, p, p); }
    forall q | q in jobs && HeldBy(jobs[q], t) ensures q == p {
      OwnLock(h, i, j, t, p, q);
    }
    NoneHeld(jobs, t, 0, "");
    if AnyHeld(jobs, t) {
      assert p in jobs && HeldBy(jobs[p], t);
      assert DeleteHeld(jobs, t) == jobs - {p};
    }
  }

  lemma {:induction false} OwnLock(h: History, i: nat, j: nat, t: Token, p: int, q: int)
    requires Legal(h) && Took(h, i, t, p) && i < j <= |h.ops| && NotRetaken(h, i, j, t) && LockedAt(h, j, q, t)
    ensures q == p && LockSince(h, i, j, p, t)
    ensures h.states[j][p].generation == t.generation + AdvanceCount(h, i + 1, j, p)
  {
    var m := LockGoesBack(h, j, q, t);
    LockNotOlder(h, i, m, j, t, p, q);
    assert i < m ==> Locks(h, m, q, t);
    GenerationCountsNewWork(h, i, j, p, t);
  }

  /**
   Completing or rescheduling a claim that no longer matches keeps every row,
   its generation, due time, attempts and last error, and frees only the
   claim's own lock.
   */
  lemma {:induction false} SupersededFreesOnlyItsLock(jobs: Table, t: Token, at: int, category: string)
    requires !AnyHeld(jobs, t)
    ensures Completed(jobs, t) == Rescheduled(jobs, t, at, category)
    ensures Completed(jobs, t).Keys == jobs.Keys
    ensures forall p :: p in jobs ==>
              Completed(jobs, t)[p] == if LockedBy(jobs[p], t) then jobs[p].(lockedAt := None) else jobs[p]
  {
    forall p | p in jobs && LockedBy(jobs[p], t) ensures jobs[p].generation != t.generation {
      assert !HeldBy(jobs[p], t);
    }
  }

  /**
   So new work committed after a claim, be it an enqueue that advances the row
   or inserts it again or a make-due, outlives that claim's completion.
   */
  lemma {:induction false} NewWorkOutlivesOldClaim(h: History, i: nat, k: nat, j: nat, t: Token, p: int)
    requires Legal(h) && Took(h, i, t, p) && i < k < j <= |h.ops| && NotRetaken(h, i, j, t)
    requires NewWork(h.states[k], h.ops[k], p)
    ensures !AnyHeld(h.states[j], t) && Completed(h.states[j], t).Keys == h.states[j].Keys
    ensures forall q :: q in h.states[j] ==>
              && Completed(h.states[j], t)[q].generation == h.states[j][q].generation
              && Completed(h.states[j], t)[q].runAt == h.states[j][q].runAt
  {
    DeletesIff(h, i, j, t, p);
    if Advances(h.states[k], h.ops[k], p) {
      CountIncludes(h, i + 1, k, j, p);
    } else {
      assert !LockedAt(h, k, p, t);
    }
    SupersededFreesOnlyItsLock(h.states[j], t, 0, "");
  }

  lemma {:induction false} CountIncludes(h: History, i: nat, k: nat, j: nat, p: int)
    requires i <= k < j <= |h.ops| < |h.states| && Advances(h.states[k], h.ops[k], p)
    ensures AdvanceCount(h, i, j, p) > 0
    decreases j
  {
    if k != j - 1 { CountIncludes(h, i, k, j - 1, p); }
  }

  // ------------------------------------------------------- exactly when work is lost

  /** At `j`, completing `t` would delete a row for which step `k` committed new work after `t` was taken. */
  ghost predicate LosesWork(h: History, i: nat, k: nat, j: nat, q: int, t: Token)
    requires j <= |h.ops| < |h.states|
  {
    i < k < j && q in h.states[j] && HeldBy(h.states[j][q], t) && NewWork(h.states[k], h.ops[k], q)
  }

  /** After step `i` the row of `q` was inserted again by `k`, and a later claim `m` under `t`'s id and instant serves `t`. */
  ghost predicate Reborn(h: History, i: nat, k: nat, m: nat, j: nat, q: int, t: Token)
    requires j <= |h.ops| < |h.states|
  {
    i < k < m < j && Inserts(h.states[k], h.ops[k], q) && Serves(h, m, j, q, t)
  }

  /** A row that is there at `m` and was never inserted from `i` on has been there all along. */
  lemma {:induction false} ThereAllAlong(h: History, i: nat, m: nat, q: int)
    requires Legal(h) && i <= m <= |h.ops| && q in h.states[m]
    requires forall k :: i <= k < m ==> !Inserts(h.states[k], h.ops[k], q)
    ensures forall k :: i <= k <= m ==> q in h.states[k]
    decreases m
  {
    if i < m {
      assert !Inserts(h.states[m - 1], h.ops[m - 1], q);
      assert q in h.states[m - 1];
      ThereAllAlong(h, i, m - 1, q);
    }
  }

  /** Without a re-insertion, the row that serves the token is the claimed one and nothing advanced it. */
  lemma {:induction false} SameRowNoNewWork(h: History, i: nat, m: nat, j: nat, t: Token, p: int, q: int)
    requires Legal(h) && Took(h, i, t, p) && i <= m < j <= |h.ops| && Serves(h, m, j, q, t)
    requires forall k :: i < k < m ==> !Inserts(h.states[k], h.ops[k], q)
    ensures forall k :: i <= k <= j ==> q in h.states[k]
    ensures AdvanceCount(h, i, j, q) == 0
  {
    AlwaysValid(h, i);
    ThereAllAlong(h, i, m, q);
    forall k | i <= k <= j ensures q in h.states[k] {
      if m < k { assert LockedAt(h, k, q, t); }
    }
    GenerationCounts(h, i, m, q);
    GenerationCounts(h, i, j, q);
    GenerationCountsNewWork(h, m, j, q, t);
  }

  /**
   The exact condition, for every history: completing a claim loses work that was
   committed after it if and only if a row was inserted again in between and a
   later claim of the same row id at the same instant has reached the
   completed claim's generation.
   */
  lemma {:induction false} LosesWorkIff(h: History, i: nat, j: nat, t: Token, p: int)
    requires Legal(h) && Took(h, i, t, p) && i < j <= |h.ops|
    ensures (exists k, q :: LosesWork(h, i, k, j, q, t)) <==> (exists k, m, q :: Reborn(h, i, k, m, j, q, t))
  {
    if k: nat, q :| LosesWork(h, i, k, j, q, t) {
      var m := LockGoesBack(h, j, q, t);
      GenerationCountsNewWork(h, m, j, q, t);
      LockNotOlder(h, i, m, j, t, p, q);
      if forall k :: i < k < m ==> !Inserts(h.states[k], h.ops[k], q) {
        SameRowNoNewWork(h, i, m, j, t, p, q);
        if Advances(h.states[k], h.ops[k], q) { CountIncludes(h, i, k, j, q); }
        assert false;
      }
      var k' :| i < k' < m && Inserts(h.states[k'], h.ops[k'], q);
      assert Reborn(h, i, k', m, j, q, t);
    }
    if k: nat, m: nat, q :| Reborn(h, i, k, m, j, q, t) {
      GenerationCountsNewWork(h, m, j, q, t);
      assert LockedAt(h, j, q, t);
      assert LosesWork(h, i, k, j, q, t);
    }
  }

  /** No row is inserted under an id that was in use at any earlier time. */
  ghost predicate FreshIDs(h: History) {
    forall i: nat, k: nat :: i <= k < |h.ops| < |h.states| && h.ops[k].Upsert? && Inserts(h.states[k], h.ops[k], h.ops[k].repositoryID) ==>
      !IDTaken(h.states[i], h.ops[k].freshID)
  }

  /** No two claims name the same row id and instant, as when every claim's clock is ahead of the one before. */
  ghost predicate InstantsDiffer(h: History) {
    forall i: nat, m: nat :: i < m < |h.ops| && h.ops[i].Claim? && h.ops[m].Claim? && h.ops[i].id == h.ops[m].id ==>
      h.ops[i].at != h.ops[m].at
  }

  /** The last insertion of a row gave it the id it still has. */
  lemma {:induction false} LastInsert(h: History, k: nat, m: nat, q: int) returns (last: nat)
    requires Legal(h) && k < m <= |h.ops| && Inserts(h.states[k], h.ops[k], q) && q in h.states[m]
    ensures k <= last < m && Inserts(h.states[last], h.ops[last], q) && h.states[m][q].id == h.ops[last].freshID
    decreases m
  {
    if Inserts(h.states[m - 1], h.ops[m - 1], q) {
      last := m - 1;
    } else {
      assert q in h.states[m - 1];
      StepGeneration(h.states[m - 1], h.ops[m - 1], q);
      last := LastInsert(h, k, m - 1, q);
    }
  }

  /** Row ids that are never used again rule a loss out, whatever the clock does. */
  lemma {:induction false} FreshIDsLoseNothing(h: History, i: nat, j: nat, t: Token, p: int)
    requires Legal(h) && FreshIDs(h) && Took(h, i, t, p) && i < j <= |h.ops|
    ensures forall k, q :: !LosesWork(h, i, k, j, q, t)
  {
    LosesWorkIff(h, i, j, t, p);
    if k: nat, m: nat, q :| Reborn(h, i, k, m, j, q, t) {
      assert Locks(h, m, q, t);
      var last := LastInsert(h, k, m, q);
      assert IDTaken(h.states[i], t.id);
      assert false;
    }
  }

  /** So does a clock under which no two claims of a row id share an instant, whatever ids are used again. */
  lemma {:induction false} DifferingInstantsLoseNothing(h: History, i: nat, j: nat, t: Token, p: int)
    requires Legal(h) && InstantsDiffer(h) && Took(h, i, t, p) && i < j <= |h.ops|
    ensures forall k, q :: !LosesWork(h, i, k, j, q, t)
  {
    LosesWorkIff(h, i, j, t, p);
    if k: nat, m: nat, q :| Reborn(h, i, k, m, j, q, t) {
      assert false;
    }
  }

  /**
   It can happen, if the clock steps back: a lease expires, another worker
   finishes the job and deletes the row, the repository is enqueued again under
   the reused row id and claimed at the first claim's very instant.
   */
  lemma {:induction false} EqualInstantsLoseWork() returns (h: History, t: Token)
    ensures Legal(h) && |h.ops| == 6 && Took(h, 1, t, 1) && LosesWork(h, 1, 4, 6, 1, t) && Reborn(h, 1, 4, 5, 6, 1, t)
    ensures 1 in h.states[6] && 1 !in DeleteHeld(h.states[6], t)
    ensures forall k :: 0 <= k < 6 ==> h.ops[k].Upsert? || h.ops[k].Claim? || h.ops[k].Delete?
  {
    t := Token(7, 1, 1, 5, 1);
    var enqueue, claim := Upsert(1, 5, true, "", 7), Claim(7, 1, 5);
    var again, finish := Claim(7, 1, 6 + LEASE), Delete(Token(7, 1, 1, 6 + LEASE, 2));
    var s1 := Apply(map[], enqueue);
    var s2 := Apply(s1, claim);
    var s3 := Apply(s2, again);
    var s4 := Apply(s3, finish);
    assert s3[1] == Row(7, 1, 5, Some(6 + LEASE), 2, "") && 1 !in s4;
    var s5 := Apply(s4, enqueue);
    var s6 := Apply(s5, claim);
    assert forall p :: p !in s4;
    h := History([enqueue, claim, again, finish, enqueue, claim], [map[], s1, s2, s3, s4, s5, s6]);
    assert Legal(h);
    assert LockSince(h, 5, 6, 1, t);
    assert AdvanceCount(h, 6, 6, 1) == 0;
  }

  // -------------------------------------------------------------- current claims

  /**
   Two claims of one row id are both current only when they name the same
   generation and the same instant, which makes them one claim to the store.
   */
  lemma {:induction false} AtMostOneCurrent(jobs: Table, t: Token, t': Token, now: int)
    requires Valid(jobs) && t.id == t'.id
    ensures Current(jobs, t, now) && Current(jobs, t', now)
       <==> Current(jobs, t, now) && t.generation == t'.generation && t.lockedAt == t'.lockedAt
  {
    if q :| q in jobs && HeldBy(jobs[q], t) {
      if q' :| q' in jobs && HeldBy(jobs[q'], t') { assert q == q'; }
    }
  }

  /** So of two claims taken in turn at different instants, the store honours at most one. */
  lemma {:induction false} LaterClaimReplaces(h: History, i: nat, m: nat, j: nat, t: Token, t': Token, p: int, q: int, now: int)
    requires Legal(h) && Took(h, i, t, p) && Took(h, m, t', q) && i < m < j <= |h.ops| && t.id == t'.id
    requires NotRetaken(h, i, j, t)
    ensures !(Current(h.states[j], t, now) && Current(h.states[j], t', now))
  {
    AlwaysValid(h, j);
    AtMostOneCurrent(h.states[j], t, t', now);
    assert t'.lockedAt == t.lockedAt ==> Locks(h, m, q, t);
  }

  /** A current claim keeps every other worker out until its lease runs out. */
  lemma {:induction false} CurrentExcludesClaims(jobs: Table, t: Token, now: int, generation: int)
    requires Valid(jobs) && Current(jobs, t, now)
    ensures ClaimRow(jobs, t.id, generation, now) == jobs
    ensures forall p :: p in jobs && jobs[p].id == t.id ==> DueNow(jobs, p, now) == jobs
  {
    var q :| q in jobs && HeldBy(jobs[q], t) && t.lockedAt > now - LEASE;
    forall p | p in jobs && jobs[p].id == t.id ensures p == q && !Free(jobs[p], now) {}
    forall p | p in jobs ensures !Claims(jobs[p], t.id, generation, now) {}
    assert ClaimRow(jobs, t.id, generation, now) == jobs;
  }

  // ---------------------------------------------------------------- claimability

  /** The instant a step sampled, if it writes one. */
  function Stamp(op: Op): Option<int> {
    match op
    case Upsert(_, at, _, _, _) => Some(at)
    case Claim(_, _, at) => Some(at)
    case Reschedule(_, at, _) => Some(at)
    case MakeDue(_, at) => Some(at)
    case _ => None
  }

  ghost predicate StampedBy(h: History, now: int) {
    forall k :: 0 <= k < |h.ops| && Stamp(h.ops[k]).Some? ==> Stamp(h.ops[k]).value <= now
  }

  ghost predicate Bounded(jobs: Table, now: int) {
    forall p :: p in jobs ==>
      jobs[p].runAt <= now + LONGEST_DELAY && (jobs[p].lockedAt.Some? ==> jobs[p].lockedAt.value <= now)
  }

  lemma {:induction false} TimesStayBounded(h: History, k: nat, now: int)
    requires Legal(h) && StampedBy(h, now) && k <= |h.ops|
    ensures Bounded(h.states[k], now)
  {
    if k > 0 {
      TimesStayBounded(h, k - 1, now);
      assert Stamp(h.ops[k - 1]).Some? ==> Stamp(h.ops[k - 1]).value <= now;
    }
  }

  /**
   In every reachable state each job can be claimed fifteen minutes after the
   latest sampled instant, whatever claims are outstanding: due times and lock
   times never run ahead of that.
   */
  lemma {:induction false} ClaimableWithinFifteenMinutes(h: History, k: nat, now: int, at: int, p: int)
    requires Legal(h) && StampedBy(h, now) && k <= |h.ops| && at >= now + LONGEST_DELAY && p in h.states[k]
    ensures Due(h.states[k][p], at)
    ensures ClaimRow(h.states[k], h.states[k][p].id, h.states[k][p].generation, at)[p].lockedAt == Some(at)
  {
    TimesStayBounded(h, k, now);
  }
}
