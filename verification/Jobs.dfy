/**
 The reconciliation queue: one row per repository, a generation that new work
 advances, and a lease that a claim takes. Every SQL statement is one step.
 */
module Jobs {
  import opened Wrappers

  /** Timestamps count nanoseconds, the precision of the stored format. */
  const SECOND: int := 1_000_000_000
  const LEASE: int := 120 * SECOND
  const LONGEST_DELAY: int := 900 * SECOND

  datatype Row = Row(
    id: int, generation: int, runAt: int, lockedAt: Option<int>, attempts: int, lastError: string)

  /** What a worker holds after a claim; the generation and lock instant are the claim's identity. */
  datatype Token = Token(id: int, repositoryID: int, generation: int, lockedAt: int, attempts: int)

  type Table = map<int, Row>

  predicate ValidCategory(category: string) {
    category in [
      "readiness checks failed", "controlled setup status post failed",
      "open pull request synchronization failed", "status decision evaluation failed",
      "status publication failed", "runtime enforcement convergence failed"]
  }

  function RetryDelay(attempt: int): (delay: int)
    ensures 0 < delay <= LONGEST_DELAY
  {
    match attempt
    case 1 => 15 * SECOND
    case 2 => 30 * SECOND
    case 3 => 60 * SECOND
    case 4 => 120 * SECOND
    case 5 => 240 * SECOND
    case 6 => 480 * SECOND
    case _ => 900 * SECOND
  }

  // ------------------------------------------------------- statements on rows

  /** No lease, or one that has expired by `at`. */
  predicate Free(row: Row, at: int) { row.lockedAt.None? || row.lockedAt.value < at - LEASE }

  predicate Due(row: Row, at: int) { row.runAt <= at && Free(row, at) }

  predicate LeaseActive(row: Row, at: int) { row.lockedAt.Some? && row.lockedAt.value > at - LEASE }

  predicate Claims(row: Row, id: int, generation: int, at: int) {
    row.id == id && row.generation == generation && Due(row, at)
  }

  /** The exact generation and lease the token names. */
  predicate HeldBy(row: Row, t: Token) {
    row.id == t.id && row.generation == t.generation && row.lockedAt == Some(t.lockedAt)
  }

  predicate LockedBy(row: Row, t: Token) { row.id == t.id && row.lockedAt == Some(t.lockedAt) }

  predicate IDTaken(jobs: Table, id: int) { exists p :: p in jobs && jobs[p].id == id }

  function UpsertRow(jobs: Table, p: int, at: int, advance: bool, category: string, freshID: int): Table {
    if p !in jobs then jobs[p := Row(freshID, 1, at, None, 0, category)]
    else
      var row := jobs[p];
      jobs[p := row.(
        generation := if advance then row.generation + 1 else row.generation, runAt := at,
        lastError := if category != "" then category else row.lastError)]
  }

  function ClaimRow(jobs: Table, id: int, generation: int, at: int): Table {
    map p | p in jobs ::
      if Claims(jobs[p], id, generation, at)
      then jobs[p].(lockedAt := Some(at), attempts := jobs[p].attempts + 1) else jobs[p]
  }

  function DeleteHeld(jobs: Table, t: Token): Table {
    map p | p in jobs && !HeldBy(jobs[p], t) :: jobs[p]
  }

  function RescheduleHeld(jobs: Table, t: Token, at: int, category: string): Table {
    map p | p in jobs ::
      if HeldBy(jobs[p], t)
      then jobs[p].(lockedAt := None, runAt := at + RetryDelay(t.attempts), lastError := category) else jobs[p]
  }

  function ReleaseSuperseded(jobs: Table, t: Token): Table {
    map p | p in jobs ::
      if LockedBy(jobs[p], t) && jobs[p].generation != t.generation
      then jobs[p].(lockedAt := None) else jobs[p]
  }

  function DueNow(jobs: Table, p: int, at: int): Table {
    if p in jobs && Free(jobs[p], at)
    then jobs[p := jobs[p].(generation := jobs[p].generation + 1, runAt := at)] else jobs
  }

  predicate AnyHeld(jobs: Table, t: Token) { exists p :: p in jobs && HeldBy(jobs[p], t) }

  predicate ValidToken(t: Token) {
    t.id > 0 && t.repositoryID > 0 && t.generation > 0 && t.attempts > 0
  }

  /** Keys: one row per repository by construction, and no id shared. */
  ghost predicate Valid(jobs: Table) {
    && (forall p :: p in jobs ==> p > 0 && jobs[p].id > 0 && jobs[p].generation >= 1 && jobs[p].attempts >= 0)
    && (forall p, q :: p in jobs && q in jobs && jobs[p].id == jobs[q].id ==> p == q)
  }

  // ----------------------------------------------------------------- the store

  datatype Outcome = Refused | InProgress | Done

  class Store {
    var jobs: Table

    constructor ()
      ensures jobs == map[]
    {
      jobs := map[];
    }

    /** `freshID` is whatever row id the database hands out; ids of deleted rows may come back. */
    method UpsertReconciliation(p: int, advance: bool, category: string, now: int, freshID: int) returns (outcome: Outcome)
      requires Valid(jobs) && freshID > 0 && !IDTaken(jobs, freshID)
      modifies this
      ensures Valid(jobs)
      ensures outcome == if p <= 0 || (category != "" && !ValidCategory(category)) then Refused else Done
      ensures jobs == if outcome == Done then UpsertRow(old(jobs), p, now, advance, category, freshID) else old(jobs)
    {
      if p <= 0 { return Refused; }
      if category != "" && !ValidCategory(category) { return Refused; }
      WriteRow(p, advance, category, now, freshID);
      outcome := Done;
    }

    method WriteRow(p: int, advance: bool, category: string, now: int, freshID: int)
      requires Valid(jobs) && p > 0 && freshID > 0 && !IDTaken(jobs, freshID)
      modifies this
      ensures Valid(jobs) && jobs == UpsertRow(old(jobs), p, now, advance, category, freshID)
    {
      if p in jobs {
        var row := jobs[p];
        if advance { row := row.(generation := row.generation + 1); }
        row := row.(runAt := now);
        if category != "" { row := row.(lastError := category); }
        jobs := jobs[p := row];
      } else {
        jobs := jobs[p := Row(freshID, 1, now, None, 0, category)];
      }
    }

    /** The guarded update that takes a lease, from a candidate read earlier and perhaps stale. */
    method Claim(p: int, candidate: Row, now: int) returns (claimed: Option<Token>)
      requires Valid(jobs)
      modifies this
      ensures Valid(jobs) && jobs == ClaimRow(old(jobs), candidate.id, candidate.generation, now)
      ensures claimed.Some? <==> exists q :: q in old(jobs) && Claims(old(jobs)[q], candidate.id, candidate.generation, now)
      ensures claimed.Some? ==>
                claimed.value == Token(candidate.id, p, candidate.generation, now, candidate.attempts + 1)
    {
      var affected := exists q :: q in jobs && Claims(jobs[q], candidate.id, candidate.generation, now);
      jobs := map q | q in jobs ::
        if Claims(jobs[q], candidate.id, candidate.generation, now)
        then jobs[q].(lockedAt := Some(now), attempts := jobs[q].attempts + 1) else jobs[q];
      if !affected { return None; }
      claimed := Some(Token(candidate.id, p, candidate.generation, now, candidate.attempts + 1));
    }

    /** Reads and claims back to back: the guard then never fails on a row seen due. */
    method ClaimRepository(p: int, now: int) returns (claimed: Option<Token>)
      requires Valid(jobs)
      modifies this
      ensures Valid(jobs)
      ensures claimed.Some? <==> p in old(jobs) && Due(old(jobs)[p], now)
      ensures claimed.Some? ==>
                && claimed.value == Token(old(jobs)[p].id, p, old(jobs)[p].generation, now, old(jobs)[p].attempts + 1)
                && jobs == old(jobs)[p := old(jobs)[p].(lockedAt := Some(now), attempts := old(jobs)[p].attempts + 1)]
      ensures claimed.None? ==> jobs == old(jobs)
    {
      if p !in jobs { return None; }
      var job := jobs[p];
      if job.runAt > now || LeaseActive(job, now) { return None; }
      if Due(job, now) { ClaimOne(jobs, p, now); } else { ClaimNone(jobs, p, now); }
      claimed := Claim(p, job, now);
    }

    method ClaimCurrent(t: Token, now: int) returns (current: bool)
      ensures current <==> ValidToken(t) && Current(jobs, t, now)
    {
      if !ValidToken(t) { return false; }
      current := exists p :: p in jobs && HeldBy(jobs[p], t) && t.lockedAt > now - LEASE;
    }

    method CompleteClaim(t: Token) returns (deleted: bool)
      requires Valid(jobs)
      modifies this
      ensures Valid(jobs)
      ensures deleted <==> ValidToken(t) && AnyHeld(old(jobs), t)
      ensures jobs == if ValidToken(t) then Completed(old(jobs), t) else old(jobs)
    {
      if !ValidToken(t) { return false; }
      deleted := AnyHeld(jobs, t);
      NoneHeld(jobs, t, 0, "");
      jobs := DeleteHeld(jobs, t);
      if !deleted { jobs := ReleaseSuperseded(jobs, t); }
    }

    method RescheduleClaim(t: Token, category: string, now: int) returns (rescheduled: bool)
      requires Valid(jobs)
      modifies this
      ensures Valid(jobs)
      ensures rescheduled <==> ValidToken(t) && ValidCategory(category) && AnyHeld(old(jobs), t)
      ensures jobs == if ValidToken(t) && ValidCategory(category) then Rescheduled(old(jobs), t, now, category) else old(jobs)
    {
      if !ValidToken(t) || !ValidCategory(category) { return false; }
      rescheduled := AnyHeld(jobs, t);
      NoneHeld(jobs, t, now, category);
      jobs := RescheduleHeld(jobs, t, now, category);
      if !rescheduled { jobs := ReleaseSuperseded(jobs, t); }
    }

    method MakeDueNow(p: int, now: int, freshID: int) returns (outcome: Outcome)
      requires Valid(jobs) && freshID > 0 && !IDTaken(jobs, freshID)
      modifies this
      ensures Valid(jobs)
      ensures outcome == if p <= 0 then Refused else if p in old(jobs) && !Free(old(jobs)[p], now) then InProgress else Done
      ensures jobs == if p <= 0 then old(jobs)
                      else if p in old(jobs) then DueNow(old(jobs), p, now)
                      else UpsertRow(old(jobs), p, now, true, "", freshID)
    {
      if p <= 0 { return Refused; }
      if p in jobs && Free(jobs[p], now) {
        jobs := jobs[p := jobs[p].(generation := jobs[p].generation + 1, runAt := now)];
        return Done;
      }
      if p in jobs { return InProgress; }
      outcome := UpsertReconciliation(p, true, "", now, freshID);
    }

    method RemoveReconciliation(p: int)
      requires Valid(jobs)
      modifies this
      ensures Valid(jobs) && jobs == old(jobs) - {p}
    {
      jobs := jobs - {p};
    }

    /** The due rows in order of due time then id, as many as the limit allows. */
    method SelectDue(limit: int, now: int) returns (candidates: seq<int>)
      requires Valid(jobs)
      ensures IsSelection(jobs, now, EffectiveLimit(limit), candidates)
    {
      var rest := set p | p in jobs && Due(jobs[p], now);
      ghost var due := rest;
      candidates := [];
      while rest != {} && |candidates| < EffectiveLimit(limit)
        invariant rest <= due && (forall p :: p in due <==> p in jobs && Due(jobs[p], now))
        invariant |candidates| <= EffectiveLimit(limit)
        invariant forall p :: p in due <==> p in rest || p in candidates
        invariant forall p :: p in candidates ==> p !in rest
        invariant SelectedInOrder(jobs, candidates)
        invariant forall p, q :: p in candidates && q in rest ==> Before(jobs[p], jobs[q])
        decreases |rest|
      {
        var next := FirstDue(rest);
        rest := rest - {next};
        SelectionGrows(jobs, candidates, next);
        candidates := candidates + [next];
      }
    }

    method FirstDue(rest: set<int>) returns (first: int)
      requires Valid(jobs) && rest != {} && forall p :: p in rest ==> p in jobs
      ensures first in rest && forall p :: p in rest && p != first ==> Before(jobs[first], jobs[p])
    {
      first := Pick(rest);
      var others := rest - {first};
      while others != {}
        invariant others <= rest && first in rest && first !in others
        invariant forall p :: p in rest && p !in others && p != first ==> Before(jobs[first], jobs[p])
        decreases |others|
      {
        var p := Pick(others);
        others := others - {p};
        if Before(jobs[p], jobs[first]) { first := p; }
      }
    }

    method ClaimCandidates(candidates: seq<int>, rows: seq<Row>, now: int) returns (claimed: seq<Token>)
      requires Valid(jobs) && |rows| == |candidates| && Distinct(candidates)
      requires forall p :: p in candidates ==> p in jobs && Due(jobs[p], now)
      requires forall i :: 0 <= i < |rows| ==> candidates[i] in jobs && rows[i] == jobs[candidates[i]]
      modifies this
      ensures Valid(jobs) && claimed == TokensFor(old(jobs), candidates, now)
      ensures jobs == ClaimedAll(old(jobs), candidates, now)
    {
      claimed := [];
      ClaimedNone(jobs, now);
      for i := 0 to |candidates|
        invariant claimed == TokensFor(old(jobs), candidates[..i], now)
        invariant jobs == ClaimedAll(old(jobs), candidates[..i], now)
      {
        var p := candidates[i];
        NextClaim(old(jobs), candidates, i, now);
        var token := Claim(p, rows[i], now);
        claimed := claimed + [token.value];
      }
      ClaimedAllValid(old(jobs), candidates, now);
      assert candidates[..|candidates|] == candidates;
    }

    /** Selects and claims back to back; a concurrent step in between is `Claim` on a stale candidate. */
    method ClaimDue(limit: int, now: int) returns (claimed: seq<Token>)
      requires Valid(jobs)
      modifies this
      ensures Valid(jobs)
      ensures exists selected :: IsSelection(old(jobs), now, EffectiveLimit(limit), selected)
                                 && claimed == TokensFor(old(jobs), selected, now)
                                 && jobs == ClaimedAll(old(jobs), selected, now)
    {
      var candidates := SelectDue(limit, now);
      var rows := [];
      for i := 0 to |candidates|
        invariant |rows| == i && jobs == old(jobs)
        invariant forall j :: 0 <= j < i ==> candidates[j] in jobs && rows[j] == jobs[candidates[j]]
      {
        assert candidates[i] in candidates;
        rows := rows + [jobs[candidates[i]]];
      }
      SelectionDistinct(jobs, candidates);
      claimed := ClaimCandidates(candidates, rows, now);
    }
  }

  ghost predicate Distinct(s: seq<int>) { forall i, j :: 0 <= i < j < |s| ==> s[i] != s[j] }

  lemma {:induction false} SelectionDistinct(jobs: Table, selected: seq<int>)
    requires SelectedInOrder(jobs, selected)
    ensures Distinct(selected)
  {
    forall i, j | 0 <= i < j < |selected| ensures selected[i] != selected[j] {
      assert Before(jobs[selected[i]], jobs[selected[j]]);
    }
  }

  lemma NextCandidate(s: seq<int>, i: nat)
    requires i < |s| && Distinct(s)
    ensures s[i] !in s[..i] && s[..i + 1] == s[..i] + [s[i]] && s[i] in s && forall p :: p in s[..i] ==> p in s
  {
  }

  lemma ClaimedNone(jobs: Table, now: int)
    ensures ClaimedAll(jobs, [], now) == jobs
  {
  }

  lemma ClaimedAllValid(jobs: Table, selected: seq<int>, now: int)
    requires Valid(jobs)
    ensures Valid(ClaimedAll(jobs, selected, now))
  {
  }

  /** A row not yet claimed in this round is as it was read, so its guard holds. */
  lemma {:induction false} StillAsRead(jobs: Table, selected: seq<int>, p: int, now: int)
    requires p in jobs && p !in selected && Due(jobs[p], now)
    ensures var before := ClaimedAll(jobs, selected, now);
            && p in before && before[p] == jobs[p]
            && Claims(before[p], jobs[p].id, jobs[p].generation, now)
  {
  }

  lemma {:induction false} ClaimedAllGrows(jobs: Table, selected: seq<int>, p: int, now: int)
    requires p in jobs && p !in selected
    ensures ClaimedAll(jobs, selected + [p], now)
         == ClaimedAll(jobs, selected, now)[p := jobs[p].(lockedAt := Some(now), attempts := jobs[p].attempts + 1)]
  {
  }

  /** Claiming one candidate leaves the others as they were read. */
  lemma {:induction false} ClaimNext(jobs: Table, selected: seq<int>, p: int, now: int)
    requires Valid(jobs) && p in jobs && p !in selected && Due(jobs[p], now)
    ensures ClaimRow(ClaimedAll(jobs, selected, now), jobs[p].id, jobs[p].generation, now)
         == ClaimedAll(jobs, selected + [p], now)
  {
    var before := ClaimedAll(jobs, selected, now);
    ClaimedAllValid(jobs, selected, now);
    StillAsRead(jobs, selected, p, now);
    ClaimOne(before, p, now);
    ClaimedAllGrows(jobs, selected, p, now);
  }

  lemma {:induction false} NextToken(jobs: Table, selected: seq<int>, p: int, now: int)
    requires p in jobs && forall q :: q in selected ==> q in jobs
    ensures TokensFor(jobs, selected + [p], now)
         == TokensFor(jobs, selected, now) + [Token(jobs[p].id, p, jobs[p].generation, now, jobs[p].attempts + 1)]
  {
    assert (selected + [p])[..|selected|] == selected;
  }

  /** One turn of the claim loop: the guard holds, and table and tokens grow by the candidate. */
  lemma {:induction false} NextClaim(jobs: Table, candidates: seq<int>, i: nat, now: int)
    requires Valid(jobs) && Distinct(candidates) && i < |candidates|
    requires forall p :: p in candidates ==> p in jobs && Due(jobs[p], now)
    ensures var p, before := candidates[i], ClaimedAll(jobs, candidates[..i], now);
            && Valid(before) && p in before && Claims(before[p], jobs[p].id, jobs[p].generation, now)
            && ClaimRow(before, jobs[p].id, jobs[p].generation, now) == ClaimedAll(jobs, candidates[..i + 1], now)
            && TokensFor(jobs, candidates[..i + 1], now) == TokensFor(jobs, candidates[..i], now)
                 + [Token(jobs[p].id, p, jobs[p].generation, now, jobs[p].attempts + 1)]
  {
    NextCandidate(candidates, i);
    ClaimedAllValid(jobs, candidates[..i], now);
    StillAsRead(jobs, candidates[..i], candidates[i], now);
    ClaimNext(jobs, candidates[..i], candidates[i], now);
    NextToken(jobs, candidates[..i], candidates[i], now);
  }

  predicate Before(a: Row, b: Row) { a.runAt < b.runAt || (a.runAt == b.runAt && a.id < b.id) }

  function EffectiveLimit(limit: int): nat { if limit <= 0 || limit > 100 then 25 else limit }

  ghost predicate SelectedInOrder(jobs: Table, selected: seq<int>) {
    && (forall i :: 0 <= i < |selected| ==> selected[i] in jobs)
    && (forall i, j :: 0 <= i < j < |selected| ==> Before(jobs[selected[i]], jobs[selected[j]]))
  }

  lemma SelectionGrows(jobs: Table, selected: seq<int>, next: int)
    requires SelectedInOrder(jobs, selected) && next in jobs
    requires forall p :: p in selected ==> p in jobs && Before(jobs[p], jobs[next])
    ensures SelectedInOrder(jobs, selected + [next])
  {
    var grown := selected + [next];
    assert forall i :: 0 <= i < |selected| ==> grown[i] == selected[i] && selected[i] in selected;
  }

  /** The earliest due rows, in order, and all of them when they fit the limit. */
  ghost predicate IsSelection(jobs: Table, now: int, limit: nat, selected: seq<int>) {
    && |selected| <= limit && SelectedInOrder(jobs, selected)
    && (forall p :: p in selected ==> p in jobs && Due(jobs[p], now))
    && (forall q :: q in jobs && Due(jobs[q], now) && q !in selected ==>
          |selected| == limit && forall p :: p in selected ==> Before(jobs[p], jobs[q]))
  }

  ghost function TokensFor(jobs: Table, selected: seq<int>, now: int): (tokens: seq<Token>)
    requires forall p :: p in selected ==> p in jobs
  {
    if selected == [] then []
    else
      var p := selected[|selected| - 1];
      var row := jobs[p];
      TokensFor(jobs, selected[..|selected| - 1], now) + [Token(row.id, p, row.generation, now, row.attempts + 1)]
  }

  ghost function ClaimedAll(jobs: Table, selected: seq<int>, now: int): Table {
    map p | p in jobs ::
      if p in selected then jobs[p].(lockedAt := Some(now), attempts := jobs[p].attempts + 1) else jobs[p]
  }

  lemma ClaimOne(jobs: Table, p: int, now: int)
    requires Valid(jobs) && p in jobs && Due(jobs[p], now)
    ensures ClaimRow(jobs, jobs[p].id, jobs[p].generation, now)
         == jobs[p := jobs[p].(lockedAt := Some(now), attempts := jobs[p].attempts + 1)]
  {
    var after := ClaimRow(jobs, jobs[p].id, jobs[p].generation, now);
    forall q | q in jobs ensures after[q] == if q == p then jobs[p].(lockedAt := Some(now), attempts := jobs[p].attempts + 1) else jobs[q] {
      assert q != p ==> jobs[q].id != jobs[p].id;
    }
  }

  /** A row read due by the looser test of the reader but locked exactly one lease ago is left alone. */
  lemma ClaimNone(jobs: Table, p: int, now: int)
    requires Valid(jobs) && p in jobs && !Due(jobs[p], now)
    ensures ClaimRow(jobs, jobs[p].id, jobs[p].generation, now) == jobs
    ensures !exists q :: q in jobs && Claims(jobs[q], jobs[p].id, jobs[p].generation, now)
  {
    forall q | q in jobs ensures !Claims(jobs[q], jobs[p].id, jobs[p].generation, now) {
      assert q != p ==> jobs[q].id != jobs[p].id;
    }
    assert ClaimRow(jobs, jobs[p].id, jobs[p].generation, now) == jobs;
  }

  lemma NoneHeld(jobs: Table, t: Token, at: int, category: string)
    ensures !AnyHeld(jobs, t) ==> DeleteHeld(jobs, t) == jobs && RescheduleHeld(jobs, t, at, category) == jobs
  {
    if !AnyHeld(jobs, t) {
      assert forall p :: p in jobs ==> !HeldBy(jobs[p], t);
      assert DeleteHeld(jobs, t) == jobs;
      assert RescheduleHeld(jobs, t, at, category) == jobs;
    }
  }

  predicate Current(jobs: Table, t: Token, now: int) {
    exists p :: p in jobs && HeldBy(jobs[p], t) && t.lockedAt > now - LEASE
  }

  function Completed(jobs: Table, t: Token): Table {
    if AnyHeld(jobs, t) then DeleteHeld(jobs, t) else ReleaseSuperseded(jobs, t)
  }

  function Rescheduled(jobs: Table, t: Token, at: int, category: string): Table {
    if AnyHeld(jobs, t) then RescheduleHeld(jobs, t, at, category) else ReleaseSuperseded(jobs, t)
  }
}
