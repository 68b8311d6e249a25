/**
 Run rows across every transaction: at most one unfinished run and it is the
 newest, at most three rows, the newest completed run never discarded.
 */
module ShadowRuns {
  import opened Wrappers
  import opened ShadowAccess

  ghost predicate Ascending(runs: seq<Run>) { forall i, j :: 0 <= i < j < |runs| ==> runs[i].id < runs[j].id }

  function Terminals(runs: seq<Run>): seq<Run> {
    if runs != [] && Unfinished(runs[|runs| - 1]) then runs[..|runs| - 1] else runs
  }

  /** Terminal rows are at most the newest completed run and one later failure; a running row comes last. */
  ghost predicate Shape(runs: seq<Run>) {
    var ended := Terminals(runs);
    && Ascending(runs) && (forall i :: 0 <= i < |runs| ==> runs[i].id > 0)
    && (forall i :: 0 <= i < |ended| ==> !Unfinished(ended[i]))
    && |ended| <= 2 && (|ended| == 2 ==> IsComplete(ended[0]) && !IsComplete(ended[1]))
  }

  /** What retention makes of ended rows followed by one just ended. */
  function AfterEnding(ended: seq<Run>, r: Run): seq<Run> {
    if IsComplete(r) || ended == [] || !IsComplete(ended[0]) then [r] else [ended[0], r]
  }

  lemma {:induction false} EndRunAbsent(runs: seq<Run>, id: int, code: Code, counts: Option<Counts>, at: int)
    requires forall i :: 0 <= i < |runs| ==> runs[i].id != id
    ensures EndRun(runs, id, code, counts, at) == runs
  {
    if runs != [] { EndRunAbsent(runs[..|runs| - 1], id, code, counts, at); }
  }

  lemma EndRunLast(runs: seq<Run>, code: Code, counts: Option<Counts>, at: int)
    requires Ascending(runs) && runs != [] && Unfinished(runs[|runs| - 1])
    ensures var last := runs[|runs| - 1];
            EndRun(runs, last.id, code, counts, at) == runs[..|runs| - 1] + [Ended(last, code, counts, at)]
  {
    EndRunAbsent(runs[..|runs| - 1], runs[|runs| - 1].id, code, counts, at);
  }

  lemma {:induction false} KeepOne(r: Run, terminal: int, complete: int)
    ensures KeepRuns([r], terminal, complete)
         == if Unfinished(r) || r.id == terminal || r.id == complete then [r] else []
  {
    assert [r][..0] == [];
  }

  lemma {:induction false} KeepSnoc(runs: seq<Run>, r: Run, terminal: int, complete: int)
    ensures KeepRuns(runs + [r], terminal, complete)
         == KeepRuns(runs, terminal, complete)
            + if Unfinished(r) || r.id == terminal || r.id == complete then [r] else []
  {
    assert (runs + [r])[..|runs|] == runs;
  }

  lemma {:induction false} KeepNothing(runs: seq<Run>, terminal: int, complete: int)
    requires forall i :: 0 <= i < |runs| ==> !Unfinished(runs[i]) && runs[i].id != terminal && runs[i].id != complete
    ensures KeepRuns(runs, terminal, complete) == []
  {
    if runs != [] { KeepNothing(runs[..|runs| - 1], terminal, complete); }
  }

  lemma {:induction false} LastsOf(ended: seq<Run>, r: Run)
    requires !Unfinished(r)
    ensures LastTerminal(ended + [r]) == r.id
    ensures LastComplete(ended + [r]) == if IsComplete(r) then r.id else LastComplete(ended)
  {
    assert (ended + [r])[..|ended|] == ended;
  }

  lemma {:induction false} LastCompleteOfEnded(ended: seq<Run>)
    requires |ended| <= 2 && (|ended| == 2 ==> IsComplete(ended[0]) && !IsComplete(ended[1]))
    ensures LastComplete(ended) == if ended != [] && IsComplete(ended[0]) then ended[0].id else 0
  {
    if |ended| == 1 { assert ended[..0] == []; }
    if |ended| == 2 { assert ended[..1] == [ended[0]]; assert ended[..1][..0] == []; }
  }

  lemma RetainedAfter(ended: seq<Run>, r: Run)
    requires !Unfinished(r) && r.id > 0 && |ended| <= 2 && (|ended| == 2 ==> IsComplete(ended[0]) && !IsComplete(ended[1]))
    requires forall i :: 0 <= i < |ended| ==> 0 < ended[i].id < r.id && !Unfinished(ended[i])
    requires |ended| == 2 ==> ended[0].id < ended[1].id
    ensures Retained(ended + [r]) == AfterEnding(ended, r)
  {
    LastsOf(ended, r);
    LastCompleteOfEnded(ended);
    var complete := LastComplete(ended + [r]);
    KeepSnoc(ended, r, r.id, complete);
    if ended != [] && IsComplete(ended[0]) && !IsComplete(r) {
      KeepFirst(ended, r.id, complete);
    } else {
      KeepNothing(ended, r.id, complete);
    }
  }

  /** Ending the running row and applying retention, exactly. */
  lemma EndingKeeps(runs: seq<Run>, code: Code, counts: Option<Counts>, at: int)
    requires Shape(runs) && runs != [] && Unfinished(runs[|runs| - 1])
    ensures var last := runs[|runs| - 1];
            Retained(EndRun(runs, last.id, code, counts, at))
            == AfterEnding(Terminals(runs), Ended(last, code, counts, at))
  {
    EndRunLast(runs, code, counts, at);
    RetainedAfter(Terminals(runs), Ended(runs[|runs| - 1], code, counts, at));
  }

  lemma {:induction false} KeepFirst(ended: seq<Run>, terminal: int, complete: int)
    requires 1 <= |ended| <= 2 && ended[0].id == complete && !Unfinished(ended[0])
    requires |ended| == 2 ==> !Unfinished(ended[1]) && ended[1].id != complete && ended[1].id != terminal
    ensures KeepRuns(ended, terminal, complete) == [ended[0]]
  {
    KeepOne(ended[0], terminal, complete);
    if |ended| == 2 {
      assert ended == [ended[0]] + [ended[1]];
      KeepSnoc([ended[0]], ended[1], terminal, complete);
    } else {
      assert ended == [ended[0]];
    }
  }

  lemma {:induction false} AfterEndingShape(runs: seq<Run>, r: Run)
    requires Shape(runs) && runs != [] && Unfinished(runs[|runs| - 1]) && !Unfinished(r) && r.id == runs[|runs| - 1].id
    ensures Shape(AfterEnding(Terminals(runs), r))
  {
    if |runs| > 1 { assert Terminals(runs)[0] == runs[0]; }
  }

  lemma {:induction false} AppendShape(runs: seq<Run>, r: Run)
    requires Shape(runs) && (runs == [] || !Unfinished(runs[|runs| - 1])) && Unfinished(r)
    requires r.id > 0 && forall i :: 0 <= i < |runs| ==> runs[i].id < r.id
    ensures Shape(runs + [r])
  {
    assert Terminals(runs + [r]) == runs;
  }

  /** Every table the protocol reaches: unfinished runs are unique and newest, and three rows suffice. */
  lemma {:induction false} ShapeMeans(runs: seq<Run>)
    requires Shape(runs)
    ensures |runs| <= 3
    ensures forall i, j :: 0 <= i < |runs| && 0 <= j < |runs| && Unfinished(runs[i]) && Unfinished(runs[j]) ==> i == j
    ensures forall i, j :: 0 <= i < |runs| && Unfinished(runs[i]) && 0 <= j < |runs| ==> runs[j].id <= runs[i].id
  {
    forall i | 0 <= i < |runs| - 1 ensures !Unfinished(runs[i]) {
      assert Terminals(runs)[i] == runs[i];
    }
  }

  // ------------------------------------------------------- finding rows by id

  lemma {:induction false} FindRunMeaning(runs: seq<Run>, id: int)
    ensures FindRun(runs, id).Some? ==>
              exists i :: 0 <= i < |runs| && runs[i] == FindRun(runs, id).value && runs[i].id == id
    ensures FindRun(runs, id).None? ==> forall i :: 0 <= i < |runs| ==> runs[i].id != id
  {
    if runs != [] { FindRunMeaning(runs[..|runs| - 1], id); }
  }

  /** An awaited run is the newest row. */
  lemma AwaitedIsNewest(db: Db, s: Snapshot)
    requires Shape(db.runs) && Awaited(db, s)
    ensures db.runs != [] && Unfinished(db.runs[|db.runs| - 1]) && db.runs[|db.runs| - 1].id == s.runID
    ensures db.runs[|db.runs| - 1].runTrigger == s.runTrigger
  {
    FindRunMeaning(db.runs, s.runID);
    var i :| 0 <= i < |db.runs| && db.runs[i] == FindRun(db.runs, s.runID).value && db.runs[i].id == s.runID;
    ShapeMeans(db.runs);
  }

  /** Recovering an orphan leaves only ended rows, with the same newest completed run. */
  lemma RecoveredShape(db: Db, now: int)
    requires Shape(db.runs)
    ensures var ready := Recovered(db, now);
            && Shape(ready.runs) && !RunningNow(ready)
            && (ready.runs == [] <==> db.runs == [])
            && NewestID(ready) == NewestID(db)
            && LastComplete(ready.runs) == LastComplete(db.runs)
  {
    if RunningNow(db) {
      var newest := db.runs[|db.runs| - 1];
      var at := Max(now, newest.startedAt);
      EndingKeeps(db.runs, Interrupted, None, at);
      EndedShape(db.runs, Ended(newest, Interrupted, None, at));
      assert Recovered(db, now).runs == AfterEnding(Terminals(db.runs), Ended(newest, Interrupted, None, at));
    } else {
      assert Recovered(db, now) == db;
    }
  }

  lemma EndedShape(runs: seq<Run>, r: Run)
    requires Shape(runs) && runs != [] && Unfinished(runs[|runs| - 1]) && !Unfinished(r) && r.id == runs[|runs| - 1].id
    ensures var after := AfterEnding(Terminals(runs), r);
            && Shape(after) && after != [] && after[|after| - 1] == r
            && LastComplete(after) == if IsComplete(r) then r.id else LastComplete(runs)
  {
    AfterEndingShape(runs, r);
    AfterEndingComplete(runs, r);
  }

  lemma AfterEndingComplete(runs: seq<Run>, r: Run)
    requires Shape(runs) && runs != [] && Unfinished(runs[|runs| - 1]) && !Unfinished(r) && r.id == runs[|runs| - 1].id
    ensures LastComplete(AfterEnding(Terminals(runs), r)) == if IsComplete(r) then r.id else LastComplete(runs)
    ensures LastComplete(runs) == LastComplete(Terminals(runs))
  {
    var ended := Terminals(runs);
    LastCompleteOfEnded(ended);
    var after := AfterEnding(ended, r);
    if |after| == 1 {
      assert after[..0] == [];
    } else {
      LastCompleteOfEnded(after);
    }
  }
}
