/**
 Binding a Ready row rewrites that row's state in place; unbinding writes it
 back. Every other row, and the order of the list, is untouched.
 */
module BindingEffect {
  import opened Wrappers
  import opened Order
  import opened BindingDerivation
  import opened BindingTheorems

  /** The bindings table read back in repository order after an insert. */
  function InsertBinding(bindings: seq<Binding>, b: Binding): seq<Binding> {
    if bindings == [] || b.repositoryID < bindings[0].repositoryID then [b] + bindings
    else [bindings[0]] + InsertBinding(bindings[1..], b)
  }

  function RemoveBinding(bindings: seq<Binding>, repositoryID: int): seq<Binding> {
    if bindings == [] then []
    else if bindings[0].repositoryID == repositoryID then RemoveBinding(bindings[1..], repositoryID)
    else [bindings[0]] + RemoveBinding(bindings[1..], repositoryID)
  }

  lemma {:induction false} InsertSplits(bindings: seq<Binding>, b: Binding) returns (k: nat)
    ensures k <= |bindings| && InsertBinding(bindings, b) == bindings[..k] + [b] + bindings[k..]
    ensures forall i :: 0 <= i < k ==> bindings[i].repositoryID <= b.repositoryID
    ensures k < |bindings| ==> b.repositoryID < bindings[k].repositoryID
  {
    if bindings == [] || b.repositoryID < bindings[0].repositoryID {
      k := 0;
    } else {
      var m := InsertSplits(bindings[1..], b);
      k := m + 1;
      assert bindings[..k] == [bindings[0]] + bindings[1..][..m] && bindings[k..] == bindings[1..][m..];
      forall i | 0 <= i < k ensures bindings[i].repositoryID <= b.repositoryID {
        if i > 0 { assert bindings[i] == bindings[1..][i - 1]; }
      }
    }
  }

  lemma {:induction false} RemoveAbsent(bindings: seq<Binding>, repositoryID: int)
    requires forall b :: b in bindings ==> b.repositoryID != repositoryID
    ensures RemoveBinding(bindings, repositoryID) == bindings
  {
    if bindings != [] { RemoveAbsent(bindings[1..], repositoryID); }
  }

  /** Deleting the row just inserted gives back the table. */
  lemma {:induction false} RemoveUndoesInsert(bindings: seq<Binding>, b: Binding)
    requires forall c :: c in bindings ==> c.repositoryID != b.repositoryID
    ensures RemoveBinding(InsertBinding(bindings, b), b.repositoryID) == bindings
  {
    if bindings == [] || b.repositoryID < bindings[0].repositoryID {
      RemoveAbsent(bindings, b.repositoryID);
      assert ([b] + bindings)[1..] == bindings;
    } else {
      RemoveUndoesInsert(bindings[1..], b);
      SameHeadAndTail(RemoveBinding(InsertBinding(bindings, b), b.repositoryID), bindings);
    }
  }

  /** Re-inserting a row just deleted gives back the table. */
  lemma {:induction false} InsertUndoesRemove(bindings: seq<Binding>, b: Binding)
    requires UniqueBindings(bindings) && b in bindings
    ensures InsertBinding(RemoveBinding(bindings, b.repositoryID), b) == bindings
  {
    assert bindings == [bindings[0]] + bindings[1..];
    if bindings[0] == b {
      RemoveAbsent(bindings[1..], b.repositoryID);
    } else {
      assert b in bindings[1..] && bindings[0].repositoryID < b.repositoryID;
      InsertUndoesRemove(bindings[1..], b);
    }
  }

  lemma {:induction false} UniqueCons(head: Binding, rest: seq<Binding>)
    requires UniqueBindings(rest)
    requires forall c :: c in rest ==> head.repositoryID < c.repositoryID && head.remoteID != c.remoteID
    ensures UniqueBindings([head] + rest)
  {
    forall j | 0 <= j < |rest|
      ensures head.repositoryID < rest[j].repositoryID && head.remoteID != rest[j].remoteID
    {
      assert rest[j] in rest;
    }
  }

  lemma UniqueTail(bindings: seq<Binding>)
    requires UniqueBindings(bindings) && bindings != []
    ensures UniqueBindings(bindings[1..])
    ensures forall c :: c in bindings[1..] ==>
              bindings[0].repositoryID < c.repositoryID && bindings[0].remoteID != c.remoteID
  {
  }

  lemma {:induction false} InsertKeepsUnique(bindings: seq<Binding>, b: Binding)
    requires UniqueBindings(bindings)
    requires forall c :: c in bindings ==> c.repositoryID != b.repositoryID && c.remoteID != b.remoteID
    ensures UniqueBindings(InsertBinding(bindings, b))
    ensures forall c :: c in InsertBinding(bindings, b) <==> c == b || c in bindings
  {
    if bindings == [] {
    } else {
      UniqueTail(bindings);
      assert bindings == [bindings[0]] + bindings[1..];
      assert bindings[0] in bindings;
      if b.repositoryID < bindings[0].repositoryID {
        UniqueCons(b, bindings);
      } else {
        InsertKeepsUnique(bindings[1..], b);
        UniqueCons(bindings[0], InsertBinding(bindings[1..], b));
      }
    }
  }

  lemma {:induction false} RemoveIsSub(bindings: seq<Binding>, repositoryID: int)
    requires UniqueBindings(bindings)
    ensures UniqueBindings(RemoveBinding(bindings, repositoryID))
    ensures forall c :: c in RemoveBinding(bindings, repositoryID) <==> c in bindings && c.repositoryID != repositoryID
  {
    if bindings != [] {
      UniqueTail(bindings);
      assert bindings == [bindings[0]] + bindings[1..];
      RemoveIsSub(bindings[1..], repositoryID);
      if bindings[0].repositoryID != repositoryID {
        UniqueCons(bindings[0], RemoveBinding(bindings[1..], repositoryID));
      }
    }
  }

  // ------------------------------------------------------- the comparator

  lemma RowLessIsWeakOrder()
    ensures WeakOrder(RowLess)
  {
    forall a ensures !RowLess(a, a) { TextLessIrreflexive(a.remoteID); }
    forall a, b, c | RowLess(a, b) && RowLess(b, c) ensures RowLess(a, c) { RowLessTransitive(a, b, c); }
    forall a, b, c | !RowLess(a, b) && !RowLess(b, c) ensures !RowLess(a, c) {
      if RowLess(a, c) { RowLessSplits(a, b, c); }
    }
  }

  lemma TextOrder(a: string, b: string, c: string)
    ensures TextLess(a, b) && TextLess(b, c) ==> TextLess(a, c)
    ensures !TextLess(a, a)
    ensures a != b ==> TextLess(a, b) || TextLess(b, a)
  {
    TextLessIrreflexive(a);
    if TextLess(a, b) && TextLess(b, c) { TextLessTransitive(a, b, c); }
    if a != b { TextLessTotal(a, b); }
  }

  lemma RowLessTransitive(a: DerivedRow, b: DerivedRow, c: DerivedRow)
    requires RowLess(a, b) && RowLess(b, c)
    ensures RowLess(a, c)
  {
    var p, q, r := PrimaryFullName(a.row), PrimaryFullName(b.row), PrimaryFullName(c.row);
    TextOrder(p, q, r);
    TextOrder(p, q, p);
    TextOrder(a.remoteID, b.remoteID, c.remoteID);
  }

  /** Whatever lies between: if a < c then a < b or b < c. */
  lemma RowLessSplits(a: DerivedRow, b: DerivedRow, c: DerivedRow)
    requires RowLess(a, c)
    ensures RowLess(a, b) || RowLess(b, c)
  {
    var p, q, r := PrimaryFullName(a.row), PrimaryFullName(b.row), PrimaryFullName(c.row);
    TextOrder(p, q, r);
    TextOrder(q, p, r);
    TextOrder(q, r, p);
    TextOrder(a.remoteID, b.remoteID, c.remoteID);
    TextOrder(b.remoteID, a.remoteID, c.remoteID);
    TextOrder(b.remoteID, c.remoteID, a.remoteID);
  }

  /** Rows with different repository or remote id are never ties. */
  lemma DifferentKeysCompare(a: DerivedRow, b: DerivedRow)
    requires a.row.repositoryID != b.row.repositoryID || a.remoteID != b.remoteID
    ensures RowLess(a, b) || RowLess(b, a)
  {
    TextOrder(PrimaryFullName(a.row), PrimaryFullName(b.row), "");
    TextOrder(a.remoteID, b.remoteID, "");
  }

  // -------------------------------------------------- no two rows share a key

  predicate DifferentKeys(a: DerivedRow, b: DerivedRow) {
    a.row.repositoryID != b.row.repositoryID || a.remoteID != b.remoteID
  }

  ghost predicate AllDifferent(rows: seq<DerivedRow>) {
    forall i, j :: 0 <= i < j < |rows| ==> DifferentKeys(rows[i], rows[j])
  }

  lemma {:induction false} AllDifferentAppend(rows: seq<DerivedRow>, row: DerivedRow)
    requires AllDifferent(rows) && forall r :: r in rows ==> DifferentKeys(r, row)
    ensures AllDifferent(rows + [row])
  {
    forall i | 0 <= i < |rows| ensures DifferentKeys(rows[i], row) { assert rows[i] in rows; }
  }

  lemma {:induction false} AllDifferentConcat(a: seq<DerivedRow>, b: seq<DerivedRow>)
    requires AllDifferent(a) && AllDifferent(b)
    requires forall r, s :: r in a && s in b ==> DifferentKeys(r, s)
    ensures AllDifferent(a + b)
  {
    forall i, j | 0 <= i < j < |a + b| ensures DifferentKeys((a + b)[i], (a + b)[j]) {
      if i < |a| <= j { assert a[i] in a && b[j - |a|] in b; }
    }
  }

  lemma {:induction false} BoundRowsDifferent(x: Inputs, bindings: seq<Binding>)
    requires UniqueBindings(bindings)
    ensures AllDifferent(BoundRows(x, bindings))
  {
    if bindings != [] {
      var last := |bindings| - 1;
      var before := bindings[..last];
      BoundRowsDifferent(x, before);
      var local := FindLocal(x.locals, bindings[last].repositoryID);
      if local.Some? {
        var row := BoundRow(x, bindings[last], local.value);
        BoundRowNamesItsRepository(x, bindings[last], local.value);
        FindLocalMeaning(x.locals, bindings[last].repositoryID);
        forall r | r in BoundRows(x, before) ensures DifferentKeys(r, row) {
          BoundRowsMembers(x, before, r);
          var b :| b in before && FindLocal(x.locals, b.repositoryID).Some?
                   && r == BoundRow(x, b, FindLocal(x.locals, b.repositoryID).value);
          BoundRowNamesItsRepository(x, b, FindLocal(x.locals, b.repositoryID).value);
          FindLocalMeaning(x.locals, b.repositoryID);
        }
        AllDifferentAppend(BoundRows(x, before), row);
      }
    }
  }

  lemma {:induction false} SmallestIDMember(group: seq<RemoteRepository>)
    requires group != []
    ensures exists r :: r in group && r.remoteID == SmallestID(group)
    ensures forall r :: r in group ==> r.remoteID == SmallestID(group) || TextLess(SmallestID(group), r.remoteID)
  {
    if |group| == 1 {
      assert group[0] in group;
    } else {
      var last := |group| - 1;
      var before := group[..last];
      assert group == before + [group[last]];
      SmallestIDMember(before);
      var least := SmallestID(before);
      forall r | r in group ensures r.remoteID == SmallestID(group) || TextLess(SmallestID(group), r.remoteID) {
        TextOrder(group[last].remoteID, least, r.remoteID);
        TextOrder(least, group[last].remoteID, r.remoteID);
      }
      var r :| r in before && r.remoteID == least;
      assert r in group && group[last] in group;
    }
  }

  lemma RowAtHasItsRemote(x: Inputs, consumed: set<string>, at: Locator, row: DerivedRow) returns (r: RemoteRepository)
    requires RowAt(x, consumed, at) == [row]
    ensures r in x.remotes && r.At() == at && r.remoteID == row.remoteID && r.remoteID !in consumed
  {
    var group := Unconsumed(RemotesAt(x.remotes, at), consumed);
    SmallestIDMember(group);
    r :| r in group && r.remoteID == SmallestID(group);
    UnconsumedMembers(RemotesAt(x.remotes, at), consumed, r);
    RemotesAtMembers(x.remotes, at, r);
  }

  ghost predicate Once<T>(s: seq<T>) {
    forall i, j :: 0 <= i < j < |s| ==> s[i] != s[j]
  }

  lemma TwiceInSeq<T>(s: seq<T>, i: nat, j: nat)
    requires i < j < |s| && s[i] == s[j]
    ensures multiset(s)[s[i]] >= 2
  {
    assert s == s[..i] + [s[i]] + s[i + 1..j] + [s[j]] + s[j + 1..];
  }

  lemma LocatorsOnce(x: Inputs)
    ensures Once(Locators(x))
  {
    var s := Locators(x);
    forall i, j | 0 <= i < j < |s| ensures s[i] != s[j] {
      LocatorsMeaning(x, s[i]);
      if s[i] == s[j] { TwiceInSeq(s, i, j); }
    }
  }

  lemma {:induction false} LocatorRowsDifferent(x: Inputs, consumed: set<string>, locators: seq<Locator>)
    requires UniqueRemotes(x.remotes) && Once(locators)
    ensures AllDifferent(RowsAt(x, consumed, locators))
  {
    if locators != [] {
      var last := |locators| - 1;
      var before, at := locators[..last], locators[last];
      assert locators == before + [at];
      LocatorRowsDifferent(x, consumed, before);
      if RowAt(x, consumed, at) != [] {
        var row := RowAt(x, consumed, at)[0];
        var r := RowAtHasItsRemote(x, consumed, at, row);
        forall other | other in RowsAt(x, consumed, before) ensures DifferentKeys(other, row) {
          RowsAtMembers(x, consumed, before, other);
          var at' :| at' in before && RowAt(x, consumed, at') == [other];
          var r' := RowAtHasItsRemote(x, consumed, at', other);
          if r.remoteID == r'.remoteID { SameRemote(x.remotes, r, r'); }
        }
        AllDifferentAppend(RowsAt(x, consumed, before), row);
      }
    }
  }

  lemma {:induction false} PreviewRowsMembers(
    x: Inputs, bound: set<int>, consumed: set<string>, remotes: seq<RemoteRepository>, row: DerivedRow)
    ensures row in PreviewRows(x, bound, consumed, remotes) ==> exists r :: r in remotes && row == PreviewRow(x, bound, r)
  {
    if remotes != [] {
      PreviewRowsMembers(x, bound, consumed, remotes[..|remotes| - 1], row);
      LastOrBefore(remotes);
      assert remotes[|remotes| - 1] in remotes;
    }
  }

  lemma {:induction false} PreviewRowsDifferent(x: Inputs, bound: set<int>, consumed: set<string>, remotes: seq<RemoteRepository>)
    requires UniqueRemotes(remotes)
    ensures AllDifferent(PreviewRows(x, bound, consumed, remotes))
  {
    if remotes != [] {
      var before, last := remotes[..|remotes| - 1], remotes[|remotes| - 1];
      LastOrBefore(remotes);
      PreviewRowsDifferent(x, bound, consumed, before);
      if last.remoteID !in consumed {
        var row := PreviewRow(x, bound, last);
        forall other | other in PreviewRows(x, bound, consumed, before) ensures DifferentKeys(other, row) {
          PreviewRowsMembers(x, bound, consumed, before, other);
          var i :| 0 <= i < |before| && other == PreviewRow(x, bound, before[i]);
          assert before[i] == remotes[i];
        }
        AllDifferentAppend(PreviewRows(x, bound, consumed, before), row);
      }
    }
  }

  lemma PreviewRowIsUnbound(x: Inputs, bound: set<int>, r: RemoteRepository)
    requires UniqueLocals(x.locals) && 0 !in bound
    ensures PreviewRow(x, bound, r).row.repositoryID !in bound
  {
    WithGroupKeeps(EmptyRow(PreviewNotCurrent), [r]);
  }

  /** The second pass, over current evidence or over the preview, lists no two rows alike. */
  lemma {:induction false} UnboundRowsDifferent(x: Inputs, bindings: seq<Binding>)
    requires WellFormed(x, bindings)
    ensures AllDifferent(UnboundRows(x, bindings))
  {
    var consumed := Consumed(x, bindings);
    if x.current {
      LocatorsOnce(x);
      LocatorRowsDifferent(x, consumed, Locators(x));
    } else {
      PreviewRowsDifferent(x, BoundRepositories(bindings), consumed, x.remotes);
    }
  }

  /** With current evidence or without, no two listed rows tie. */
  lemma {:induction false} RowsDifferent(x: Inputs, bindings: seq<Binding>)
    requires WellFormed(x, bindings)
    ensures AllDifferent(UnsortedRows(x, bindings))
    ensures PairwiseComparable(UnsortedRows(x, bindings), RowLess)
  {
    BoundRowsDifferent(x, bindings);
    UnboundRowsDifferent(x, bindings);
    forall a, b | a in BoundRows(x, bindings) && b in UnboundRows(x, bindings) ensures DifferentKeys(a, b) {
      BoundAndUnboundDiffer(x, bindings, a, b);
    }
    AllDifferentConcat(BoundRows(x, bindings), UnboundRows(x, bindings));
    var rows := UnsortedRows(x, bindings);
    forall i, j | 0 <= i < j < |rows| ensures RowLess(rows[i], rows[j]) || RowLess(rows[j], rows[i]) {
      DifferentKeysCompare(rows[i], rows[j]);
    }
  }

  lemma {:induction false} BoundRowIsBound(x: Inputs, bindings: seq<Binding>, a: DerivedRow)
    requires WellFormed(x, bindings) && a in BoundRows(x, bindings)
    ensures a.row.repositoryID != 0 && a.row.repositoryID in BoundRepositories(bindings)
  {
    BoundRowsMembers(x, bindings, a);
    var b :| b in bindings && FindLocal(x.locals, b.repositoryID).Some?
             && a == BoundRow(x, b, FindLocal(x.locals, b.repositoryID).value);
    FindLocalMeaning(x.locals, b.repositoryID);
    BoundRowNamesItsRepository(x, b, FindLocal(x.locals, b.repositoryID).value);
  }

  lemma {:induction false} BoundAndUnboundDiffer(x: Inputs, bindings: seq<Binding>, a: DerivedRow, b: DerivedRow)
    requires WellFormed(x, bindings) && a in BoundRows(x, bindings) && b in UnboundRows(x, bindings)
    ensures a.row.repositoryID != b.row.repositoryID
  {
    BoundRowIsBound(x, bindings, a);
    if x.current {
      LocatorRowIsUnbound(x, bindings, b);
    } else {
      var bound := BoundRepositories(bindings);
      assert 0 !in bound by { BoundArePositive(x, bindings); }
      PreviewRowsMembers(x, bound, Consumed(x, bindings), x.remotes, b);
      var r :| r in x.remotes && b == PreviewRow(x, bound, r);
      PreviewRowIsUnbound(x, bound, r);
    }
  }

  lemma {:induction false} BoundArePositive(x: Inputs, bindings: seq<Binding>)
    requires WellFormed(x, bindings)
    ensures forall b :: b in bindings ==> b.repositoryID > 0
  {
  }

  lemma {:induction false} LocatorRowIsUnbound(x: Inputs, bindings: seq<Binding>, b: DerivedRow)
    requires x.current && WellFormed(x, bindings) && b in UnboundRows(x, bindings)
    ensures b.row.repositoryID == 0 || b.row.repositoryID !in BoundRepositories(bindings)
  {
    var consumed := Consumed(x, bindings);
    RowsAtMembers(x, consumed, Locators(x), b);
    var at :| at in Locators(x) && RowAt(x, consumed, at) == [b];
    LocatorRowState(x, consumed, at);
    if b.row.repositoryID != 0 {
      SortedRowsMembers(x, bindings, b);
      var l, r := ReadyRowIsReadyPair(x, bindings, b);
    }
  }

  // ------------------------------------------------------ the effect of a bind

  lemma {:induction false} BoundRowsConcat(x: Inputs, a: seq<Binding>, b: seq<Binding>)
    ensures BoundRows(x, a + b) == BoundRows(x, a) + BoundRows(x, b)
  {
    if b == [] {
      assert a + b == a;
    } else {
      var last := |b| - 1;
      BoundRowsConcat(x, a, b[..last]);
      assert (a + b)[..|a + b| - 1] == a + b[..last];
    }
  }

  /** Consuming one more remote only removes the row of its own locator. */
  lemma {:induction false} RowsAtLessOne(
    x: Inputs, consumed: set<string>, locators: seq<Locator>, r: RemoteRepository, row: DerivedRow)
    requires UniqueRemotes(x.remotes) && r in x.remotes && Once(locators)
    requires RowAt(x, consumed, r.At()) == [row] && RowAt(x, consumed + {r.remoteID}, r.At()) == []
    ensures multiset(RowsAt(x, consumed, locators))
         == multiset(RowsAt(x, consumed + {r.remoteID}, locators)) + (if r.At() in locators then multiset{row} else multiset{})
  {
    if locators != [] {
      var last := |locators| - 1;
      var before, at := locators[..last], locators[last];
      assert locators == before + [at];
      RowsAtLessOne(x, consumed, before, r, row);
      if at != r.At() {
        OtherLocatorsUnaffected(x.remotes, RemotesAt(x.remotes, at), consumed, at, r);
      }
    }
  }

  lemma {:induction false} OtherLocatorsUnaffected(
    remotes: seq<RemoteRepository>, group: seq<RemoteRepository>, consumed: set<string>, at: Locator, r: RemoteRepository)
    requires UniqueRemotes(remotes) && r in remotes && at != r.At() && forall g :: g in group ==> g in RemotesAt(remotes, at)
    ensures Unconsumed(group, consumed + {r.remoteID}) == Unconsumed(group, consumed)
  {
    if group != [] {
      var last := |group| - 1;
      assert group == group[..last] + [group[last]];
      OtherLocatorsUnaffected(remotes, group[..last], consumed, at, r);
      RemotesAtMembers(remotes, at, group[last]);
      if group[last].remoteID == r.remoteID { SameRemote(remotes, group[last], r); }
    }
  }

  lemma ConsumedAfterBind(x: Inputs, bindings: seq<Binding>, b: Binding, added: set<string>)
    requires ConsumedBy(x, b) == added
    ensures Consumed(x, InsertBinding(bindings, b)) == Consumed(x, bindings) + added
  {
    var k := InsertSplits(bindings, b);
    assert bindings == bindings[..k] + bindings[k..];
    forall id ensures id in Consumed(x, InsertBinding(bindings, b)) <==> id in Consumed(x, bindings) + added {
      ConsumedMembers(x, InsertBinding(bindings, b), id);
      ConsumedMembers(x, bindings, id);
      forall c ensures c in InsertBinding(bindings, b) <==> c == b || c in bindings {}
    }
  }

  function BindingFor(x: Inputs, l: LocalRepository, r: RemoteRepository): Binding
    requires x.organizationID.Some?
  {
    Binding(l.id, x.organizationID.value, r.remoteID)
  }

  /** A ready pair's row differs from its row once bound in the state alone. */
  lemma ReadyRowBecomesBoundRow(x: Inputs, bindings: seq<Binding>, l: LocalRepository, r: RemoteRepository)
    requires x.current && WellFormed(x, bindings) && PairReady(x, bindings, l, r)
    ensures var d, b := ReadyRow(l, r), BindingFor(x, l, r);
            && BoundRow(x, b, l) == d.(row := d.row.(state := BoundCurrent))
            && BoundRows(x, [b]) == [BoundRow(x, b, l)]
            && ConsumedBy(x, b) == {r.remoteID}
  {
    var b := BindingFor(x, l, r);
    MutuallyNamedIsCurrent(x, b, l, r);
    FindLocalIs(x.locals, l);
    assert [b][..0] == [];
    assert BoundRows(x, []) == [];
  }

  lemma BoundRowsSplit(x: Inputs, a: seq<Binding>, b: Binding, c: seq<Binding>, row: DerivedRow)
    requires BoundRows(x, [b]) == [row]
    ensures BoundRows(x, a + [b] + c) == BoundRows(x, a) + [row] + BoundRows(x, c)
  {
    BoundRowsConcat(x, a + [b], c);
    BoundRowsConcat(x, a, [b]);
  }

  lemma MiddleCounts<T>(a: seq<T>, m: T, c: seq<T>)
    ensures multiset(a + [m] + c) == multiset(a + c) + multiset{m}
  {
  }

  lemma {:induction false} BoundRowsAfterBind(x: Inputs, bindings: seq<Binding>, b: Binding, row: DerivedRow)
    requires BoundRows(x, [b]) == [row]
    ensures multiset(BoundRows(x, InsertBinding(bindings, b))) == multiset(BoundRows(x, bindings)) + multiset{row}
  {
    var k := InsertSplits(bindings, b);
    BoundRowsAroundInsert(x, bindings, k, b, row);
    MiddleCounts(BoundRows(x, bindings[..k]), row, BoundRows(x, bindings[k..]));
  }

  lemma {:induction false} BoundRowsAroundInsert(x: Inputs, bindings: seq<Binding>, k: nat, b: Binding, row: DerivedRow)
    requires k <= |bindings| && BoundRows(x, [b]) == [row]
    ensures BoundRows(x, bindings) == BoundRows(x, bindings[..k]) + BoundRows(x, bindings[k..])
    ensures BoundRows(x, bindings[..k] + [b] + bindings[k..])
         == BoundRows(x, bindings[..k]) + [row] + BoundRows(x, bindings[k..])
  {
    BoundRowsConcat(x, bindings[..k], bindings[k..]);
    assert bindings[..k] + bindings[k..] == bindings;
    BoundRowsSplit(x, bindings[..k], b, bindings[k..], row);
  }

  /** Once the pair's remote is consumed, its locator contributes no row. */
  lemma {:induction false} ReadyRowGoes(x: Inputs, bindings: seq<Binding>, l: LocalRepository, r: RemoteRepository)
    requires x.current && WellFormed(x, bindings) && PairReady(x, bindings, l, r)
    ensures RowAt(x, Consumed(x, bindings) + {r.remoteID}, r.At()) == []
  {
    var group := RemotesAt(x.remotes, r.At());
    forall g | g in group ensures g.remoteID in Consumed(x, bindings) + {r.remoteID} {
      RemotesAtMembers(x.remotes, r.At(), g);
    }
    UnconsumedNothing(group, Consumed(x, bindings) + {r.remoteID});
  }

  lemma {:induction false} LocatorRowsAfterBind(x: Inputs, bindings: seq<Binding>, l: LocalRepository, r: RemoteRepository)
    requires x.current && WellFormed(x, bindings) && PairReady(x, bindings, l, r)
    ensures var consumed := Consumed(x, bindings);
            multiset(RowsAt(x, consumed, Locators(x)))
            == multiset(RowsAt(x, consumed + {r.remoteID}, Locators(x))) + multiset{ReadyRow(l, r)}
  {
    var consumed := Consumed(x, bindings);
    ReadyPairIsListed(x, bindings, l, r);
    ReadyRowGoes(x, bindings, l, r);
    LocatorsOnce(x);
    RowsAtLessOne(x, consumed, Locators(x), r, ReadyRow(l, r));
  }

  lemma {:induction false} UnsortedAfterBind(x: Inputs, bindings: seq<Binding>, l: LocalRepository, r: RemoteRepository)
    requires x.current && WellFormed(x, bindings) && PairReady(x, bindings, l, r)
    ensures multiset(UnsortedRows(x, InsertBinding(bindings, BindingFor(x, l, r)))) + multiset{ReadyRow(l, r)}
         == multiset(UnsortedRows(x, bindings)) + multiset{BoundRow(x, BindingFor(x, l, r), l)}
  {
    var b := BindingFor(x, l, r);
    ReadyRowBecomesBoundRow(x, bindings, l, r);
    BoundRowsAfterBind(x, bindings, b, BoundRow(x, b, l));
    ConsumedAfterBind(x, bindings, b, {r.remoteID});
    LocatorRowsAfterBind(x, bindings, l, r);
  }

  lemma ReplaceKeepsOrder(rows: seq<DerivedRow>, i: nat, row: DerivedRow)
    requires i < |rows| && Ordered(rows, RowLess)
    requires row.remoteID == rows[i].remoteID && row.row == rows[i].row.(state := row.row.state)
    ensures Ordered(rows[i := row], RowLess)
  {
  }

  lemma ReplaceCounts<T>(s: seq<T>, i: nat, x: T)
    requires i < |s|
    ensures multiset(s[i := x]) + multiset{s[i]} == multiset(s) + multiset{x}
  {
  }

  lemma SortedFacts(rows: seq<DerivedRow>)
    ensures multiset(StableSort(rows, RowLess)) == multiset(rows)
    ensures WeakOrder(RowLess) && Ordered(StableSort(rows, RowLess), RowLess)
  {
    SortKeepsElements(rows, RowLess);
    RowLessIsWeakOrder();
    SortOrders(rows, RowLess);
  }

  /** Replacing one row by another of the same key, before sorting, replaces it in place after. */
  lemma {:induction false} SortReplacesInPlace(before: seq<DerivedRow>, after: seq<DerivedRow>, d: DerivedRow, d': DerivedRow) returns (i: nat)
    requires d in before && PairwiseComparable(before, RowLess)
    requires multiset(after) + multiset{d} == multiset(before) + multiset{d'}
    requires d'.remoteID == d.remoteID && d'.row == d.row.(state := d'.row.state)
    ensures i < |StableSort(before, RowLess)| && StableSort(before, RowLess)[i] == d
    ensures StableSort(after, RowLess) == StableSort(before, RowLess)[i := d']
  {
    var sorted := StableSort(before, RowLess);
    SortedFacts(before);
    SortedFacts(after);
    assert d in multiset(sorted);
    i :| 0 <= i < |sorted| && sorted[i] == d;
    ReplaceKeepsOrder(sorted, i, d');
    ReplaceCounts(sorted, i, d');
    ComparableAnyOrder(before, sorted);
    ReplaceKeepsComparable(sorted, i, d');
    CancelCounts(multiset(sorted[i := d']), multiset(after), d);
    OrderedUnique(sorted[i := d'], StableSort(after, RowLess), RowLess);
  }

  lemma CancelCounts<T>(a: multiset<T>, b: multiset<T>, x: T)
    requires a + multiset{x} == b + multiset{x}
    ensures a == b
  {
    assert a == (a + multiset{x}) - multiset{x};
    assert b == (b + multiset{x}) - multiset{x};
  }

  /**
   Binding the pair behind a Ready row changes that row's state to
   `bound_current`, at the same position, and nothing else in the list.
   */
  lemma {:induction false} BindChangesOneState(x: Inputs, bindings: seq<Binding>, l: LocalRepository, r: RemoteRepository) returns (i: nat)
    requires x.current && WellFormed(x, bindings) && PairReady(x, bindings, l, r)
    ensures var before := Derive(x, bindings).rows;
            && i < |before| && before[i] == ReadyRow(l, r)
            && Derive(x, InsertBinding(bindings, BindingFor(x, l, r))).rows
               == before[i := before[i].(row := before[i].row.(state := BoundCurrent))]
  {
    var d, b := ReadyRow(l, r), BindingFor(x, l, r);
    var before, after := UnsortedRows(x, bindings), UnsortedRows(x, InsertBinding(bindings, b));
    ReadyPairIsListed(x, bindings, l, r);
    SortedRowsMembers(x, bindings, d);
    ReadyRowBecomesBoundRow(x, bindings, l, r);
    UnsortedAfterBind(x, bindings, l, r);
    RowsDifferent(x, bindings);
    i := SortReplacesInPlace(before, after, d, BoundRow(x, b, l));
  }

  lemma ReplaceKeepsComparable(rows: seq<DerivedRow>, i: nat, row: DerivedRow)
    requires i < |rows| && PairwiseComparable(rows, RowLess)
    requires row.remoteID == rows[i].remoteID && row.row == rows[i].row.(state := row.row.state)
    ensures PairwiseComparable(rows[i := row], RowLess)
  {
  }

  /** Comparability of all pairs does not depend on the arrangement. */
  lemma ComparableAnyOrder(a: seq<DerivedRow>, b: seq<DerivedRow>)
    requires PairwiseComparable(a, RowLess) && multiset(a) == multiset(b) && WeakOrder(RowLess)
    ensures PairwiseComparable(b, RowLess)
  {
    forall i, j | 0 <= i < j < |b| ensures RowLess(b[i], b[j]) || RowLess(b[j], b[i]) {
      assert b[i] in multiset(a) && b[j] in multiset(a);
      var m :| 0 <= m < |a| && a[m] == b[i];
      var n :| 0 <= n < |a| && a[n] == b[j];
      if m == n {
        TwiceInSeq(b, i, j);
        OnceInComparable(a, m);
      }
    }
  }

  lemma OnceInComparable(s: seq<DerivedRow>, i: nat)
    requires i < |s| && PairwiseComparable(s, RowLess) && WeakOrder(RowLess)
    ensures multiset(s)[s[i]] == 1
  {
    assert s == s[..i] + [s[i]] + s[i + 1..];
    forall j | 0 <= j < |s| && j != i ensures s[j] != s[i] {
      assert RowLess(s[i], s[j]) || RowLess(s[j], s[i]);
    }
    assert s[i] !in s[..i] && s[i] !in s[i + 1..];
  }

  /** A `bound_current` binding, once removed, leaves its pair ready. */
  lemma UnbindLeavesReady(x: Inputs, bindings: seq<Binding>, b: Binding, l: LocalRepository) returns (r: RemoteRepository)
    requires x.current && WellFormed(x, bindings) && b in bindings && l in x.locals && l.id == b.repositoryID
    requires BoundRow(x, b, l).row.state == BoundCurrent
    ensures WellFormed(x, RemoveBinding(bindings, l.id)) && PairReady(x, RemoveBinding(bindings, l.id), l, r)
    ensures b == BindingFor(x, l, r)
  {
    r := CurrentIsMutuallyNamed(x, b, l);
    RemoveIsSub(bindings, l.id);
    forall c | c in RemoveBinding(bindings, l.id) ensures c.repositoryID != l.id && c.remoteID != r.remoteID {
      var i :| 0 <= i < |bindings| && bindings[i] == b;
      var j :| 0 <= j < |bindings| && bindings[j] == c;
    }
  }

  lemma {:induction false} StateChangedBack(before: seq<DerivedRow>, after: seq<DerivedRow>, i: nat, ready: DerivedRow, bound: DerivedRow)
    requires i < |before| && before[i] == ready && ready.row.state == Ready
    requires bound == ready.(row := ready.row.(state := BoundCurrent)) && after == before[i := bound]
    ensures i < |after| && after[i] == bound && before == after[i := after[i].(row := after[i].row.(state := Ready))]
  {
  }

  /**
   Unbinding a `bound_current` row turns exactly that row back to Ready, at the
   same position; binding it again restores the original table and list.
   */
  lemma {:induction false} UnbindChangesOneState(x: Inputs, bindings: seq<Binding>, b: Binding, l: LocalRepository) returns (i: nat)
    requires x.current && WellFormed(x, bindings) && b in bindings && l in x.locals && l.id == b.repositoryID
    requires BoundRow(x, b, l).row.state == BoundCurrent
    ensures var before, after := Derive(x, bindings).rows, Derive(x, RemoveBinding(bindings, l.id)).rows;
            && i < |before| && before[i] == BoundRow(x, b, l)
            && after == before[i := before[i].(row := before[i].row.(state := Ready))]
            && InsertBinding(RemoveBinding(bindings, l.id), b) == bindings
  {
    var r := UnbindLeavesReady(x, bindings, b, l);
    InsertUndoesRemove(bindings, b);
    var without := RemoveBinding(bindings, l.id);
    i := BindChangesOneState(x, without, l, r);
    ReadyRowBecomesBoundRow(x, without, l, r);
    StateChangedBack(Derive(x, without).rows, Derive(x, bindings).rows, i, ReadyRow(l, r), BoundRow(x, b, l));
  }
}
