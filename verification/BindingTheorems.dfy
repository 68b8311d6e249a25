/**
 What the two passes decide together: when a row is Ready, that every remote is
 accounted for once, and that binding and unbinding a row are inverse to each
 other and disturb nothing else.
 */
module BindingTheorems {
  import opened Wrappers
  import opened Order
  import opened BindingDerivation

  ghost predicate UniqueLocals(locals: seq<LocalRepository>) {
    && (forall l :: l in locals ==> l.id > 0)
    && (forall i, j :: 0 <= i < j < |locals| ==> locals[i].id != locals[j].id)
  }

  /** Remote ids are the table's key and names are never empty, as the loader enforces. */
  ghost predicate UniqueRemotes(remotes: seq<RemoteRepository>) {
    && (forall r :: r in remotes ==> r.owner != "" && r.name != "")
    && (forall i, j :: 0 <= i < j < |remotes| ==> remotes[i].remoteID != remotes[j].remoteID)
  }

  /** One binding per repository, one per remote, kept in repository order. */
  ghost predicate UniqueBindings(bindings: seq<Binding>) {
    && (forall i, j :: 0 <= i < j < |bindings| ==> bindings[i].repositoryID < bindings[j].repositoryID)
    && (forall i, j :: 0 <= i < j < |bindings| ==> bindings[i].remoteID != bindings[j].remoteID)
  }

  /** The tables' keys and the foreign key from bindings to local repositories. */
  ghost predicate WellFormed(x: Inputs, bindings: seq<Binding>) {
    && UniqueLocals(x.locals) && UniqueRemotes(x.remotes) && UniqueBindings(bindings)
    && (forall b :: b in bindings ==> exists l :: l in x.locals && l.id == b.repositoryID)
    && (x.current ==> x.organizationID.Some?)
  }

  /** `l` and `r` name each other, and only each other, and neither is bound. */
  ghost predicate PairReady(x: Inputs, bindings: seq<Binding>, l: LocalRepository, r: RemoteRepository) {
    && l in x.locals && r in x.remotes
    && LocalLocator(x.baseURL, l) == Some(r.At())
    && (forall l' :: l' in x.locals && LocalLocator(x.baseURL, l') == Some(r.At()) ==> l' == l)
    && (forall r' :: r' in x.remotes && r'.At() == r.At() ==> r' == r)
    && (forall b :: b in bindings ==> b.repositoryID != l.id && b.remoteID != r.remoteID)
  }

  // ------------------------------------------------------------ lookup facts

  lemma {:induction false} LocalsAtMembers(baseURL: string, locals: seq<LocalRepository>, at: Locator, l: LocalRepository)
    ensures l in LocalsAt(baseURL, locals, at) <==> l in locals && LocalLocator(baseURL, l) == Some(at)
  {
    if locals != [] {
      var last := |locals| - 1;
      LocalsAtMembers(baseURL, locals[..last], at, l);
      LastOrBefore(locals);
    }
  }

  lemma {:induction false} RemotesAtMembers(remotes: seq<RemoteRepository>, at: Locator, r: RemoteRepository)
    ensures r in RemotesAt(remotes, at) <==> r in remotes && r.At() == at
  {
    if remotes != [] {
      var last := |remotes| - 1;
      RemotesAtMembers(remotes[..last], at, r);
      LastOrBefore(remotes);
    }
  }

  lemma {:induction false} LocalsAtSingle(baseURL: string, locals: seq<LocalRepository>, at: Locator, l: LocalRepository)
    requires UniqueLocals(locals)
    requires forall l' :: l' in locals && LocalLocator(baseURL, l') == Some(at) ==> l' == l
    ensures |LocalsAt(baseURL, locals, at)| <= 1
  {
    if locals != [] {
      var last := |locals| - 1;
      var before := locals[..last];
      assert locals == before + [locals[last]];
      LocalsAtSingle(baseURL, before, at, l);
      if LocalLocator(baseURL, locals[last]) == Some(at) && LocalsAt(baseURL, before, at) != [] {
        LocalsAtMembers(baseURL, before, at, LocalsAt(baseURL, before, at)[0]);
        assert false;
      }
    }
  }

  lemma {:induction false} RemotesAtSingle(remotes: seq<RemoteRepository>, at: Locator, r: RemoteRepository)
    requires UniqueRemotes(remotes)
    requires forall r' :: r' in remotes && r'.At() == at ==> r' == r
    ensures |RemotesAt(remotes, at)| <= 1
  {
    if remotes != [] {
      var last := |remotes| - 1;
      var before := remotes[..last];
      assert remotes == before + [remotes[last]];
      RemotesAtSingle(before, at, r);
      if remotes[last].At() == at && RemotesAt(before, at) != [] {
        RemotesAtMembers(before, at, RemotesAt(before, at)[0]);
        assert false;
      }
    }
  }

  lemma {:induction false} FindLocalMeaning(locals: seq<LocalRepository>, id: int)
    ensures FindLocal(locals, id).Some? ==> FindLocal(locals, id).value in locals && FindLocal(locals, id).value.id == id
    ensures FindLocal(locals, id).None? ==> forall l :: l in locals ==> l.id != id
  {
    if locals != [] {
      var last := |locals| - 1;
      FindLocalMeaning(locals[..last], id);
      LastOrBefore(locals);
    }
  }

  lemma {:induction false} FindRemoteMeaning(remotes: seq<RemoteRepository>, id: string)
    ensures FindRemote(remotes, id).Some? ==> FindRemote(remotes, id).value in remotes && FindRemote(remotes, id).value.remoteID == id
    ensures FindRemote(remotes, id).None? ==> forall r :: r in remotes ==> r.remoteID != id
  {
    if remotes != [] {
      var last := |remotes| - 1;
      FindRemoteMeaning(remotes[..last], id);
      LastOrBefore(remotes);
    }
  }

  lemma {:induction false} SameLocal(locals: seq<LocalRepository>, a: LocalRepository, b: LocalRepository)
    requires UniqueLocals(locals) && a in locals && b in locals && a.id == b.id
    ensures a == b
  {
    var i :| 0 <= i < |locals| && locals[i] == a;
    var j :| 0 <= j < |locals| && locals[j] == b;
    assert i == j;
  }

  lemma {:induction false} SameRemote(remotes: seq<RemoteRepository>, a: RemoteRepository, b: RemoteRepository)
    requires UniqueRemotes(remotes) && a in remotes && b in remotes && a.remoteID == b.remoteID
    ensures a == b
  {
    var i :| 0 <= i < |remotes| && remotes[i] == a;
    var j :| 0 <= j < |remotes| && remotes[j] == b;
    assert i == j;
  }

  lemma {:induction false} FindLocalIs(locals: seq<LocalRepository>, l: LocalRepository)
    requires UniqueLocals(locals) && l in locals
    ensures FindLocal(locals, l.id) == Some(l)
  {
    FindLocalMeaning(locals, l.id);
    SameLocal(locals, FindLocal(locals, l.id).value, l);
  }

  lemma {:induction false} FindRemoteIs(remotes: seq<RemoteRepository>, r: RemoteRepository)
    requires UniqueRemotes(remotes) && r in remotes
    ensures FindRemote(remotes, r.remoteID) == Some(r)
  {
    FindRemoteMeaning(remotes, r.remoteID);
    SameRemote(remotes, FindRemote(remotes, r.remoteID).value, r);
  }

  // ---------------------------------------------------- the shared consumed set

  lemma {:induction false} ConsumedMembers(x: Inputs, bindings: seq<Binding>, id: string)
    ensures id in Consumed(x, bindings) <==> exists b :: b in bindings && id in ConsumedBy(x, b)
  {
    if bindings != [] {
      var last := |bindings| - 1;
      ConsumedMembers(x, bindings[..last], id);
      LastOrBefore(bindings);
      assert bindings[last] in bindings;
    }
  }

  /** With current evidence a binding consumes whole locator groups. */
  lemma ConsumedByWholeGroups(x: Inputs, b: Binding, r: RemoteRepository, r': RemoteRepository)
    requires x.current && UniqueRemotes(x.remotes) && r in x.remotes && r' in x.remotes && r.At() == r'.At()
    requires r.remoteID in ConsumedBy(x, b)
    ensures r'.remoteID in ConsumedBy(x, b)
  {
    var local := FindLocal(x.locals, b.repositoryID).value;
    var at := OrZero(LocalLocator(x.baseURL, local));
    if r.remoteID in IDs(LocalGroup(x, local)) {
      var member :| member in LocalGroup(x, local) && member.remoteID == r.remoteID;
      RemotesAtMembers(x.remotes, at, member);
      SameRemote(x.remotes, member, r);
      RemotesAtMembers(x.remotes, at, r');
    } else {
      var member :| member in BoundGroup(x, b) && member.remoteID == r.remoteID;
      var bound := FindRemote(x.remotes, b.remoteID).value;
      RemotesAtMembers(x.remotes, bound.At(), member);
      SameRemote(x.remotes, member, r);
      RemotesAtMembers(x.remotes, bound.At(), r');
    }
  }

  /** So `consumed` is a union of whole locator groups. */
  lemma ConsumedWholeGroups(x: Inputs, bindings: seq<Binding>, r: RemoteRepository, r': RemoteRepository)
    requires x.current && UniqueRemotes(x.remotes) && r in x.remotes && r' in x.remotes && r.At() == r'.At()
    ensures r.remoteID in Consumed(x, bindings) <==> r'.remoteID in Consumed(x, bindings)
  {
    ConsumedMembers(x, bindings, r.remoteID);
    ConsumedMembers(x, bindings, r'.remoteID);
    if r.remoteID in Consumed(x, bindings) {
      var b :| b in bindings && r.remoteID in ConsumedBy(x, b);
      ConsumedByWholeGroups(x, b, r, r');
    }
    if r'.remoteID in Consumed(x, bindings) {
      var b :| b in bindings && r'.remoteID in ConsumedBy(x, b);
      ConsumedByWholeGroups(x, b, r', r);
    }
  }

  lemma {:induction false} UnconsumedMembers(group: seq<RemoteRepository>, consumed: set<string>, r: RemoteRepository)
    ensures r in Unconsumed(group, consumed) <==> r in group && r.remoteID !in consumed
  {
    if group != [] {
      var last := |group| - 1;
      UnconsumedMembers(group[..last], consumed, r);
      LastOrBefore(group);
    }
  }

  lemma {:induction false} UnconsumedAll(group: seq<RemoteRepository>, consumed: set<string>)
    requires forall r :: r in group ==> r.remoteID !in consumed
    ensures Unconsumed(group, consumed) == group
  {
    if group != [] {
      var last := |group| - 1;
      LastOrBefore(group);
      UnconsumedAll(group[..last], consumed);
      InitAndLast(group);
    }
  }

  lemma {:induction false} UnconsumedNothing(group: seq<RemoteRepository>, consumed: set<string>)
    requires forall r :: r in group ==> r.remoteID in consumed
    ensures Unconsumed(group, consumed) == []
  {
    if group != [] {
      var last := |group| - 1;
      LastOrBefore(group);
      UnconsumedNothing(group[..last], consumed);
    }
  }

  /** What is left of a locator after the first pass: all of it or nothing. */
  lemma RemainingGroup(x: Inputs, bindings: seq<Binding>, r: RemoteRepository)
    requires x.current && UniqueRemotes(x.remotes) && r in x.remotes
    ensures Unconsumed(RemotesAt(x.remotes, r.At()), Consumed(x, bindings))
         == if r.remoteID in Consumed(x, bindings) then [] else RemotesAt(x.remotes, r.At())
  {
    var group := RemotesAt(x.remotes, r.At());
    forall r' | r' in group
      ensures r'.remoteID in Consumed(x, bindings) <==> r.remoteID in Consumed(x, bindings)
    {
      RemotesAtMembers(x.remotes, r.At(), r');
      ConsumedWholeGroups(x, bindings, r, r');
    }
    if r.remoteID in Consumed(x, bindings) {
      UnconsumedNothing(group, Consumed(x, bindings));
    } else {
      UnconsumedAll(group, Consumed(x, bindings));
    }
  }

  // --------------------------------------------------------------- locators

  lemma {:induction false} DistinctLocatorsMeaning(remotes: seq<RemoteRepository>, at: Locator)
    ensures at in DistinctLocators(remotes) <==> exists r :: r in remotes && r.At() == at
    ensures multiset(DistinctLocators(remotes))[at] <= 1
  {
    if remotes != [] {
      var last := |remotes| - 1;
      DistinctLocatorsMeaning(remotes[..last], at);
      LastOrBefore(remotes);
      assert remotes[last] in remotes;
      if exists r :: r in remotes && r.At() == at {
        var r :| r in remotes && r.At() == at;
        assert r in remotes[..last] || r == remotes[last];
      }
    }
  }

  /** The sorted locator list visits every remote's locator exactly once and no other. */
  lemma LocatorsMeaning(x: Inputs, at: Locator)
    ensures at in Locators(x) <==> exists r :: r in x.remotes && r.At() == at
    ensures multiset(Locators(x))[at] <= 1
  {
    SortKeepsElements(DistinctLocators(x.remotes), LocatorLess);
    DistinctLocatorsMeaning(x.remotes, at);
    assert at in Locators(x) <==> at in multiset(Locators(x));
    assert at in DistinctLocators(x.remotes) <==> at in multiset(DistinctLocators(x.remotes));
  }

  lemma {:induction false} RowsAtMembers(x: Inputs, consumed: set<string>, locators: seq<Locator>, row: DerivedRow)
    ensures row in RowsAt(x, consumed, locators) <==> exists at :: at in locators && RowAt(x, consumed, at) == [row]
  {
    if locators != [] {
      var last := |locators| - 1;
      RowsAtMembers(x, consumed, locators[..last], row);
      LastOrBefore(locators);
      assert locators[last] in locators;
    }
  }

  lemma {:induction false} BoundRowsMembers(x: Inputs, bindings: seq<Binding>, row: DerivedRow)
    ensures row in BoundRows(x, bindings) ==>
              exists b :: b in bindings && FindLocal(x.locals, b.repositoryID).Some?
                          && row == BoundRow(x, b, FindLocal(x.locals, b.repositoryID).value)
  {
    if bindings != [] {
      var last := |bindings| - 1;
      BoundRowsMembers(x, bindings[..last], row);
      LastOrBefore(bindings);
      assert bindings[last] in bindings;
    }
  }

  lemma {:induction false} WithNamesKeeps(row: BindingRow, group: seq<RemoteRepository>)
    ensures WithNames(row, group).state == row.state && WithNames(row, group).repositoryID == row.repositoryID
  {
    if group != [] { WithNamesKeeps(row, group[..|group| - 1]); }
  }

  lemma {:induction false} WithGroupKeeps(row: BindingRow, group: seq<RemoteRepository>)
    ensures WithGroup(row, group).state == row.state && WithGroup(row, group).repositoryID == row.repositoryID
  {
    if |group| > 1 { WithGroupKeeps(row, group[..|group| - 1]); }
  }

  /** A bound row names its own repository and never reads as unbound. */
  lemma BoundRowNamesItsRepository(x: Inputs, b: Binding, local: LocalRepository)
    ensures BoundRow(x, b, local).row.repositoryID == local.id
    ensures BoundRow(x, b, local).row.state in {LastObservedOnly, IdentityConflict, LocatorDrift, BoundCurrent, NotVisible}
    ensures BoundRow(x, b, local).row.state == LastObservedOnly <==> !x.current
  {
    var bound := FindRemote(x.remotes, b.remoteID);
    var row := WithLocal(EmptyRow(BoundCurrent), local);
    if !x.current {
      if bound.Some? { WithGroupKeeps(row.(state := LastObservedOnly), [bound.value]); }
    } else if Conflicting(x, b, local) {
      var here, there := LocalGroup(x, local), BoundGroup(x, b);
      var first, second := if here == [] then there else here, if here == [] then here else there;
      WithGroupKeeps(row.(state := IdentityConflict), first);
      WithNamesKeeps(WithGroup(row.(state := IdentityConflict), first), second);
    } else if bound.Some? {
      WithGroupKeeps(row.(state := LocatorDrift), [bound.value]);
      WithGroupKeeps(row, [bound.value]);
    }
  }

  // ------------------------------------------------------------------- Ready

  function ReadyRow(l: LocalRepository, r: RemoteRepository): DerivedRow {
    DerivedRow(WithLocal(WithGroup(EmptyRow(Ready), [r]), l), r.remoteID)
  }

  /** Binding either side of a located pair consumes the remote. */
  lemma BoundSideConsumes(x: Inputs, bindings: seq<Binding>, b: Binding, l: LocalRepository, r: RemoteRepository)
    requires x.current && WellFormed(x, bindings) && b in bindings && l in x.locals && r in x.remotes
    requires LocalLocator(x.baseURL, l) == Some(r.At())
    requires b.repositoryID == l.id || b.remoteID == r.remoteID
    ensures r.remoteID in Consumed(x, bindings)
  {
    ConsumedMembers(x, bindings, r.remoteID);
    RemotesAtMembers(x.remotes, r.At(), r);
    var local :| local in x.locals && local.id == b.repositoryID;
    FindLocalIs(x.locals, local);
    FindRemoteIs(x.remotes, r);
    if b.repositoryID == l.id {
      SameLocal(x.locals, local, l);
      assert r in LocalGroup(x, local);
    } else {
      assert r in BoundGroup(x, b);
    }
    assert r.remoteID in ConsumedBy(x, b);
  }

  lemma ReadyPairHasSingleGroups(x: Inputs, bindings: seq<Binding>, l: LocalRepository, r: RemoteRepository)
    requires x.current && WellFormed(x, bindings) && PairReady(x, bindings, l, r)
    ensures r.remoteID !in Consumed(x, bindings)
    ensures RemotesAt(x.remotes, r.At()) == [r] && LocalsAt(x.baseURL, x.locals, r.At()) == [l]
  {
    var at := r.At();
    RemotesAtMembers(x.remotes, at, r);
    LocalsAtMembers(x.baseURL, x.locals, at, l);
    RemotesAtSingle(x.remotes, at, r);
    OnlyElement(RemotesAt(x.remotes, at), r);
    LocalsAtSingle(x.baseURL, x.locals, at, l);
    OnlyElement(LocalsAt(x.baseURL, x.locals, at), l);
    UnboundRemoteNotConsumed(x, bindings, l, r);
  }

  /** A ready pair is exactly a locator left with one remote and one local match. */
  lemma ReadyGroups(x: Inputs, bindings: seq<Binding>, l: LocalRepository, r: RemoteRepository)
    requires x.current && WellFormed(x, bindings) && r in x.remotes
    ensures PairReady(x, bindings, l, r)
       <==> (Unconsumed(RemotesAt(x.remotes, r.At()), Consumed(x, bindings)) == [r]
             && LocalsAt(x.baseURL, x.locals, r.At()) == [l])
  {
    RemainingGroup(x, bindings, r);
    if PairReady(x, bindings, l, r) {
      ReadyPairHasSingleGroups(x, bindings, l, r);
    } else if r.remoteID !in Consumed(x, bindings)
              && RemotesAt(x.remotes, r.At()) == [r] && LocalsAt(x.baseURL, x.locals, r.At()) == [l] {
      SingleGroupsAreReady(x, bindings, l, r);
    }
  }

  lemma SingleGroupsAreReady(x: Inputs, bindings: seq<Binding>, l: LocalRepository, r: RemoteRepository)
    requires x.current && WellFormed(x, bindings) && r in x.remotes && r.remoteID !in Consumed(x, bindings)
    requires RemotesAt(x.remotes, r.At()) == [r] && LocalsAt(x.baseURL, x.locals, r.At()) == [l]
    ensures PairReady(x, bindings, l, r)
  {
    var at := r.At();
    LocalsAtMembers(x.baseURL, x.locals, at, l);
    forall l' | l' in x.locals && LocalLocator(x.baseURL, l') == Some(at) ensures l' == l {
      LocalsAtMembers(x.baseURL, x.locals, at, l');
    }
    forall r' | r' in x.remotes && r'.At() == at ensures r' == r {
      RemotesAtMembers(x.remotes, at, r');
    }
    forall b | b in bindings ensures b.repositoryID != l.id && b.remoteID != r.remoteID {
      if b.repositoryID == l.id || b.remoteID == r.remoteID {
        BoundSideConsumes(x, bindings, b, l, r);
      }
    }
  }

  lemma UnboundRemoteNotConsumed(x: Inputs, bindings: seq<Binding>, l: LocalRepository, r: RemoteRepository)
    requires x.current && WellFormed(x, bindings) && PairReady(x, bindings, l, r)
    ensures r.remoteID !in Consumed(x, bindings)
  {
    ConsumedMembers(x, bindings, r.remoteID);
    forall b | b in bindings ensures r.remoteID !in ConsumedBy(x, b) {
      var local :| local in x.locals && local.id == b.repositoryID;
      FindLocalIs(x.locals, local);
      forall member | member in LocalGroup(x, local) ensures member.remoteID != r.remoteID {
        RemotesAtMembers(x.remotes, OrZero(LocalLocator(x.baseURL, local)), member);
        if member.remoteID == r.remoteID { SameRemote(x.remotes, member, r); }
      }
      forall member | member in BoundGroup(x, b) ensures member.remoteID != r.remoteID {
        var bound := FindRemote(x.remotes, b.remoteID).value;
        FindRemoteMeaning(x.remotes, b.remoteID);
        RemotesAtMembers(x.remotes, bound.At(), member);
        if member.remoteID == r.remoteID { SameRemote(x.remotes, member, r); }
      }
    }
  }

  lemma LocatorRowState(x: Inputs, consumed: set<string>, at: Locator)
    requires Unconsumed(RemotesAt(x.remotes, at), consumed) != []
    ensures var group := Unconsumed(RemotesAt(x.remotes, at), consumed);
            var matches := LocalsAt(x.baseURL, x.locals, at);
            var row := LocatorRow(group, matches).row;
            && (row.state == Ready <==> |group| == 1 && |matches| == 1)
            && row.state in {DuplicateRemoteLocator, MultipleLocalMatches, Ready, Unmatched}
            && row.repositoryID == (if |group| == 1 && |matches| == 1 then matches[0].id else 0)
  {
    WithGroupKeeps(EmptyRow(Unmatched), Unconsumed(RemotesAt(x.remotes, at), consumed));
  }

  lemma {:induction false} SortedRowsMembers(x: Inputs, bindings: seq<Binding>, row: DerivedRow)
    requires x.current
    ensures row in Derive(x, bindings).rows <==>
              row in BoundRows(x, bindings) || row in RowsAt(x, Consumed(x, bindings), Locators(x))
  {
    SortKeepsElements(UnsortedRows(x, bindings), RowLess);
    assert row in Derive(x, bindings).rows <==> row in multiset(Derive(x, bindings).rows);
    assert row in UnsortedRows(x, bindings) <==> row in multiset(UnsortedRows(x, bindings));
  }

  lemma ReadyRowIsNotBound(x: Inputs, bindings: seq<Binding>, row: DerivedRow)
    requires row.row.state == Ready
    ensures row !in BoundRows(x, bindings)
  {
    BoundRowsMembers(x, bindings, row);
    forall b | b in bindings && FindLocal(x.locals, b.repositoryID).Some?
      ensures row != BoundRow(x, b, FindLocal(x.locals, b.repositoryID).value)
    {
      BoundRowNamesItsRepository(x, b, FindLocal(x.locals, b.repositoryID).value);
    }
  }

  lemma {:induction false} ReadyRowLocator(x: Inputs, bindings: seq<Binding>, row: DerivedRow) returns (at: Locator)
    requires x.current && row in Derive(x, bindings).rows && row.row.state == Ready
    ensures RowAt(x, Consumed(x, bindings), at) == [row]
  {
    SortedRowsMembers(x, bindings, row);
    ReadyRowIsNotBound(x, bindings, row);
    RowsAtMembers(x, Consumed(x, bindings), Locators(x), row);
    at :| at in Locators(x) && RowAt(x, Consumed(x, bindings), at) == [row];
  }

  lemma {:induction false} ReadyLocatorPair(x: Inputs, consumed: set<string>, at: Locator, row: DerivedRow)
    returns (l: LocalRepository, r: RemoteRepository)
    requires RowAt(x, consumed, at) == [row] && row.row.state == Ready
    ensures r in x.remotes && r.At() == at && row == ReadyRow(l, r)
    ensures Unconsumed(RemotesAt(x.remotes, at), consumed) == [r] && LocalsAt(x.baseURL, x.locals, at) == [l]
  {
    var group, matches := Unconsumed(RemotesAt(x.remotes, at), consumed), LocalsAt(x.baseURL, x.locals, at);
    LocatorRowState(x, consumed, at);
    r, l := group[0], matches[0];
    assert group == [r] && matches == [l];
    UnconsumedMembers(RemotesAt(x.remotes, at), consumed, r);
    RemotesAtMembers(x.remotes, at, r);
  }

  lemma {:induction false} ReadyRowIsReadyPair(x: Inputs, bindings: seq<Binding>, row: DerivedRow)
    returns (l: LocalRepository, r: RemoteRepository)
    requires x.current && WellFormed(x, bindings)
    requires row in Derive(x, bindings).rows && row.row.state == Ready
    ensures PairReady(x, bindings, l, r) && row == ReadyRow(l, r)
  {
    var at := ReadyRowLocator(x, bindings, row);
    l, r := ReadyLocatorPair(x, Consumed(x, bindings), at, row);
    ReadyGroups(x, bindings, l, r);
  }

  lemma ReadyPairIsListed(x: Inputs, bindings: seq<Binding>, l: LocalRepository, r: RemoteRepository)
    requires x.current && WellFormed(x, bindings) && PairReady(x, bindings, l, r)
    ensures ReadyRow(l, r) in Derive(x, bindings).rows && ReadyRow(l, r).row.state == Ready
    ensures r.At() in Locators(x) && RowAt(x, Consumed(x, bindings), r.At()) == [ReadyRow(l, r)]
  {
    var row := ReadyRow(l, r);
    ReadyGroups(x, bindings, l, r);
    LocatorsMeaning(x, r.At());
    assert RowAt(x, Consumed(x, bindings), r.At()) == [row];
    RowsAtMembers(x, Consumed(x, bindings), Locators(x), row);
    SortedRowsMembers(x, bindings, row);
  }

  /**
   With current evidence a listed row is Ready exactly when it joins one visible
   remote and one compatible local that name only each other and are both unbound.
   */
  lemma {:induction false} ReadyIff(x: Inputs, bindings: seq<Binding>, row: DerivedRow)
    requires x.current && WellFormed(x, bindings)
    ensures row in Derive(x, bindings).rows && row.row.state == Ready
       <==> exists l, r :: PairReady(x, bindings, l, r) && row == ReadyRow(l, r)
  {
    if row in Derive(x, bindings).rows && row.row.state == Ready {
      var l, r := ReadyRowIsReadyPair(x, bindings, row);
    }
    if l, r :| PairReady(x, bindings, l, r) && row == ReadyRow(l, r) {
      ReadyPairIsListed(x, bindings, l, r);
    }
  }

  lemma {:induction false} ReadyRemotesMembers(x: Inputs, consumed: set<string>, locators: seq<Locator>, id: int)
    requires UniqueLocals(x.locals)
    ensures var ready := ReadyRemotes(x, consumed, locators);
            id in ready ==>
              exists at, l :: at in locators && LocalsAt(x.baseURL, x.locals, at) == [l] && l.id == id
                              && Unconsumed(RemotesAt(x.remotes, at), consumed) == [ready[id]]
    ensures forall at, l, r ::
              at in locators && LocalsAt(x.baseURL, x.locals, at) == [l] && l.id == id
              && Unconsumed(RemotesAt(x.remotes, at), consumed) == [r]
              ==> id in ReadyRemotes(x, consumed, locators)
  {
    if locators != [] {
      var last := |locators| - 1;
      ReadyRemotesMembers(x, consumed, locators[..last], id);
      LastOrBefore(locators);
      var at := locators[last];
      var group, matches := Unconsumed(RemotesAt(x.remotes, at), consumed), LocalsAt(x.baseURL, x.locals, at);
      var ready := ReadyRemotes(x, consumed, locators);
      if id in ready {
        if |group| == 1 && |matches| == 1 && matches[0].id == id {
          assert at in locators && matches == [matches[0]] && group == [ready[id]];
        } else {
          var before, l :| before in locators[..last] && LocalsAt(x.baseURL, x.locals, before) == [l] && l.id == id
                           && Unconsumed(RemotesAt(x.remotes, before), consumed) == [ready[id]];
          assert before in locators;
        }
      }
    }
  }

  /** The map the bind command consults holds exactly the ready pairs. */
  lemma ReadyRemoteIff(x: Inputs, bindings: seq<Binding>, l: LocalRepository)
    requires x.current && WellFormed(x, bindings) && l in x.locals
    ensures var ready := Derive(x, bindings).readyRemotes;
            && (l.id in ready ==> PairReady(x, bindings, l, ready[l.id]))
            && ((exists r :: PairReady(x, bindings, l, r)) ==> l.id in ready)
  {
    var consumed := Consumed(x, bindings);
    var ready := Derive(x, bindings).readyRemotes;
    ReadyRemotesMembers(x, consumed, Locators(x), l.id);
    if l.id in ready {
      var at, l' :| at in Locators(x) && LocalsAt(x.baseURL, x.locals, at) == [l'] && l'.id == l.id
                    && Unconsumed(RemotesAt(x.remotes, at), consumed) == [ready[l.id]];
      LocalsAtMembers(x.baseURL, x.locals, at, l');
      SameLocal(x.locals, l, l');
      UnconsumedMembers(RemotesAt(x.remotes, at), consumed, ready[l.id]);
      RemotesAtMembers(x.remotes, at, ready[l.id]);
      ReadyGroups(x, bindings, l, ready[l.id]);
    }
    if exists r :: PairReady(x, bindings, l, r) {
      var r :| PairReady(x, bindings, l, r);
      ReadyGroups(x, bindings, l, r);
      LocatorsMeaning(x, r.At());
    }
  }

  /**
   Every visible remote is accounted for exactly once: either some bound row
   consumed it, or its whole locator group stands behind the single row of its
   locator and behind no other.
   */
  lemma {:induction false} EveryRemoteCoveredOnce(x: Inputs, bindings: seq<Binding>, r: RemoteRepository)
    requires x.current && WellFormed(x, bindings) && r in x.remotes
    ensures r.remoteID in Consumed(x, bindings) <==>
              exists b :: b in bindings && r.remoteID in ConsumedBy(x, b)
    ensures r.remoteID !in Consumed(x, bindings) ==>
              && RemotesAt(x.remotes, r.At()) != [] && multiset(Locators(x))[r.At()] == 1
              && RowAt(x, Consumed(x, bindings), r.At())
                 == [LocatorRow(RemotesAt(x.remotes, r.At()), LocalsAt(x.baseURL, x.locals, r.At()))]
    ensures forall at ::
              r in Unconsumed(RemotesAt(x.remotes, at), Consumed(x, bindings))
              <==> (at == r.At() && r.remoteID !in Consumed(x, bindings))
  {
    ConsumedMembers(x, bindings, r.remoteID);
    RemainingGroup(x, bindings, r);
    LocatorsMeaning(x, r.At());
    RemotesAtMembers(x.remotes, r.At(), r);
    assert r.At() in Locators(x) && r.At() in multiset(Locators(x));
    forall at ensures r in Unconsumed(RemotesAt(x.remotes, at), Consumed(x, bindings))
                      <==> (at == r.At() && r.remoteID !in Consumed(x, bindings))
    {
      UnconsumedMembers(RemotesAt(x.remotes, at), Consumed(x, bindings), r);
      RemotesAtMembers(x.remotes, at, r);
    }
  }

  lemma {:induction false} WithNamesNames(row: BindingRow, group: seq<RemoteRepository>, r: RemoteRepository)
    ensures r in group ==> r.FullName() in WithNames(row, group).remoteFullNames
    ensures forall name :: name in row.remoteFullNames ==> name in WithNames(row, group).remoteFullNames
  {
    if group != [] {
      LastOrBefore(group);
      WithNamesNames(row, group[..|group| - 1], r);
    }
  }

  lemma {:induction false} WithGroupNames(row: BindingRow, group: seq<RemoteRepository>, r: RemoteRepository)
    requires r in group
    ensures r.FullName() in WithGroup(row, group).remoteFullNames
  {
    LastOrBefore(group);
    if |group| > 1 && r != group[|group| - 1] { WithGroupNames(row, group[..|group| - 1], r); }
  }

  lemma ConflictRowNames(row: BindingRow, first: seq<RemoteRepository>, second: seq<RemoteRepository>, r: RemoteRepository)
    requires r in first || r in second
    ensures r.FullName() in WithNames(WithGroup(row, first), second).remoteFullNames
  {
    WithNamesNames(WithGroup(row, first), second, r);
    if r in first { WithGroupNames(row, first, r); }
  }

  /** A bound row names every remote it consumes. */
  lemma BoundRowNamesConsumed(x: Inputs, b: Binding, local: LocalRepository, r: RemoteRepository)
    requires x.current && UniqueRemotes(x.remotes) && r in x.remotes && FindLocal(x.locals, b.repositoryID) == Some(local)
    requires r.remoteID in ConsumedBy(x, b)
    ensures r.FullName() in BoundRow(x, b, local).row.remoteFullNames
  {
    var here, there := LocalGroup(x, local), BoundGroup(x, b);
    var at := OrZero(LocalLocator(x.baseURL, local));
    FindRemoteMeaning(x.remotes, b.remoteID);
    assert r in here || r in there by {
      if member :| member in here && member.remoteID == r.remoteID {
        RemotesAtMembers(x.remotes, at, member);
        SameRemote(x.remotes, member, r);
      } else {
        var member :| member in there && member.remoteID == r.remoteID;
        RemotesAtMembers(x.remotes, FindRemote(x.remotes, b.remoteID).value.At(), member);
        SameRemote(x.remotes, member, r);
      }
    }
    if Conflicting(x, b, local) {
      var first, second := if here == [] then there else here, if here == [] then here else there;
      ConflictRowNames(WithLocal(EmptyRow(BoundCurrent), local).(state := IdentityConflict), first, second, r);
    } else {
      UnconflictedIsBoundRemote(x, b, local, r);
    }
  }

  /** Without a conflict the only remote a binding consumes is the bound one. */
  lemma UnconflictedIsBoundRemote(x: Inputs, b: Binding, local: LocalRepository, r: RemoteRepository)
    requires UniqueRemotes(x.remotes) && r in x.remotes && !Conflicting(x, b, local)
    requires r in LocalGroup(x, local) || r in BoundGroup(x, b)
    ensures FindRemote(x.remotes, b.remoteID) == Some(r)
  {
    FindRemoteMeaning(x.remotes, b.remoteID);
    if r in LocalGroup(x, local) {
      assert r.remoteID == b.remoteID;
      FindRemoteIs(x.remotes, r);
    } else {
      var bound := FindRemote(x.remotes, b.remoteID).value;
      RemotesAtMembers(x.remotes, bound.At(), bound);
      assert BoundGroup(x, b) == [BoundGroup(x, b)[0]];
    }
  }

  lemma {:induction false} BoundRowListed(x: Inputs, bindings: seq<Binding>, b: Binding)
    requires b in bindings && FindLocal(x.locals, b.repositoryID).Some?
    ensures BoundRow(x, b, FindLocal(x.locals, b.repositoryID).value) in BoundRows(x, bindings)
  {
    LastOrBefore(bindings);
    if b in bindings[..|bindings| - 1] { BoundRowListed(x, bindings[..|bindings| - 1], b); }
  }

  lemma LocatorRowNames(group: seq<RemoteRepository>, matches: seq<LocalRepository>, r: RemoteRepository)
    requires r in group
    ensures r.FullName() in LocatorRow(group, matches).row.remoteFullNames
  {
    WithGroupNames(EmptyRow(Unmatched), group, r);
  }

  /** No visible remote is lost between the passes: some listed row names each of them, a bound one if any consumed it. */
  lemma {:induction false} EveryRemoteIsNamed(x: Inputs, bindings: seq<Binding>, r: RemoteRepository) returns (row: DerivedRow)
    requires x.current && WellFormed(x, bindings) && r in x.remotes
    ensures row in Derive(x, bindings).rows && r.FullName() in row.row.remoteFullNames
    ensures r.remoteID in Consumed(x, bindings) <==> row.row.state in {IdentityConflict, LocatorDrift, BoundCurrent, NotVisible}
  {
    if r.remoteID in Consumed(x, bindings) {
      ConsumedMembers(x, bindings, r.remoteID);
      var b :| b in bindings && r.remoteID in ConsumedBy(x, b);
      var local := FindLocal(x.locals, b.repositoryID).value;
      row := BoundRow(x, b, local);
      BoundRowNamesConsumed(x, b, local, r);
      BoundRowListed(x, bindings, b);
      BoundRowNamesItsRepository(x, b, local);
    } else {
      EveryRemoteCoveredOnce(x, bindings, r);
      LocatorsMeaning(x, r.At());
      RemotesAtMembers(x.remotes, r.At(), r);
      row := LocatorRow(RemotesAt(x.remotes, r.At()), LocalsAt(x.baseURL, x.locals, r.At()));
      LocatorRowNames(RemotesAt(x.remotes, r.At()), LocalsAt(x.baseURL, x.locals, r.At()), r);
      RowsAtMembers(x, Consumed(x, bindings), Locators(x), row);
      LocatorRowState(x, Consumed(x, bindings), r.At());
    }
    SortedRowsMembers(x, bindings, row);
  }

  /** `b`'s remote is visible under `b`'s organization, and `local` and it name only each other. */
  ghost predicate MutuallyNamed(x: Inputs, b: Binding, local: LocalRepository, r: RemoteRepository) {
    && r in x.remotes && r.remoteID == b.remoteID
    && x.organizationID == Some(b.organizationID)
    && LocalLocator(x.baseURL, local) == Some(r.At())
    && (forall l' :: l' in x.locals && LocalLocator(x.baseURL, l') == Some(r.At()) ==> l' == local)
    && (forall r' :: r' in x.remotes && r'.At() == r.At() ==> r' == r)
  }

  lemma MutuallyNamedIsCurrent(x: Inputs, b: Binding, local: LocalRepository, r: RemoteRepository)
    requires x.current && UniqueLocals(x.locals) && UniqueRemotes(x.remotes)
    requires local in x.locals && local.id == b.repositoryID && MutuallyNamed(x, b, local, r)
    ensures BoundRow(x, b, local) == DerivedRow(WithLocal(WithGroup(EmptyRow(BoundCurrent), [r]), local), r.remoteID)
    ensures BoundRow(x, b, local).row.state == BoundCurrent
    ensures ConsumedBy(x, b) == {r.remoteID}
  {
    FindRemoteIs(x.remotes, r);
    FindLocalIs(x.locals, local);
    RemotesAtMembers(x.remotes, r.At(), r);
    RemotesAtSingle(x.remotes, r.At(), r);
    LocalsAtMembers(x.baseURL, x.locals, r.At(), local);
    LocalsAtSingle(x.baseURL, x.locals, r.At(), local);
    assert RemotesAt(x.remotes, r.At()) == [r] && LocalsAt(x.baseURL, x.locals, r.At()) == [local];
    assert !Conflicting(x, b, local);
  }

  lemma CurrentMeansNoConflict(x: Inputs, b: Binding, local: LocalRepository)
    requires x.current && BoundRow(x, b, local).row.state == BoundCurrent
    ensures !Conflicting(x, b, local) && FindRemote(x.remotes, b.remoteID).Some?
    ensures LocalLocator(x.baseURL, local) == Some(FindRemote(x.remotes, b.remoteID).value.At())
  {
    var base := WithLocal(EmptyRow(BoundCurrent), local);
    var here, there := LocalGroup(x, local), BoundGroup(x, b);
    var first, second := if here == [] then there else here, if here == [] then here else there;
    WithGroupKeeps(base.(state := IdentityConflict), first);
    WithNamesKeeps(WithGroup(base.(state := IdentityConflict), first), second);
    var bound := FindRemote(x.remotes, b.remoteID);
    if bound.Some? { WithGroupKeeps(base.(state := LocatorDrift), [bound.value]); }
  }

  lemma CurrentIsMutuallyNamed(x: Inputs, b: Binding, local: LocalRepository) returns (r: RemoteRepository)
    requires x.current && UniqueLocals(x.locals) && UniqueRemotes(x.remotes)
    requires local in x.locals && local.id == b.repositoryID
    requires BoundRow(x, b, local).row.state == BoundCurrent
    ensures MutuallyNamed(x, b, local, r)
  {
    CurrentMeansNoConflict(x, b, local);
    FindRemoteMeaning(x.remotes, b.remoteID);
    r := FindRemote(x.remotes, b.remoteID).value;
    RemotesAtMembers(x.remotes, r.At(), r);
    LocalsAtMembers(x.baseURL, x.locals, r.At(), local);
    forall l' | l' in x.locals && LocalLocator(x.baseURL, l') == Some(r.At()) ensures l' == local {
      LocalsAtMembers(x.baseURL, x.locals, r.At(), l');
    }
    forall r' | r' in x.remotes && r'.At() == r.At() ensures r' == r {
      RemotesAtMembers(x.remotes, r.At(), r');
    }
  }

  /**
   A bound row reads `bound_current` exactly when the bound remote is visible
   under the bound organization, and local and remote name each other and nothing else.
   */
  lemma BoundCurrentIff(x: Inputs, b: Binding, local: LocalRepository)
    requires x.current && UniqueLocals(x.locals) && UniqueRemotes(x.remotes)
    requires local in x.locals && local.id == b.repositoryID
    ensures BoundRow(x, b, local).row.state == BoundCurrent <==> exists r :: MutuallyNamed(x, b, local, r)
  {
    if BoundRow(x, b, local).row.state == BoundCurrent {
      var r := CurrentIsMutuallyNamed(x, b, local);
    }
    if r :| MutuallyNamed(x, b, local, r) {
      MutuallyNamedIsCurrent(x, b, local, r);
    }
  }
}
