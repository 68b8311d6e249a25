/**
 The repository binding read model: local repositories, visible remote
 repositories and immutable bindings joined in two passes that share one
 `consumed` set.
 */
module BindingDerivation {
  import opened Wrappers
  import opened Order

  datatype Locator = Locator(owner: string, name: string)

  /** What a failed locator lookup leaves behind: Go's zero value. */
  const ZERO_LOCATOR := Locator("", "")

  /** `forge` is trimmed and lower-cased; `canonicalBaseURL` is None when canonicalisation fails. */
  datatype LocalRepository = LocalRepository(
    id: int, forge: string, canonicalBaseURL: Option<string>, owner: string, name: string,
    defaultBranch: string, active: bool, createdAt: int)

  datatype RemoteRepository = RemoteRepository(
    organizationID: int, remoteID: string, owner: string, name: string, defaultBranch: string,
    private: bool, generation: int, observedAt: int)
  {
    function At(): Locator { Locator(owner, name) }
    function FullName(): string { owner + "/" + name }
  }

  datatype Binding = Binding(repositoryID: int, organizationID: int, remoteID: string)

  datatype SetupCheck = SetupCheck(
    configRevision: int, checkGeneration: int, observed: bool,
    visibleCount: Option<int>, visiblePrivateCount: Option<int>)

  /** `organizationID` is None until the first observed check binds an organization. */
  datatype Connection = Connection(
    id: int, revision: int, checkGeneration: int, bindingRevision: int, baseURL: string,
    organizationID: Option<int>, setupCheck: Option<SetupCheck>)

  datatype BindingState =
    | LastObservedOnly | PreviewNotCurrent | IdentityConflict | LocatorDrift | BoundCurrent
    | NotVisible | Ready | Unmatched | MultipleLocalMatches | DuplicateRemoteLocator

  datatype BindingRow = BindingRow(
    state: BindingState, repositoryID: int, repositoryCreatedAt: int, localFullName: string,
    localDefaultBranch: string, localActive: bool, remoteFullName: string,
    remoteFullNames: seq<string>, remoteDefaultBranch: string, remotePrivate: Option<bool>,
    observedAt: int)

  datatype DerivedRow = DerivedRow(row: BindingRow, remoteID: string)

  datatype Derivation = Derivation(
    current: bool, rows: seq<DerivedRow>, readyRemotes: map<int, RemoteRepository>)

  function EmptyRow(state: BindingState): BindingRow {
    BindingRow(state, 0, 0, "", "", false, "", [], "", None, 0)
  }

  // ---------------------------------------------------------------- lookups

  function LocalLocator(baseURL: string, local: LocalRepository): Option<Locator> {
    if local.forge in ["", "forgejo", "codeberg"] && local.canonicalBaseURL == Some(baseURL)
    then Some(Locator(local.owner, local.name))
    else None
  }

  function OrZero(locator: Option<Locator>): Locator {
    if locator.Some? then locator.value else ZERO_LOCATOR
  }

  /** Later entries win, as a map filled in a loop does. */
  function FindLocal(locals: seq<LocalRepository>, id: int): Option<LocalRepository> {
    if locals == [] then None
    else
      var last := |locals| - 1;
      if locals[last].id == id then Some(locals[last]) else FindLocal(locals[..last], id)
  }

  function FindRemote(remotes: seq<RemoteRepository>, id: string): Option<RemoteRepository> {
    if remotes == [] then None
    else
      var last := |remotes| - 1;
      if remotes[last].remoteID == id then Some(remotes[last]) else FindRemote(remotes[..last], id)
  }

  function LocalsAt(baseURL: string, locals: seq<LocalRepository>, at: Locator): seq<LocalRepository> {
    if locals == [] then []
    else
      var last := |locals| - 1;
      LocalsAt(baseURL, locals[..last], at)
      + if LocalLocator(baseURL, locals[last]) == Some(at) then [locals[last]] else []
  }

  function RemotesAt(remotes: seq<RemoteRepository>, at: Locator): seq<RemoteRepository> {
    if remotes == [] then []
    else
      var last := |remotes| - 1;
      RemotesAt(remotes[..last], at) + if remotes[last].At() == at then [remotes[last]] else []
  }

  function Unconsumed(group: seq<RemoteRepository>, consumed: set<string>): seq<RemoteRepository> {
    if group == [] then []
    else
      var last := |group| - 1;
      Unconsumed(group[..last], consumed)
      + if group[last].remoteID in consumed then [] else [group[last]]
  }

  function IDs(group: seq<RemoteRepository>): set<string> {
    set r | r in group :: r.remoteID
  }

  /** Distinct locators in order of first appearance. */
  function DistinctLocators(remotes: seq<RemoteRepository>): seq<Locator> {
    if remotes == [] then []
    else
      var last := |remotes| - 1;
      var before := DistinctLocators(remotes[..last]);
      if remotes[last].At() in before then before else before + [remotes[last].At()]
  }

  predicate LocatorLess(a: Locator, b: Locator) {
    if a.owner != b.owner then TextLess(a.owner, b.owner) else TextLess(a.name, b.name)
  }

  function PrivateCount(remotes: seq<RemoteRepository>): nat {
    if remotes == [] then 0
    else
      var last := |remotes| - 1;
      PrivateCount(remotes[..last]) + if remotes[last].private then 1 else 0
  }

  predicate CurrentEvidence(connection: Connection, remotes: seq<RemoteRepository>) {
    && connection.setupCheck.Some?
    && connection.organizationID.Some? && connection.organizationID.value > 0
    && connection.setupCheck.value.configRevision == connection.revision
    && connection.setupCheck.value.checkGeneration == connection.checkGeneration
    && connection.setupCheck.value.observed
    && connection.setupCheck.value.visibleCount == Some(|remotes|)
    && (forall r :: r in remotes ==>
          r.generation == connection.checkGeneration
          && r.organizationID == connection.organizationID.value)
    && connection.setupCheck.value.visiblePrivateCount == Some(PrivateCount(remotes))
  }

  // ------------------------------------------------------------ row contents

  function WithLocal(row: BindingRow, local: LocalRepository): BindingRow {
    row.(repositoryID := local.id, repositoryCreatedAt := local.createdAt,
         localFullName := local.owner + "/" + local.name,
         localDefaultBranch := local.defaultBranch, localActive := local.active)
  }

  function AddName(names: seq<string>, name: string): seq<string> {
    if name in names then names else names + [name]
  }

  function WithNames(row: BindingRow, group: seq<RemoteRepository>): BindingRow {
    if group == [] then row
    else
      var last := |group| - 1;
      var before := WithNames(row, group[..last]);
      before.(remoteFullNames := AddName(before.remoteFullNames, group[last].FullName()))
  }

  function WithGroup(row: BindingRow, group: seq<RemoteRepository>): BindingRow {
    if group == [] then row
    else if |group| == 1 then
      row.(remoteFullName := group[0].FullName(), remoteFullNames := [group[0].FullName()],
           remoteDefaultBranch := group[0].defaultBranch,
           remotePrivate := Some(group[0].private), observedAt := group[0].observedAt)
    else
      var last := |group| - 1;
      var before := WithGroup(row, group[..last]);
      before.(
        remoteFullNames := AddName(before.remoteFullNames, group[last].FullName()),
        remoteFullName := if group[last].At() != group[0].At() then "" else before.remoteFullName,
        remoteDefaultBranch :=
          if group[last].defaultBranch != group[0].defaultBranch then "" else before.remoteDefaultBranch,
        remotePrivate :=
          if group[last].private != group[0].private then None else before.remotePrivate)
  }

  /** What both passes read besides the bindings. */
  datatype Inputs = Inputs(
    current: bool, baseURL: string, organizationID: Option<int>,
    locals: seq<LocalRepository>, remotes: seq<RemoteRepository>)

  function InputsOf(connection: Connection, locals: seq<LocalRepository>, remotes: seq<RemoteRepository>): Inputs {
    Inputs(CurrentEvidence(connection, remotes), connection.baseURL, connection.organizationID, locals, remotes)
  }

  function LocalGroup(x: Inputs, local: LocalRepository): seq<RemoteRepository> {
    RemotesAt(x.remotes, OrZero(LocalLocator(x.baseURL, local)))
  }

  function BoundGroup(x: Inputs, b: Binding): seq<RemoteRepository> {
    var bound := FindRemote(x.remotes, b.remoteID);
    if bound.Some? then RemotesAt(x.remotes, bound.value.At()) else []
  }

  predicate Conflicting(x: Inputs, b: Binding, local: LocalRepository) {
    var locator := LocalLocator(x.baseURL, local);
    var matches := LocalsAt(x.baseURL, x.locals, OrZero(locator));
    || x.organizationID != Some(b.organizationID)
    || (locator.Some? && (|matches| != 1 || matches[0].id != local.id))
    || (exists r :: r in LocalGroup(x, local) && r.remoteID != b.remoteID)
    || |BoundGroup(x, b)| > 1
  }

  function BoundRow(x: Inputs, b: Binding, local: LocalRepository): DerivedRow {
    var bound := FindRemote(x.remotes, b.remoteID);
    var locator := LocalLocator(x.baseURL, local);
    var row := WithLocal(EmptyRow(BoundCurrent), local);
    if !x.current then
      var retained := row.(state := LastObservedOnly);
      DerivedRow(if bound.Some? then WithGroup(retained, [bound.value]) else retained, b.remoteID)
    else if Conflicting(x, b, local) then
      var here, there := LocalGroup(x, local), BoundGroup(x, b);
      var first, second := if here == [] then there else here, if here == [] then here else there;
      DerivedRow(WithNames(WithGroup(row.(state := IdentityConflict), first), second), b.remoteID)
    else if bound.Some? && (locator.None? || bound.value.At() != locator.value) then
      DerivedRow(WithGroup(row.(state := LocatorDrift), [bound.value]), b.remoteID)
    else if bound.Some? then
      DerivedRow(WithGroup(row, [bound.value]), b.remoteID)
    else
      DerivedRow(row.(state := NotVisible), b.remoteID)
  }

  function ConsumedBy(x: Inputs, b: Binding): set<string> {
    var local := FindLocal(x.locals, b.repositoryID);
    if local.None? then {}
    else if !x.current then (if FindRemote(x.remotes, b.remoteID).Some? then {b.remoteID} else {})
    else IDs(LocalGroup(x, local.value)) + IDs(BoundGroup(x, b))
  }

  function BoundRows(x: Inputs, bindings: seq<Binding>): seq<DerivedRow> {
    if bindings == [] then []
    else
      var last := |bindings| - 1;
      var local := FindLocal(x.locals, bindings[last].repositoryID);
      BoundRows(x, bindings[..last])
      + if local.None? then [] else [BoundRow(x, bindings[last], local.value)]
  }

  function Consumed(x: Inputs, bindings: seq<Binding>): set<string> {
    if bindings == [] then {}
    else
      var last := |bindings| - 1;
      Consumed(x, bindings[..last]) + ConsumedBy(x, bindings[last])
  }

  function BoundRepositories(bindings: seq<Binding>): set<int> {
    set b | b in bindings :: b.repositoryID
  }

  // ------------------------------------------------------------- second pass

  function SmallestID(group: seq<RemoteRepository>): string {
    if group == [] then ""
    else if |group| == 1 then group[0].remoteID
    else
      var last := |group| - 1;
      var before := SmallestID(group[..last]);
      if TextLess(group[last].remoteID, before) then group[last].remoteID else before
  }

  function LocatorRow(group: seq<RemoteRepository>, matches: seq<LocalRepository>): DerivedRow
    requires group != []
  {
    var row := WithGroup(EmptyRow(Unmatched), group);
    DerivedRow(
      if |group| > 1 then row.(state := DuplicateRemoteLocator)
      else if |matches| > 1 then row.(state := MultipleLocalMatches)
      else if |matches| == 1 then WithLocal(row.(state := Ready), matches[0])
      else row,
      SmallestID(group))
  }

  /** The row one locator contributes: none when all its remotes are consumed. */
  function RowAt(x: Inputs, consumed: set<string>, at: Locator): seq<DerivedRow> {
    var group := Unconsumed(RemotesAt(x.remotes, at), consumed);
    if group == [] then [] else [LocatorRow(group, LocalsAt(x.baseURL, x.locals, at))]
  }

  function RowsAt(x: Inputs, consumed: set<string>, locators: seq<Locator>): seq<DerivedRow> {
    if locators == [] then []
    else
      var last := |locators| - 1;
      RowsAt(x, consumed, locators[..last]) + RowAt(x, consumed, locators[last])
  }

  function ReadyRemotes(x: Inputs, consumed: set<string>, locators: seq<Locator>): map<int, RemoteRepository> {
    if locators == [] then map[]
    else
      var last := |locators| - 1;
      var before := ReadyRemotes(x, consumed, locators[..last]);
      var group := Unconsumed(RemotesAt(x.remotes, locators[last]), consumed);
      var matches := LocalsAt(x.baseURL, x.locals, locators[last]);
      if |group| == 1 && |matches| == 1 then before[matches[0].id := group[0]] else before
  }

  function PreviewRow(x: Inputs, bound: set<int>, r: RemoteRepository): DerivedRow {
    var row := WithGroup(EmptyRow(PreviewNotCurrent), [r]);
    var matches := LocalsAt(x.baseURL, x.locals, r.At());
    DerivedRow(if |matches| == 1 && matches[0].id !in bound then WithLocal(row, matches[0]) else row, r.remoteID)
  }

  function PreviewRows(x: Inputs, bound: set<int>, consumed: set<string>, remotes: seq<RemoteRepository>): seq<DerivedRow> {
    if remotes == [] then []
    else
      var last := |remotes| - 1;
      PreviewRows(x, bound, consumed, remotes[..last])
      + if remotes[last].remoteID in consumed then [] else [PreviewRow(x, bound, remotes[last])]
  }

  // --------------------------------------------------------------- final sort

  function PrimaryFullName(row: BindingRow): string {
    if row.remoteFullName != "" then row.remoteFullName
    else if row.localFullName != "" then row.localFullName
    else if row.remoteFullNames != [] then row.remoteFullNames[0]
    else ""
  }

  predicate RowLess(a: DerivedRow, b: DerivedRow) {
    var first, second := PrimaryFullName(a.row), PrimaryFullName(b.row);
    if first != second then TextLess(first, second)
    else if a.row.repositoryID != b.row.repositoryID then a.row.repositoryID < b.row.repositoryID
    else TextLess(a.remoteID, b.remoteID)
  }

  function Locators(x: Inputs): seq<Locator> {
    StableSort(DistinctLocators(x.remotes), LocatorLess)
  }

  /** The second pass: by locator over current evidence, remote by remote without. */
  function UnboundRows(x: Inputs, bindings: seq<Binding>): seq<DerivedRow> {
    var consumed := Consumed(x, bindings);
    if x.current then RowsAt(x, consumed, Locators(x))
    else PreviewRows(x, BoundRepositories(bindings), consumed, x.remotes)
  }

  function UnsortedRows(x: Inputs, bindings: seq<Binding>): seq<DerivedRow> {
    BoundRows(x, bindings) + UnboundRows(x, bindings)
  }

  function Derive(x: Inputs, bindings: seq<Binding>): Derivation {
    Derivation(
      x.current,
      StableSort(UnsortedRows(x, bindings), RowLess),
      if x.current then ReadyRemotes(x, Consumed(x, bindings), Locators(x)) else map[])
  }

  // ------------------------------------------------------- the loops themselves

  method ApplyRemoteGroup(row: BindingRow, group: seq<RemoteRepository>) returns (r: BindingRow)
    ensures r == WithGroup(row, group)
  {
    r := row;
    if |group| == 0 { return; }
    var first := group[0];
    r := r.(remoteFullName := first.FullName());
    r := r.(remoteFullNames := [r.remoteFullName]);
    r := r.(remoteDefaultBranch := first.defaultBranch);
    r := r.(remotePrivate := Some(first.private), observedAt := first.observedAt);
    assert group[..1] == [first];
    for i := 1 to |group|
      invariant r == WithGroup(row, group[..i])
    {
      assert group[..i + 1][..i] == group[..i];
      var remote := group[i];
      if remote.FullName() !in r.remoteFullNames {
        r := r.(remoteFullNames := r.remoteFullNames + [remote.FullName()]);
      }
      if remote.At() != first.At() { r := r.(remoteFullName := ""); }
      if remote.defaultBranch != first.defaultBranch { r := r.(remoteDefaultBranch := ""); }
      if remote.private != first.private { r := r.(remotePrivate := None); }
    }
    assert group[..|group|] == group;
  }

  method AppendRemoteFullNames(row: BindingRow, group: seq<RemoteRepository>) returns (r: BindingRow)
    ensures r == WithNames(row, group)
  {
    r := row;
    for i := 0 to |group|
      invariant r == WithNames(row, group[..i])
    {
      assert group[..i + 1][..i] == group[..i];
      if group[i].FullName() !in r.remoteFullNames {
        r := r.(remoteFullNames := r.remoteFullNames + [group[i].FullName()]);
      }
    }
    assert group[..|group|] == group;
  }

  method UnconsumedRemotes(group: seq<RemoteRepository>, consumed: set<string>) returns (remaining: seq<RemoteRepository>)
    ensures remaining == Unconsumed(group, consumed)
  {
    remaining := [];
    for i := 0 to |group|
      invariant remaining == Unconsumed(group[..i], consumed)
    {
      assert group[..i + 1][..i] == group[..i];
      if group[i].remoteID !in consumed { remaining := remaining + [group[i]]; }
    }
    assert group[..|group|] == group;
  }

  method SmallestRemoteID(group: seq<RemoteRepository>) returns (id: string)
    ensures id == SmallestID(group)
  {
    if |group| == 0 { return ""; }
    id := group[0].remoteID;
    assert group[..1] == [group[0]];
    for i := 1 to |group|
      invariant id == SmallestID(group[..i])
    {
      assert group[..i + 1][..i] == group[..i];
      if TextLess(group[i].remoteID, id) { id := group[i].remoteID; }
    }
    assert group[..|group|] == group;
  }

  function At<K, V>(m: map<K, seq<V>>, k: K): seq<V> { if k in m then m[k] else [] }

  method IndexLocals(baseURL: string, locals: seq<LocalRepository>)
    returns (byID: map<int, LocalRepository>, byLocator: map<Locator, seq<LocalRepository>>)
    ensures forall id :: (if id in byID then Some(byID[id]) else None) == FindLocal(locals, id)
    ensures forall at :: At(byLocator, at) == LocalsAt(baseURL, locals, at)
  {
    byID, byLocator := map[], map[];
    for i := 0 to |locals|
      invariant forall id :: (if id in byID then Some(byID[id]) else None) == FindLocal(locals[..i], id)
      invariant forall at :: At(byLocator, at) == LocalsAt(baseURL, locals[..i], at)
    {
      assert locals[..i + 1][..i] == locals[..i];
      byID := byID[locals[i].id := locals[i]];
      var locator := LocalLocator(baseURL, locals[i]);
      if locator.Some? {
        byLocator := byLocator[locator.value := At(byLocator, locator.value) + [locals[i]]];
      }
    }
    assert locals[..|locals|] == locals;
  }

  method IndexRemotes(remotes: seq<RemoteRepository>)
    returns (byID: map<string, RemoteRepository>, byLocator: map<Locator, seq<RemoteRepository>>, locators: seq<Locator>)
    ensures forall id :: (if id in byID then Some(byID[id]) else None) == FindRemote(remotes, id)
    ensures forall at :: At(byLocator, at) == RemotesAt(remotes, at)
    ensures locators == DistinctLocators(remotes)
  {
    byID, byLocator, locators := map[], map[], [];
    for i := 0 to |remotes|
      invariant forall id :: (if id in byID then Some(byID[id]) else None) == FindRemote(remotes[..i], id)
      invariant forall at :: At(byLocator, at) == RemotesAt(remotes[..i], at)
      invariant forall at :: at in byLocator <==> at in locators
      invariant locators == DistinctLocators(remotes[..i])
    {
      assert remotes[..i + 1][..i] == remotes[..i];
      var at := remotes[i].At();
      byID := byID[remotes[i].remoteID := remotes[i]];
      if at !in byLocator { locators := locators + [at]; }
      byLocator := byLocator[at := At(byLocator, at) + [remotes[i]]];
    }
    assert remotes[..|remotes|] == remotes;
  }

  /** One bound row, branch for branch as the first pass decides it when evidence is current. */
  method CurrentBoundRow(
    x: Inputs, b: Binding, local: LocalRepository, bound: Option<RemoteRepository>,
    localMatches: seq<LocalRepository>, localGroup: seq<RemoteRepository>, boundGroup: seq<RemoteRepository>)
    returns (row: BindingRow)
    requires x.current && bound == FindRemote(x.remotes, b.remoteID)
    requires localMatches == LocalsAt(x.baseURL, x.locals, OrZero(LocalLocator(x.baseURL, local)))
    requires localGroup == LocalGroup(x, local) && boundGroup == BoundGroup(x, b)
    ensures DerivedRow(row, b.remoteID) == BoundRow(x, b, local)
  {
    row := WithLocal(EmptyRow(BoundCurrent), local);
    var locator := LocalLocator(x.baseURL, local);
    var identityConflict := x.organizationID != Some(b.organizationID);
    if locator.Some? && (|localMatches| != 1 || localMatches[0].id != local.id) {
      identityConflict := true;
    }
    var i := 0;
    while i < |localGroup|
      invariant 0 <= i <= |localGroup|
      invariant forall j :: 0 <= j < i ==> localGroup[j].remoteID == b.remoteID
    {
      if localGroup[i].remoteID != b.remoteID { identityConflict := true; break; }
      i := i + 1;
    }
    if |boundGroup| > 1 { identityConflict := true; }
    assert identityConflict == Conflicting(x, b, local);
    if identityConflict {
      var conflictGroup, additionalGroup := localGroup, boundGroup;
      if |conflictGroup| == 0 {
        conflictGroup, additionalGroup := boundGroup, localGroup;
      }
      row := ApplyRemoteGroup(row.(state := IdentityConflict), conflictGroup);
      row := AppendRemoteFullNames(row, additionalGroup);
    } else if bound.Some? && (locator.None? || bound.value.At() != locator.value) {
      row := ApplyRemoteGroup(row.(state := LocatorDrift), [bound.value]);
    } else if bound.Some? {
      row := ApplyRemoteGroup(row.(state := BoundCurrent), [bound.value]);
    } else {
      row := row.(state := NotVisible);
    }
  }

  /** Whether the retained preview is exactly what the newest check saw. */
  method CheckCurrentEvidence(connection: Connection, remotes: seq<RemoteRepository>) returns (current: bool)
    ensures current == CurrentEvidence(connection, remotes)
  {
    if connection.setupCheck.None? || connection.organizationID.None? || connection.organizationID.value <= 0 {
      return false;
    }
    var check := connection.setupCheck.value;
    if check.configRevision != connection.revision || check.checkGeneration != connection.checkGeneration
       || !check.observed || check.visibleCount.None? || check.visiblePrivateCount.None?
       || check.visibleCount.value != |remotes| {
      return false;
    }
    var privateCount := 0;
    for i := 0 to |remotes|
      invariant privateCount == PrivateCount(remotes[..i])
      invariant forall j :: 0 <= j < i ==> remotes[j].generation == connection.checkGeneration
                                           && remotes[j].organizationID == connection.organizationID.value
    {
      assert remotes[..i + 1][..i] == remotes[..i];
      if remotes[i].generation != connection.checkGeneration
         || remotes[i].organizationID != connection.organizationID.value {
        return false;
      }
      if remotes[i].private { privateCount := privateCount + 1; }
    }
    assert remotes[..|remotes|] == remotes;
    current := Some(privateCount) == check.visiblePrivateCount;
  }

  lemma {:induction false} FirstPassStep(x: Inputs, bindings: seq<Binding>, i: nat)
    requires i < |bindings|
    ensures var local := FindLocal(x.locals, bindings[i].repositoryID);
            BoundRows(x, bindings[..i + 1])
            == BoundRows(x, bindings[..i]) + if local.None? then [] else [BoundRow(x, bindings[i], local.value)]
    ensures Consumed(x, bindings[..i + 1]) == Consumed(x, bindings[..i]) + ConsumedBy(x, bindings[i])
  {
    assert bindings[..i + 1][..i] == bindings[..i];
  }

  /** A binding's row, and the remotes it accounts for. */
  method RowOfBinding(
    x: Inputs, b: Binding, local: LocalRepository, bound: Option<RemoteRepository>,
    localsByLocator: map<Locator, seq<LocalRepository>>, remotesByLocator: map<Locator, seq<RemoteRepository>>)
    returns (row: DerivedRow, taken: set<string>)
    requires FindLocal(x.locals, b.repositoryID) == Some(local) && bound == FindRemote(x.remotes, b.remoteID)
    requires forall at :: At(localsByLocator, at) == LocalsAt(x.baseURL, x.locals, at)
    requires forall at :: At(remotesByLocator, at) == RemotesAt(x.remotes, at)
    ensures row == BoundRow(x, b, local) && taken == ConsumedBy(x, b)
  {
    taken := {};
    if !x.current {
      var contents := WithLocal(EmptyRow(LastObservedOnly), local);
      if bound.Some? {
        contents := ApplyRemoteGroup(contents, [bound.value]);
        FoundRemoteHasID(x.remotes, b.remoteID);
        taken := {bound.value.remoteID};
      }
      return DerivedRow(contents, b.remoteID), taken;
    }
    var at := OrZero(LocalLocator(x.baseURL, local));
    var localGroup := At(remotesByLocator, at);
    var boundGroup := if bound.Some? then At(remotesByLocator, bound.value.At()) else [];
    var contents := CurrentBoundRow(x, b, local, bound, At(localsByLocator, at), localGroup, boundGroup);
    taken := IDs(localGroup);
    taken := taken + IDs(boundGroup);
    row := DerivedRow(contents, b.remoteID);
  }

  /** First pass: one row per binding; every remote a row accounts for is consumed. */
  method FirstPass(
    x: Inputs, bindings: seq<Binding>, localsByID: map<int, LocalRepository>,
    localsByLocator: map<Locator, seq<LocalRepository>>, remotesByID: map<string, RemoteRepository>,
    remotesByLocator: map<Locator, seq<RemoteRepository>>)
    returns (rows: seq<DerivedRow>, consumed: set<string>)
    requires forall id :: (if id in localsByID then Some(localsByID[id]) else None) == FindLocal(x.locals, id)
    requires forall at :: At(localsByLocator, at) == LocalsAt(x.baseURL, x.locals, at)
    requires forall id :: (if id in remotesByID then Some(remotesByID[id]) else None) == FindRemote(x.remotes, id)
    requires forall at :: At(remotesByLocator, at) == RemotesAt(x.remotes, at)
    ensures rows == BoundRows(x, bindings) && consumed == Consumed(x, bindings)
  {
    rows, consumed := [], {};
    for i := 0 to |bindings|
      invariant rows == BoundRows(x, bindings[..i])
      invariant consumed == Consumed(x, bindings[..i])
    {
      FirstPassStep(x, bindings, i);
      var b := bindings[i];
      assert FindLocal(x.locals, b.repositoryID) == if b.repositoryID in localsByID then Some(localsByID[b.repositoryID]) else None;
      if b.repositoryID !in localsByID { continue; }
      var bound := if b.remoteID in remotesByID then Some(remotesByID[b.remoteID]) else None;
      var row, taken := RowOfBinding(x, b, localsByID[b.repositoryID], bound, localsByLocator, remotesByLocator);
      consumed := consumed + taken;
      rows := rows + [row];
    }
    assert bindings[..|bindings|] == bindings;
  }

  method PreviewOnlyRow(x: Inputs, bound: set<int>, r: RemoteRepository, matches: seq<LocalRepository>)
    returns (derived: DerivedRow)
    requires matches == LocalsAt(x.baseURL, x.locals, r.At())
    ensures derived == PreviewRow(x, bound, r)
  {
    var row := ApplyRemoteGroup(EmptyRow(PreviewNotCurrent), [r]);
    if |matches| == 1 && matches[0].id !in bound { row := WithLocal(row, matches[0]); }
    derived := DerivedRow(row, r.remoteID);
  }

  /** Second pass without current evidence: every remaining remote on its own. */
  method PreviewPass(
    x: Inputs, bound: set<int>, consumed: set<string>, localsByLocator: map<Locator, seq<LocalRepository>>)
    returns (rows: seq<DerivedRow>)
    requires forall at :: At(localsByLocator, at) == LocalsAt(x.baseURL, x.locals, at)
    ensures rows == PreviewRows(x, bound, consumed, x.remotes)
  {
    rows := [];
    for i := 0 to |x.remotes|
      invariant rows == PreviewRows(x, bound, consumed, x.remotes[..i])
    {
      assert x.remotes[..i + 1][..i] == x.remotes[..i];
      if x.remotes[i].remoteID in consumed { continue; }
      var row := PreviewOnlyRow(x, bound, x.remotes[i], At(localsByLocator, x.remotes[i].At()));
      rows := rows + [row];
    }
    assert x.remotes[..|x.remotes|] == x.remotes;
  }

  /** The row of one locator whose remaining group is not empty. */
  method UnboundLocatorRow(group: seq<RemoteRepository>, matches: seq<LocalRepository>) returns (derived: DerivedRow)
    requires group != []
    ensures derived == LocatorRow(group, matches)
  {
    var row := ApplyRemoteGroup(EmptyRow(Unmatched), group);
    if |group| > 1 {
      row := row.(state := DuplicateRemoteLocator);
    } else if |matches| > 1 {
      row := row.(state := MultipleLocalMatches);
    } else if |matches| == 1 {
      row := WithLocal(row.(state := Ready), matches[0]);
    }
    var id := SmallestRemoteID(group);
    derived := DerivedRow(row, id);
  }

  lemma {:induction false} LocatorPassStep(x: Inputs, consumed: set<string>, locators: seq<Locator>, i: nat)
    requires i < |locators|
    ensures RowsAt(x, consumed, locators[..i + 1]) == RowsAt(x, consumed, locators[..i]) + RowAt(x, consumed, locators[i])
    ensures var group := Unconsumed(RemotesAt(x.remotes, locators[i]), consumed);
            var matches := LocalsAt(x.baseURL, x.locals, locators[i]);
            ReadyRemotes(x, consumed, locators[..i + 1])
            == if |group| == 1 && |matches| == 1 then ReadyRemotes(x, consumed, locators[..i])[matches[0].id := group[0]]
               else ReadyRemotes(x, consumed, locators[..i])
  {
    assert locators[..i + 1][..i] == locators[..i];
  }

  /** Second pass with current evidence: the remaining remotes, locator by locator. */
  method LocatorPass(
    x: Inputs, consumed: set<string>, locators: seq<Locator>,
    localsByLocator: map<Locator, seq<LocalRepository>>, remotesByLocator: map<Locator, seq<RemoteRepository>>)
    returns (rows: seq<DerivedRow>, ready: map<int, RemoteRepository>)
    requires forall at :: At(localsByLocator, at) == LocalsAt(x.baseURL, x.locals, at)
    requires forall at :: At(remotesByLocator, at) == RemotesAt(x.remotes, at)
    ensures rows == RowsAt(x, consumed, locators) && ready == ReadyRemotes(x, consumed, locators)
  {
    rows, ready := [], map[];
    for i := 0 to |locators|
      invariant rows == RowsAt(x, consumed, locators[..i])
      invariant ready == ReadyRemotes(x, consumed, locators[..i])
    {
      LocatorPassStep(x, consumed, locators, i);
      var remotes := At(remotesByLocator, locators[i]);
      var matches := At(localsByLocator, locators[i]);
      var group := UnconsumedRemotes(remotes, consumed);
      if |group| > 0 {
        var row := UnboundLocatorRow(group, matches);
        rows := rows + [row];
        if |group| == 1 && |matches| == 1 {
          ready := ready[matches[0].id := group[0]];
        }
      }
    }
    assert locators[..|locators|] == locators;
  }

  /** The whole derivation: index, two passes over a shared `consumed`, final sort. */
  method DeriveRepositoryBindings(
    connection: Connection, locals: seq<LocalRepository>, remotes: seq<RemoteRepository>, bindings: seq<Binding>)
    returns (d: Derivation)
    ensures d == Derive(InputsOf(connection, locals, remotes), bindings)
  {
    var current := CheckCurrentEvidence(connection, remotes);
    var x := Inputs(current, connection.baseURL, connection.organizationID, locals, remotes);
    var localsByID, localsByLocator := IndexLocals(connection.baseURL, locals);
    var remotesByID, remotesByLocator, locators := IndexRemotes(remotes);
    var boundRepositories := {};
    for i := 0 to |bindings|
      invariant boundRepositories == BoundRepositories(bindings[..i])
    {
      boundRepositories := boundRepositories + {bindings[i].repositoryID};
    }
    assert bindings[..|bindings|] == bindings;
    var rows, consumed := FirstPass(x, bindings, localsByID, localsByLocator, remotesByID, remotesByLocator);
    if !current {
      var previews := PreviewPass(x, boundRepositories, consumed, localsByLocator);
      return Derivation(current, StableSort(rows + previews, RowLess), map[]);
    }
    locators := StableSort(locators, LocatorLess);
    var unbound, ready := LocatorPass(x, consumed, locators, localsByLocator, remotesByLocator);
    d := Derivation(current, StableSort(rows + unbound, RowLess), ready);
  }

  lemma {:induction false} FoundRemoteHasID(remotes: seq<RemoteRepository>, id: string)
    ensures FindRemote(remotes, id).Some? ==>
              FindRemote(remotes, id).value.remoteID == id && FindRemote(remotes, id).value in remotes
  {
    if remotes != [] { FoundRemoteHasID(remotes[..|remotes| - 1], id); }
  }
}
