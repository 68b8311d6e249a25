/**
 JSON values and the token streams they flatten to, with the recogniser both
 validators implement and the proof that it accepts exactly the flattenings of
 values within its bounds.
 */
module JsonShape {
  import opened Wrappers

  /** What the tokenizer hands over: commas and colons are already gone. */
  datatype Token = ObjectOpen | ObjectClose | ArrayOpen | ArrayClose | Text(text: string) | Atom(literal: string)

  datatype Value = VText(text: string) | VAtom(literal: string) | VObject(members: Members) | VArray(elements: Elements)

  datatype Members = NoMembers | Member(name: string, value: Value, others: Members)

  datatype Elements = NoElements | Element(first: Value, others: Elements)

  /** The depth at which containers stop, and how many values a nested container may hold. */
  datatype Bounds = Bounds(maxDepth: nat, innerLimit: nat)

  /** Names the root object must spell exactly, and the relation that finds look-alikes. */
  datatype Aliases = Aliases(critical: seq<string>, fold: (string, string) -> bool)

  /** No critical names: the relation is never consulted. */
  function NoAliases(): Aliases { Aliases([], (a, b) => false) }

  predicate IsAlias(aliases: Aliases, name: string) {
    exists c :: c in aliases.critical && name != c && aliases.fold(name, c)
  }

  // ---------------------------------------------------------- flattening

  /** The tokens of a value, followed by `rest`. */
  function FlattenOnto(v: Value, rest: seq<Token>): seq<Token>
    decreases v, 0
  {
    match v
    case VText(s) => [Text(s)] + rest
    case VAtom(a) => [Atom(a)] + rest
    case VObject(ms) => [ObjectOpen] + FlattenMembers(ms, rest)
    case VArray(es) => [ArrayOpen] + FlattenElements(es, rest)
  }

  function FlattenMembers(ms: Members, rest: seq<Token>): seq<Token>
    decreases ms, 1
  {
    match ms
    case NoMembers => [ObjectClose] + rest
    case Member(name, value, others) => [Text(name)] + FlattenOnto(value, FlattenMembers(others, rest))
  }

  function FlattenElements(es: Elements, rest: seq<Token>): seq<Token>
    decreases es, 1
  {
    match es
    case NoElements => [ArrayClose] + rest
    case Element(first, others) => FlattenOnto(first, FlattenElements(others, rest))
  }

  function Flatten(v: Value): seq<Token> { FlattenOnto(v, []) }

  // ---------------------------------------------------------- the bounds

  function Max(a: nat, b: nat): nat { if a < b then b else a }

  /** Containers on the longest path into the value. */
  function Nesting(v: Value): nat {
    match v
    case VText(_) => 0
    case VAtom(_) => 0
    case VObject(ms) => 1 + MembersNesting(ms)
    case VArray(es) => 1 + ElementsNesting(es)
  }

  function MembersNesting(ms: Members): nat {
    if ms.NoMembers? then 0 else Max(Nesting(ms.value), MembersNesting(ms.others))
  }

  function ElementsNesting(es: Elements): nat {
    if es.NoElements? then 0 else Max(Nesting(es.first), ElementsNesting(es.others))
  }

  function MemberCount(ms: Members): nat { if ms.NoMembers? then 0 else 1 + MemberCount(ms.others) }

  function ElementCount(es: Elements): nat { if es.NoElements? then 0 else 1 + ElementCount(es.others) }

  function Names(ms: Members): set<string> { if ms.NoMembers? then {} else {ms.name} + Names(ms.others) }

  predicate Distinct(ms: Members) {
    ms.NoMembers? || (ms.name !in Names(ms.others) && Distinct(ms.others))
  }

  /** No object anywhere in the value repeats a member name. */
  predicate NoDuplicates(v: Value) {
    match v
    case VText(_) => true
    case VAtom(_) => true
    case VObject(ms) => Distinct(ms) && MembersNoDuplicates(ms)
    case VArray(es) => ElementsNoDuplicates(es)
  }

  predicate MembersNoDuplicates(ms: Members) {
    ms.NoMembers? || (NoDuplicates(ms.value) && MembersNoDuplicates(ms.others))
  }

  predicate ElementsNoDuplicates(es: Elements) {
    es.NoElements? || (NoDuplicates(es.first) && ElementsNoDuplicates(es.others))
  }

  /** A limit below zero is never reached: the counters only ever meet it from below. */
  predicate Within(n: nat, limit: int) { limit < 0 || n <= limit }

  /** The value's own container, if it is one, holds at most `limit` values. */
  predicate RootWithin(v: Value, limit: int) {
    match v
    case VText(_) => true
    case VAtom(_) => true
    case VObject(ms) => Within(MemberCount(ms), limit)
    case VArray(es) => Within(ElementCount(es), limit)
  }

  /** Every container strictly inside the value holds at most `limit` values. */
  predicate InnerWithin(v: Value, limit: nat) {
    match v
    case VText(_) => true
    case VAtom(_) => true
    case VObject(ms) => MembersWithin(ms, limit)
    case VArray(es) => ElementsWithin(es, limit)
  }

  predicate MembersWithin(ms: Members, limit: nat) {
    ms.NoMembers? || (RootWithin(ms.value, limit) && InnerWithin(ms.value, limit) && MembersWithin(ms.others, limit))
  }

  predicate ElementsWithin(es: Elements, limit: nat) {
    es.NoElements? || (RootWithin(es.first, limit) && InnerWithin(es.first, limit) && ElementsWithin(es.others, limit))
  }

  predicate NoAlias(ms: Members, aliases: Aliases) {
    ms.NoMembers? || (!IsAlias(aliases, ms.name) && NoAlias(ms.others, aliases))
  }

  /** No member of the root object is a look-alike of a critical name. */
  predicate RootUnaliased(v: Value, aliases: Aliases) { v.VObject? ==> NoAlias(v.members, aliases) }

  lemma {:induction false} NothingIsAliased(ms: Members)
    ensures NoAlias(ms, NoAliases())
  {
    if ms.Member? { NothingIsAliased(ms.others); }
  }

  /** All the bounds a value at `depth` must meet. */
  predicate Fits(v: Value, depth: nat, limit: int, aliases: Aliases, b: Bounds) {
    && (Nesting(v) == 0 || depth + Nesting(v) <= b.maxDepth)
    && NoDuplicates(v) && RootWithin(v, limit) && InnerWithin(v, b.innerLimit) && RootUnaliased(v, aliases)
  }

  // --------------------------------------------------------- the recogniser

  /** What reading one construct leaves: the construct and the tokens after it. */
  type Read<T> = Option<(T, seq<Token>)>

  function Rest<T>(r: Read<T>): Option<seq<Token>> { if r.Some? then Some(r.value.1) else None }

  function ReadValue(s: seq<Token>, depth: nat, limit: int, aliases: Aliases, b: Bounds): (r: Read<Value>)
    ensures r.Some? ==> |r.value.1| < |s|
    decreases |s|, 0
  {
    if s == [] then None
    else match s[0]
      case Text(text) => Some((VText(text), s[1..]))
      case Atom(literal) => Some((VAtom(literal), s[1..]))
      case ObjectOpen =>
        if depth >= b.maxDepth then None
        else
          var inside := ReadMembers(s[1..], depth + 1, limit, {}, aliases, b);
          if inside.None? then None else Some((VObject(inside.value.0), inside.value.1))
      case ArrayOpen =>
        if depth >= b.maxDepth then None
        else
          var inside := ReadElements(s[1..], depth + 1, limit, 0, aliases, b);
          if inside.None? then None else Some((VArray(inside.value.0), inside.value.1))
      case _ => None
  }

  function ReadMembers(
    s: seq<Token>, depth: nat, limit: int, seen: set<string>, aliases: Aliases, b: Bounds): (r: Read<Members>)
    ensures r.Some? ==> |r.value.1| < |s|
    decreases |s|, 1
  {
    if s == [] then None
    else if s[0] == ObjectClose then Some((NoMembers, s[1..]))
    else if |seen| == limit || !s[0].Text? || s[0].text in seen || IsAlias(aliases, s[0].text) then None
    else
      var value := ReadValue(s[1..], depth, b.innerLimit, NoAliases(), b);
      if value.None? then None
      else
        var others := ReadMembers(value.value.1, depth, limit, seen + {s[0].text}, aliases, b);
        if others.None? then None
        else Some((Member(s[0].text, value.value.0, others.value.0), others.value.1))
  }

  function ReadElements(
    s: seq<Token>, depth: nat, limit: int, count: nat, aliases: Aliases, b: Bounds): (r: Read<Elements>)
    ensures r.Some? ==> |r.value.1| < |s|
    decreases |s|, 1
  {
    if s == [] then None
    else if s[0] == ArrayClose then Some((NoElements, s[1..]))
    else if count == limit then None
    else
      var first := ReadValue(s, depth, b.innerLimit, NoAliases(), b);
      if first.None? then None
      else
        var others := ReadElements(first.value.1, depth, limit, count + 1, aliases, b);
        if others.None? then None
        else Some((Element(first.value.0, others.value.0), others.value.1))
  }

  // ------------------------------------------------- what is read is in bounds

  ghost predicate MembersFit(ms: Members, depth: nat, limit: int, seen: set<string>, aliases: Aliases, b: Bounds) {
    && (MembersNesting(ms) == 0 || depth + MembersNesting(ms) <= b.maxDepth)
    && Distinct(ms) && Names(ms) !! seen && MembersNoDuplicates(ms)
    && Within(|seen| + MemberCount(ms), limit) && MembersWithin(ms, b.innerLimit) && NoAlias(ms, aliases)
  }

  ghost predicate ElementsFit(es: Elements, depth: nat, limit: int, count: nat, b: Bounds) {
    && (ElementsNesting(es) == 0 || depth + ElementsNesting(es) <= b.maxDepth)
    && ElementsNoDuplicates(es) && Within(count + ElementCount(es), limit) && ElementsWithin(es, b.innerLimit)
  }

  lemma {:induction false} ReadValueSound(s: seq<Token>, depth: nat, limit: int, aliases: Aliases, b: Bounds)
    ensures var r := ReadValue(s, depth, limit, aliases, b);
            r.Some? ==> s == FlattenOnto(r.value.0, r.value.1) && Fits(r.value.0, depth, limit, aliases, b)
    decreases |s|, 0
  {
    if s != [] {
      assert s == [s[0]] + s[1..];
      if s[0].ObjectOpen? && depth < b.maxDepth { ReadMembersSound(s[1..], depth + 1, limit, {}, aliases, b); }
      if s[0].ArrayOpen? && depth < b.maxDepth { ReadElementsSound(s[1..], depth + 1, limit, 0, aliases, b); }
    }
  }

  lemma {:induction false} ReadMembersSound(
    s: seq<Token>, depth: nat, limit: int, seen: set<string>, aliases: Aliases, b: Bounds)
    requires Within(|seen|, limit)
    ensures var r := ReadMembers(s, depth, limit, seen, aliases, b);
            r.Some? ==> s == FlattenMembers(r.value.0, r.value.1) && MembersFit(r.value.0, depth, limit, seen, aliases, b)
    decreases |s|, 1
  {
    var r := ReadMembers(s, depth, limit, seen, aliases, b);
    if r.Some? {
      assert s == [s[0]] + s[1..];
      if s[0] != ObjectClose {
        var value := ReadValue(s[1..], depth, b.innerLimit, NoAliases(), b);
        ReadValueSound(s[1..], depth, b.innerLimit, NoAliases(), b);
        ReadMembersSound(value.value.1, depth, limit, seen + {s[0].text}, aliases, b);
      }
    }
  }

  lemma {:induction false} ReadElementsSound(s: seq<Token>, depth: nat, limit: int, count: nat, aliases: Aliases, b: Bounds)
    requires Within(count, limit)
    ensures var r := ReadElements(s, depth, limit, count, aliases, b);
            r.Some? ==> s == FlattenElements(r.value.0, r.value.1) && ElementsFit(r.value.0, depth, limit, count, b)
    decreases |s|, 1
  {
    var r := ReadElements(s, depth, limit, count, aliases, b);
    if r.Some? {
      assert s == [s[0]] + s[1..];
      if s[0] != ArrayClose {
        var first := ReadValue(s, depth, b.innerLimit, NoAliases(), b);
        ReadValueSound(s, depth, b.innerLimit, NoAliases(), b);
        ReadElementsSound(first.value.1, depth, limit, count + 1, aliases, b);
      }
    }
  }

  // ------------------------------------------------ whatever fits is read back

  lemma {:induction false} ReadValueComplete(v: Value, rest: seq<Token>, depth: nat, limit: int, aliases: Aliases, b: Bounds)
    requires Fits(v, depth, limit, aliases, b)
    ensures ReadValue(FlattenOnto(v, rest), depth, limit, aliases, b) == Some((v, rest))
    decreases v, 0
  {
    var s := FlattenOnto(v, rest);
    match v
    case VText(text) => assert s[1..] == rest;
    case VAtom(literal) => assert s[1..] == rest;
    case VObject(ms) =>
      assert s[1..] == FlattenMembers(ms, rest);
      ReadMembersComplete(ms, rest, depth + 1, limit, {}, aliases, b);
    case VArray(es) =>
      assert s[1..] == FlattenElements(es, rest);
      ReadElementsComplete(es, rest, depth + 1, limit, 0, aliases, b);
  }

  lemma {:induction false} ReadMembersComplete(
    ms: Members, rest: seq<Token>, depth: nat, limit: int, seen: set<string>, aliases: Aliases, b: Bounds)
    requires MembersFit(ms, depth, limit, seen, aliases, b)
    ensures ReadMembers(FlattenMembers(ms, rest), depth, limit, seen, aliases, b) == Some((ms, rest))
    decreases ms, 1
  {
    var s := FlattenMembers(ms, rest);
    match ms
    case NoMembers => assert s[1..] == rest;
    case Member(name, value, others) =>
      assert s[1..] == FlattenOnto(value, FlattenMembers(others, rest));
      if value.VObject? { NothingIsAliased(value.members); }
      ReadValueComplete(value, FlattenMembers(others, rest), depth, b.innerLimit, NoAliases(), b);
      ReadMembersComplete(others, rest, depth, limit, seen + {name}, aliases, b);
  }

  lemma FlattenStarts(v: Value, rest: seq<Token>)
    ensures FlattenOnto(v, rest) != [] && !FlattenOnto(v, rest)[0].ArrayClose? && !FlattenOnto(v, rest)[0].ObjectClose?
  {
  }

  lemma {:induction false} ReadElementsComplete(
    es: Elements, rest: seq<Token>, depth: nat, limit: int, count: nat, aliases: Aliases, b: Bounds)
    requires ElementsFit(es, depth, limit, count, b)
    ensures ReadElements(FlattenElements(es, rest), depth, limit, count, aliases, b) == Some((es, rest))
    decreases es, 1
  {
    var s := FlattenElements(es, rest);
    match es
    case NoElements => assert s[1..] == rest;
    case Element(first, others) =>
      FlattenStarts(first, FlattenElements(others, rest));
      if first.VObject? { NothingIsAliased(first.members); }
      ReadValueComplete(first, FlattenElements(others, rest), depth, b.innerLimit, NoAliases(), b);
      ReadElementsComplete(others, rest, depth, limit, count + 1, aliases, b);
  }

  // ------------------------------------------------------------- uniqueness

  /** A stream begins with the flattening of at most one value, bounded or not. */
  lemma {:induction false} FlattenInjective(v: Value, rest: seq<Token>, w: Value, rest': seq<Token>)
    requires FlattenOnto(v, rest) == FlattenOnto(w, rest')
    ensures v == w && rest == rest'
    decreases v, 0
  {
    var s, s' := FlattenOnto(v, rest), FlattenOnto(w, rest');
    assert s[0] == s'[0] && s[1..] == s'[1..];
    match v
    case VText(_) => assert s[1..] == rest && s'[1..] == rest';
    case VAtom(_) => assert s[1..] == rest && s'[1..] == rest';
    case VObject(ms) =>
      assert s[1..] == FlattenMembers(ms, rest) && s'[1..] == FlattenMembers(w.members, rest');
      MembersInjective(ms, rest, w.members, rest');
    case VArray(es) =>
      assert s[1..] == FlattenElements(es, rest) && s'[1..] == FlattenElements(w.elements, rest');
      ElementsInjective(es, rest, w.elements, rest');
  }

  lemma {:induction false} MembersInjective(ms: Members, rest: seq<Token>, ns: Members, rest': seq<Token>)
    requires FlattenMembers(ms, rest) == FlattenMembers(ns, rest')
    ensures ms == ns && rest == rest'
    decreases ms, 1
  {
    var s, s' := FlattenMembers(ms, rest), FlattenMembers(ns, rest');
    assert s[0] == s'[0] && s[1..] == s'[1..];
    if ms.NoMembers? {
      assert s[1..] == rest && s'[1..] == rest';
    } else {
      assert s[1..] == FlattenOnto(ms.value, FlattenMembers(ms.others, rest));
      assert s'[1..] == FlattenOnto(ns.value, FlattenMembers(ns.others, rest'));
      FlattenInjective(ms.value, FlattenMembers(ms.others, rest), ns.value, FlattenMembers(ns.others, rest'));
      MembersInjective(ms.others, rest, ns.others, rest');
    }
  }

  lemma {:induction false} ElementsInjective(es: Elements, rest: seq<Token>, fs: Elements, rest': seq<Token>)
    requires FlattenElements(es, rest) == FlattenElements(fs, rest')
    ensures es == fs && rest == rest'
    decreases es, 1
  {
    var s, s' := FlattenElements(es, rest), FlattenElements(fs, rest');
    assert s[0] == s'[0];
    if es.Element? { FlattenStarts(es.first, FlattenElements(es.others, rest)); }
    if fs.Element? { FlattenStarts(fs.first, FlattenElements(fs.others, rest')); }
    if es.NoElements? {
      assert s[1..] == rest && s'[1..] == rest';
    } else {
      FlattenInjective(es.first, FlattenElements(es.others, rest), fs.first, FlattenElements(fs.others, rest'));
      ElementsInjective(es.others, rest, fs.others, rest');
    }
  }

  /** Reading a whole stream succeeds exactly on the flattening of a fitting value, and returns that value. */
  lemma ReadAllIff(s: seq<Token>, limit: int, aliases: Aliases, b: Bounds)
    ensures Rest(ReadValue(s, 0, limit, aliases, b)) == Some([])
       <==> exists v :: s == Flatten(v) && Fits(v, 0, limit, aliases, b)
    ensures forall v :: s == Flatten(v) && Fits(v, 0, limit, aliases, b)
              ==> ReadValue(s, 0, limit, aliases, b) == Some((v, []))
  {
    ReadValueSound(s, 0, limit, aliases, b);
    forall v | s == Flatten(v) && Fits(v, 0, limit, aliases, b)
      ensures ReadValue(s, 0, limit, aliases, b) == Some((v, []))
    {
      ReadValueComplete(v, [], 0, limit, aliases, b);
    }
    var r := ReadValue(s, 0, limit, aliases, b);
    if Rest(r) == Some([]) {
      assert s == Flatten(r.value.0) && Fits(r.value.0, 0, limit, aliases, b);
    }
  }
}
