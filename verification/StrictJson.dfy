/**
 The two strict validators as the code runs them: a decoder position that
 advances, loops that grow a member set or an element counter inside the recursion.
 */
module StrictJson {
  import opened Wrappers
  import opened JsonShape

  const MAX_NESTING_DEPTH := 32
  const MAX_CONTAINER_VALUES := 4096
  const MAX_PROVIDER_DEPTH := 4
  const MAX_PROVIDER_MEMBERS := 128

  const STRICT := Bounds(MAX_NESTING_DEPTH, MAX_CONTAINER_VALUES)
  const PROVIDER := Bounds(MAX_PROVIDER_DEPTH, MAX_PROVIDER_MEMBERS)

  /**
   The tokenizer over one body. `clean` tells whether the tokens end at the end
   of the input or at text the tokenizer rejects.
   */
  class Decoder {
    const tokens: seq<Token>
    const clean: bool
    var pos: nat

    constructor (tokens: seq<Token>, clean: bool)
      ensures this.tokens == tokens && this.clean == clean && pos == 0
    {
      this.tokens, this.clean, pos := tokens, clean, 0;
    }

    ghost predicate Valid()
      reads this
    {
      pos <= |tokens|
    }

    ghost function Remaining(): seq<Token>
      reads this
      requires Valid()
    {
      tokens[pos..]
    }

    function More(): bool
      reads this
      requires Valid()
    {
      pos < |tokens| && tokens[pos] != ObjectClose && tokens[pos] != ArrayClose
    }

    /** The next token, or None at the end of input and on malformed text. */
    method Next() returns (token: Option<Token>)
      requires Valid()
      modifies this
      ensures Valid()
      ensures token.None? <==> old(Remaining()) == []
      ensures token.Some? ==> old(Remaining()) == [token.value] + Remaining() && pos == old(pos) + 1
      ensures token.None? ==> pos == old(pos)
    {
      if pos == |tokens| { return None; }
      token := Some(tokens[pos]);
      pos := pos + 1;
    }

    function AtEndOfInput(): bool
      reads this
      requires Valid()
    {
      pos == |tokens| && clean
    }

    // ------------------------------------------------ company OIDC validator

    method ValidateValue(depth: nat, containerLimit: int) returns (ok: bool)
      requires Valid()
      modifies this
      ensures Valid() && pos >= old(pos)
      ensures ok ==> pos > old(pos)
      ensures (if ok then Some(Remaining()) else None)
           == Rest(ReadValue(old(Remaining()), depth, containerLimit, NoAliases(), STRICT))
      decreases |tokens| - pos, 1
    {
      ghost var before := Remaining();
      var token := Next();
      if token.None? { return false; }
      assert before[1..] == Remaining();
      if token.value.Text? || token.value.Atom? { return true; }
      if depth >= MAX_NESTING_DEPTH { return false; }
      if token.value == ObjectOpen {
        ok := ValidateObject(depth + 1, containerLimit);
      } else if token.value == ArrayOpen {
        ok := ValidateArray(depth + 1, containerLimit);
      } else {
        ok := false;
      }
    }

    method ValidateObject(depth: nat, containerLimit: int) returns (ok: bool)
      requires Valid()
      modifies this
      ensures Valid() && pos >= old(pos)
      ensures (if ok then Some(Remaining()) else None)
           == Rest(ReadMembers(old(Remaining()), depth, containerLimit, {}, NoAliases(), STRICT))
      decreases |tokens| - pos, 2
    {
      var members: set<string> := {};
      while More()
        invariant Valid() && pos >= old(pos)
        invariant Rest(ReadMembers(Remaining(), depth, containerLimit, members, NoAliases(), STRICT))
               == Rest(ReadMembers(old(Remaining()), depth, containerLimit, {}, NoAliases(), STRICT))
        decreases |tokens| - pos
      {
        ghost var before := Remaining();
        if |members| == containerLimit { return false; }
        var token := Next();
        if token.None? || !token.value.Text? { return false; }
        if token.value.text in members { return false; }
        assert before[1..] == Remaining();
        members := members + {token.value.text};
        var valid := ValidateValue(depth, MAX_CONTAINER_VALUES);
        if !valid { return false; }
      }
      ghost var before := Remaining();
      var closing := Next();
      ok := closing == Some(ObjectClose);
      assert ok ==> before[1..] == Remaining();
    }

    method ValidateArray(depth: nat, containerLimit: int) returns (ok: bool)
      requires Valid()
      modifies this
      ensures Valid() && pos >= old(pos)
      ensures (if ok then Some(Remaining()) else None)
           == Rest(ReadElements(old(Remaining()), depth, containerLimit, 0, NoAliases(), STRICT))
      decreases |tokens| - pos, 2
    {
      var elements := 0;
      while More()
        invariant Valid() && pos >= old(pos)
        invariant Rest(ReadElements(Remaining(), depth, containerLimit, elements, NoAliases(), STRICT))
               == Rest(ReadElements(old(Remaining()), depth, containerLimit, 0, NoAliases(), STRICT))
        decreases |tokens| - pos
      {
        if elements == containerLimit { return false; }
        var valid := ValidateValue(depth, MAX_CONTAINER_VALUES);
        if !valid { return false; }
        elements := elements + 1;
      }
      ghost var before := Remaining();
      var closing := Next();
      ok := closing == Some(ArrayClose);
      assert ok ==> before[1..] == Remaining();
      assert !ok ==> ReadElements(before, depth, containerLimit, elements, NoAliases(), STRICT).None?;
    }

    method ValidateStructure(containerLimit: int) returns (ok: bool)
      requires pos == 0
      modifies this
      ensures ok == StrictStructure(tokens, clean, containerLimit)
    {
      assert tokens[0..] == tokens;
      var valid := ValidateValue(0, containerLimit);
      if !valid { return false; }
      ok := AtEndOfInput();
    }

    // --------------------------------------------------- provider validator

    method ValidateProviderValue(depth: nat) returns (ok: bool)
      requires Valid()
      modifies this
      ensures Valid() && pos >= old(pos)
      ensures ok ==> pos > old(pos)
      ensures (if ok then Some(Remaining()) else None)
           == Rest(ReadValue(old(Remaining()), depth, MAX_PROVIDER_MEMBERS, NoAliases(), PROVIDER))
      decreases |tokens| - pos, 1
    {
      ghost var before := Remaining();
      var token := Next();
      if token.None? { return false; }
      assert before[1..] == Remaining();
      if token.value.Text? || token.value.Atom? { return true; }
      if depth >= MAX_PROVIDER_DEPTH { return false; }
      if token.value == ObjectOpen {
        ok := ValidateProviderObject(depth + 1, NoAliases());
      } else if token.value == ArrayOpen {
        ok := ValidateProviderArray(depth + 1);
      } else {
        ok := false;
      }
    }

    method FindsAlias(aliases: Aliases, name: string) returns (found: bool)
      ensures found == IsAlias(aliases, name)
    {
      for i := 0 to |aliases.critical|
        invariant forall j :: 0 <= j < i ==> !(name != aliases.critical[j] && aliases.fold(name, aliases.critical[j]))
      {
        if name != aliases.critical[i] && aliases.fold(name, aliases.critical[i]) { return true; }
      }
      found := false;
    }

    method ValidateProviderObject(depth: nat, aliases: Aliases) returns (ok: bool)
      requires Valid()
      modifies this
      ensures Valid() && pos >= old(pos)
      ensures (if ok then Some(Remaining()) else None)
           == Rest(ReadMembers(old(Remaining()), depth, MAX_PROVIDER_MEMBERS, {}, aliases, PROVIDER))
      decreases |tokens| - pos, 2
    {
      var members: set<string> := {};
      while More()
        invariant Valid() && pos >= old(pos)
        invariant Rest(ReadMembers(Remaining(), depth, MAX_PROVIDER_MEMBERS, members, aliases, PROVIDER))
               == Rest(ReadMembers(old(Remaining()), depth, MAX_PROVIDER_MEMBERS, {}, aliases, PROVIDER))
        decreases |tokens| - pos
      {
        ghost var before := Remaining();
        if |members| == MAX_PROVIDER_MEMBERS { return false; }
        var token := Next();
        if token.None? || !token.value.Text? { return false; }
        if token.value.text in members { return false; }
        assert before[1..] == Remaining();
        members := members + {token.value.text};
        var aliased := FindsAlias(aliases, token.value.text);
        if aliased { return false; }
        var valid := ValidateProviderValue(depth);
        if !valid { return false; }
      }
      ghost var before := Remaining();
      var closing := Next();
      ok := closing == Some(ObjectClose);
      assert ok ==> before[1..] == Remaining();
    }

    method ValidateProviderArray(depth: nat) returns (ok: bool)
      requires Valid()
      modifies this
      ensures Valid() && pos >= old(pos)
      ensures (if ok then Some(Remaining()) else None)
           == Rest(ReadElements(old(Remaining()), depth, MAX_PROVIDER_MEMBERS, 0, NoAliases(), PROVIDER))
      decreases |tokens| - pos, 2
    {
      var elements := 0;
      while More()
        invariant Valid() && pos >= old(pos)
        invariant Rest(ReadElements(Remaining(), depth, MAX_PROVIDER_MEMBERS, elements, NoAliases(), PROVIDER))
               == Rest(ReadElements(old(Remaining()), depth, MAX_PROVIDER_MEMBERS, 0, NoAliases(), PROVIDER))
        decreases |tokens| - pos
      {
        if elements == MAX_PROVIDER_MEMBERS { return false; }
        var valid := ValidateProviderValue(depth);
        if !valid { return false; }
        elements := elements + 1;
      }
      ghost var before := Remaining();
      var closing := Next();
      ok := closing == Some(ArrayClose);
      assert ok ==> before[1..] == Remaining();
      assert !ok ==> ReadElements(before, depth, MAX_PROVIDER_MEMBERS, elements, NoAliases(), PROVIDER).None?;
    }

    method ValidateProviderShape(aliases: Aliases) returns (ok: bool)
      requires pos == 0
      modifies this
      ensures ok == ProviderShape(tokens, clean, aliases)
    {
      assert tokens[0..] == tokens;
      var opening := Next();
      if opening != Some(ObjectOpen) { return false; }
      assert tokens[1..] == Remaining();
      var valid := ValidateProviderObject(1, aliases);
      if !valid { return false; }
      ok := AtEndOfInput();
    }
  }

  // ------------------------------------------------ acceptance, declaratively

  predicate StrictStructure(tokens: seq<Token>, clean: bool, limit: int) {
    clean && Rest(ReadValue(tokens, 0, limit, NoAliases(), STRICT)) == Some([])
  }

  predicate ProviderShape(tokens: seq<Token>, clean: bool, aliases: Aliases) {
    && clean && tokens != [] && tokens[0] == ObjectOpen
    && Rest(ReadValue(tokens, 0, MAX_PROVIDER_MEMBERS, aliases, PROVIDER)) == Some([])
  }

  /** The check in front of decoding: a positive root limit, valid text, valid structure. */
  method StrictCheck(d: Decoder, utf8Valid: bool, rootContainerLimit: int) returns (ok: bool)
    requires d.pos == 0
    modifies d
    ensures ok == (rootContainerLimit > 0 && utf8Valid && StrictStructure(d.tokens, d.clean, rootContainerLimit))
  {
    if rootContainerLimit <= 0 || !utf8Valid { return false; }
    ok := d.ValidateStructure(rootContainerLimit);
  }

  /** What the strict validator promises of a body. */
  ghost predicate StrictDocument(v: Value, limit: int) {
    && Nesting(v) <= MAX_NESTING_DEPTH && NoDuplicates(v)
    && RootWithin(v, limit) && InnerWithin(v, MAX_CONTAINER_VALUES)
  }

  /**
   The strict validator accepts a token stream exactly when it ends cleanly and
   flattens one value within the bounds, and that value is the only one it flattens.
   */
  lemma StrictAcceptsIff(tokens: seq<Token>, clean: bool, limit: int)
    ensures StrictStructure(tokens, clean, limit)
       <==> clean && exists v :: tokens == Flatten(v) && StrictDocument(v, limit)
    ensures forall v, w :: tokens == Flatten(v) && tokens == Flatten(w) ==> v == w
  {
    ReadAllIff(tokens, limit, NoAliases(), STRICT);
    forall v: Value ensures Fits(v, 0, limit, NoAliases(), STRICT) <==> StrictDocument(v, limit) {
      if v.VObject? { NothingIsAliased(v.members); }
    }
    if StrictStructure(tokens, clean, limit) {
      var v :| tokens == Flatten(v) && Fits(v, 0, limit, NoAliases(), STRICT);
      assert StrictDocument(v, limit);
    }
    forall v, w | tokens == Flatten(v) && tokens == Flatten(w) ensures v == w {
      FlattenInjective(v, [], w, []);
    }
  }

  /** What the provider validator promises of a response. */
  ghost predicate ProviderDocument(v: Value, aliases: Aliases) {
    && v.VObject? && Nesting(v) <= MAX_PROVIDER_DEPTH && NoDuplicates(v)
    && RootWithin(v, MAX_PROVIDER_MEMBERS) && InnerWithin(v, MAX_PROVIDER_MEMBERS)
    && RootUnaliased(v, aliases)
  }

  /** The provider validator, likewise, with its own bounds, an object root and the root alias rule. */
  lemma ProviderAcceptsIff(tokens: seq<Token>, clean: bool, aliases: Aliases)
    ensures ProviderShape(tokens, clean, aliases)
       <==> clean && exists v :: tokens == Flatten(v) && ProviderDocument(v, aliases)
    ensures forall v, w :: tokens == Flatten(v) && tokens == Flatten(w) ==> v == w
  {
    ReadAllIff(tokens, MAX_PROVIDER_MEMBERS, aliases, PROVIDER);
    if ProviderShape(tokens, clean, aliases) {
      var v :| tokens == Flatten(v) && Fits(v, 0, MAX_PROVIDER_MEMBERS, aliases, PROVIDER);
      assert ProviderDocument(v, aliases);
    }
    if v :| tokens == Flatten(v) && ProviderDocument(v, aliases) {
      assert Fits(v, 0, MAX_PROVIDER_MEMBERS, aliases, PROVIDER);
    }
    forall v, w | tokens == Flatten(v) && tokens == Flatten(w) ensures v == w {
      FlattenInjective(v, [], w, []);
    }
  }
}
