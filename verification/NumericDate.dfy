/**
 NumericDate claims: the index loops of the parser against the number grammar of
 section 6 of RFC 8259, with exact values.
 */
module NumericDate {
  import opened Wrappers

  const MAX_SIZE := 64
  const MAX_SIGNIFICAND_DIGITS := 32
  const MAX_EXPONENT := 18
  const MAX_SECONDS: real := 253402300799.0

  // -------------------------------------------------------------- the grammar

  datatype Exponent = Exponent(marker: char, sign: Option<char>, digits: string)

  /** An empty `fraction` stands for an absent one. */
  datatype Number = Number(negative: bool, integer: string, fraction: string, exponent: Option<Exponent>)

  predicate IsDigit(c: char) { '0' <= c <= '9' }

  predicate AllDigits(s: string) { forall i :: 0 <= i < |s| ==> IsDigit(s[i]) }

  predicate GrammaticalExponent(e: Exponent) {
    && e.marker in {'e', 'E'} && (e.sign.Some? ==> e.sign.value in {'+', '-'})
    && e.digits != "" && AllDigits(e.digits)
  }

  /** number = [ minus ] int [ frac ] [ exp ], with no leading zero in int. */
  predicate Grammatical(n: Number) {
    && n.integer != "" && AllDigits(n.integer) && (|n.integer| > 1 ==> n.integer[0] != '0')
    && AllDigits(n.fraction)
    && (n.exponent.Some? ==> GrammaticalExponent(n.exponent.value))
  }

  function RenderFraction(fraction: string): string { if fraction == "" then "" else "." + fraction }

  function RenderExponent(exponent: Option<Exponent>): string {
    if exponent.None? then ""
    else [exponent.value.marker] + (if exponent.value.sign.Some? then [exponent.value.sign.value] else "") + exponent.value.digits
  }

  function Render(n: Number): string {
    (if n.negative then "-" else "") + n.integer + RenderFraction(n.fraction) + RenderExponent(n.exponent)
  }

  // ------------------------------------------------------------------- values

  function Digit(c: char): nat
    requires IsDigit(c)
  {
    (c as int) - ('0' as int)
  }

  function Decimal(s: string): nat
    requires AllDigits(s)
  {
    if s == "" then 0 else Decimal(s[..|s| - 1]) * 10 + Digit(s[|s| - 1])
  }

  function PowerOfTen(k: int): real
    decreases if k < 0 then -k else k
  {
    if k == 0 then 1.0 else if k > 0 then 10.0 * PowerOfTen(k - 1) else PowerOfTen(k + 1) / 10.0
  }

  function ExponentMagnitude(n: Number): nat
    requires Grammatical(n)
  {
    if n.exponent.None? then 0 else Decimal(n.exponent.value.digits)
  }

  function ExponentValue(n: Number): int
    requires Grammatical(n)
  {
    var magnitude: int := ExponentMagnitude(n);
    if n.exponent.Some? && n.exponent.value.sign == Some('-') then -magnitude else magnitude
  }

  /** The rational number the text denotes. */
  function Value(n: Number): real
    requires Grammatical(n)
  {
    var magnitude := Decimal(n.integer + n.fraction) as real * PowerOfTen(ExponentValue(n) - |n.fraction|);
    if n.negative then -magnitude else magnitude
  }

  /** The restrictions a NumericDate adds to the grammar. */
  predicate Accepted(n: Number)
    requires Grammatical(n)
  {
    && |Render(n)| <= MAX_SIZE && |n.integer| + |n.fraction| <= MAX_SIGNIFICAND_DIGITS
    && ExponentMagnitude(n) <= MAX_EXPONENT && 0.0 <= Value(n) <= MAX_SECONDS
  }

  // --------------------------------------------------------------- the scanner

  /** The end of the run of digits starting at `i`. */
  function RunEnd(s: string, i: nat): (end: nat)
    requires i <= |s|
    ensures i <= end <= |s| && AllDigits(s[i..end])
    ensures end < |s| ==> !IsDigit(s[end])
    decreases |s| - i
  {
    if i < |s| && IsDigit(s[i]) then
      assert s[i..RunEnd(s, i + 1)] == [s[i]] + s[i + 1..RunEnd(s, i + 1)];
      RunEnd(s, i + 1)
    else i
  }

  function IntegerStart(s: string): nat { if s != "" && s[0] == '-' then 1 else 0 }

  function FractionEnd(s: string, i: nat): (end: nat)
    requires i <= |s|
    ensures i <= end <= |s|
  {
    if i < |s| && s[i] == '.' then RunEnd(s, i + 1) else i
  }

  function ScanExponent(s: string, i: nat): (r: Option<Option<Exponent>>)
    requires i <= |s|
    ensures r.Some? && r.value.Some? ==> GrammaticalExponent(r.value.value)
  {
    if i == |s| then Some(None)
    else if s[i] !in {'e', 'E'} then None
    else
      var signed := i + 1 < |s| && s[i + 1] in {'+', '-'};
      var start := if signed then i + 2 else i + 1;
      if start < |s| && RunEnd(s, start) == |s| then
        assert s[start..] == s[start..RunEnd(s, start)];
        Some(Some(Exponent(s[i], if signed then Some(s[i + 1]) else None, s[start..])))
      else None
  }

  function Scan(s: string): (r: Option<Number>)
    ensures r.Some? ==> Grammatical(r.value)
  {
    var start := IntegerStart(s);
    var intEnd := RunEnd(s, start);
    if intEnd == start || (s[start] == '0' && intEnd > start + 1) then None
    else
      var fracEnd := FractionEnd(s, intEnd);
      if fracEnd == intEnd + 1 then None
      else
        var exponent := ScanExponent(s, fracEnd);
        if exponent.None? then None
        else
          Some(Number(start == 1, s[start..intEnd], if fracEnd == intEnd then "" else s[intEnd + 1..fracEnd], exponent.value))
  }

  // ---------------------------------------------------------------- the parser

  method ScanDigits(raw: string, from: nat) returns (end: nat)
    requires from <= |raw|
    ensures end == RunEnd(raw, from)
  {
    end := from;
    while end < |raw| && IsDigit(raw[end])
      invariant from <= end <= |raw| && RunEnd(raw, end) == RunEnd(raw, from)
    {
      end := end + 1;
    }
  }

  /**
   The exponent digits, with the guard that stops before the number could pass
   the bound: it fires exactly when the whole run denotes more than the bound.
   */
  method ReadExponentDigits(raw: string, from: nat) returns (ok: bool, exponent: nat, end: nat)
    requires from <= |raw|
    ensures ok <==> Decimal(raw[from..RunEnd(raw, from)]) <= MAX_EXPONENT
    ensures ok ==> end == RunEnd(raw, from) && exponent == Decimal(raw[from..end])
  {
    exponent, end := 0, from;
    while end < |raw| && IsDigit(raw[end])
      invariant from <= end <= |raw| && RunEnd(raw, end) == RunEnd(raw, from)
      invariant AllDigits(raw[from..end]) && exponent == Decimal(raw[from..end]) <= MAX_EXPONENT
    {
      var digit := Digit(raw[end]);
      OneMoreDigit(raw, from, end);
      if exponent > (MAX_EXPONENT - digit) / 10 { return false, exponent, end; }
      exponent := exponent * 10 + digit;
      end := end + 1;
    }
    ok := true;
  }

  lemma OneMoreDigit(raw: string, from: nat, i: nat)
    requires from <= i < |raw| && IsDigit(raw[i]) && RunEnd(raw, i) == RunEnd(raw, from) && AllDigits(raw[from..i])
    ensures AllDigits(raw[from..i + 1])
    ensures Decimal(raw[from..i + 1]) == Decimal(raw[from..i]) * 10 + Digit(raw[i])
    ensures Decimal(raw[from..i + 1]) <= Decimal(raw[from..RunEnd(raw, from)])
  {
    var run, longer := raw[from..RunEnd(raw, from)], raw[from..i + 1];
    assert longer[..|longer| - 1] == raw[from..i];
    assert run[..i + 1 - from] == longer;
    DecimalPrefix(run, i + 1 - from);
  }

  lemma {:induction false} DecimalPrefix(s: string, k: nat)
    requires AllDigits(s) && k <= |s|
    ensures Decimal(s[..k]) <= Decimal(s)
  {
    if k == |s| {
      assert s[..k] == s;
    } else {
      DecimalPrefix(s[..|s| - 1], k);
      assert s[..|s| - 1][..k] == s[..k];
    }
  }

  predicate SmallExponent(e: Option<Exponent>)
    requires e.Some? ==> GrammaticalExponent(e.value)
  {
    e.Some? ==> Decimal(e.value.digits) <= MAX_EXPONENT
  }

  /** The part from `i` to the end: nothing, or an exponent within the bound. */
  method ReadExponent(raw: string, from: nat) returns (exponent: Option<Option<Exponent>>)
    requires from <= |raw|
    ensures var scanned := ScanExponent(raw, from);
            exponent == if scanned.Some? && SmallExponent(scanned.value) then scanned else None
  {
    if from == |raw| { return Some(None); }
    if raw[from] != 'e' && raw[from] != 'E' { return None; }
    var i := from + 1;
    var sign := None;
    if i < |raw| && (raw[i] == '+' || raw[i] == '-') {
      sign := Some(raw[i]);
      i := i + 1;
    }
    if i == |raw| || !IsDigit(raw[i]) { return None; }
    var ok, magnitude, end := ReadExponentDigits(raw, i);
    if !ok || end != |raw| {
      assert RunEnd(raw, i) == |raw| ==> raw[i..] == raw[i..RunEnd(raw, i)];
      return None;
    }
    assert raw[i..] == raw[i..end];
    exponent := Some(Some(Exponent(raw[from], sign, raw[i..])));
  }

  /** The integer part: a lone zero or a run of digits that does not start with one. */
  method ReadInteger(raw: string, from: nat) returns (end: Option<nat>)
    requires from < |raw|
    ensures var run := RunEnd(raw, from);
            end == if run == from || (raw[from] == '0' && run > from + 1) then None else Some(run)
  {
    if raw[from] == '0' {
      return if from + 1 < |raw| && IsDigit(raw[from + 1]) then None else Some(from + 1);
    }
    if !('1' <= raw[from] <= '9') { return None; }
    var run := ScanDigits(raw, from);
    end := Some(run);
  }

  predicate SmallDigits(n: Number)
    requires Grammatical(n)
  {
    |n.integer| + |n.fraction| <= MAX_SIGNIFICAND_DIGITS && SmallExponent(n.exponent)
  }

  function Parse(raw: string): Option<real> {
    var n := Scan(raw);
    if n.Some? && |raw| <= MAX_SIZE && SmallDigits(n.value) && 0.0 <= Value(n.value) <= MAX_SECONDS
    then Some(Value(n.value)) else None
  }

  /** An optional fraction from `i`: its digits and where it ends. */
  method ReadFraction(raw: string, from: nat) returns (fraction: Option<string>, end: nat)
    requires from <= |raw|
    ensures end == FractionEnd(raw, from)
    ensures fraction == if end == from then Some("") else if end == from + 1 then None else Some(raw[from + 1..end])
  {
    if from == |raw| || raw[from] != '.' { return Some(""), from; }
    end := ScanDigits(raw, from + 1);
    fraction := if end == from + 1 then None else Some(raw[from + 1..end]);
  }

  method ScanNumber(raw: string) returns (n: Option<Number>)
    requires raw != ""
    ensures n == if Scan(raw).Some? && SmallDigits(Scan(raw).value) then Scan(raw) else None
  {
    var start := 0;
    if raw[0] == '-' {
      start := 1;
      if start == |raw| { return None; }
    }
    var integer := ReadInteger(raw, start);
    if integer.None? { return None; }
    var fraction, i := ReadFraction(raw, integer.value);
    if fraction.None? { return None; }
    if integer.value - start + |fraction.value| > MAX_SIGNIFICAND_DIGITS { return None; }
    var exponent := ReadExponent(raw, i);
    if exponent.None? { return None; }
    n := Some(Number(start == 1, raw[start..integer.value], fraction.value, exponent.value));
  }

  method ParseNumericDate(raw: string) returns (seconds: Option<real>)
    ensures seconds == Parse(raw)
  {
    if |raw| == 0 || |raw| > MAX_SIZE { return None; }
    var n := ScanNumber(raw);
    if n.None? { return None; }
    var value := Value(n.value);
    if value < 0.0 || value > MAX_SECONDS { return None; }
    seconds := Some(value);
  }

  // ---------------------------------------------- the scanner is the grammar

  lemma {:induction false} RunEndIs(s: string, i: nat, end: nat)
    requires i <= end <= |s| && AllDigits(s[i..end]) && (end < |s| ==> !IsDigit(s[end]))
    ensures RunEnd(s, i) == end
    decreases end - i
  {
    if i < end {
      assert s[i] == s[i..end][0];
      assert s[i + 1..end] == s[i..end][1..];
      RunEndIs(s, i + 1, end);
    }
  }

  lemma FourParts(s: string, a: nat, b: nat, c: nat)
    requires a <= b <= c <= |s|
    ensures s == s[..a] + s[a..b] + s[b..c] + s[c..]
  {
  }

  lemma {:induction false} FractionRendersBack(s: string, i: nat)
    requires i <= |s| && FractionEnd(s, i) != i + 1
    ensures var end := FractionEnd(s, i);
            s[i..end] == RenderFraction(if end == i then "" else s[i + 1..end])
  {
    var end := FractionEnd(s, i);
    if end != i { assert s[i..end] == [s[i]] + s[i + 1..end]; }
  }

  lemma ExponentRendersBack(s: string, i: nat)
    requires i <= |s| && ScanExponent(s, i).Some?
    ensures s[i..] == RenderExponent(ScanExponent(s, i).value)
  {
  }

  lemma {:induction false} SignOf(s: string)
    ensures s[..IntegerStart(s)] == if IntegerStart(s) == 1 then "-" else ""
  {
  }

  lemma {:induction false} ScanSound(s: string)
    ensures Scan(s).Some? ==> s == Render(Scan(s).value)
  {
    var r := Scan(s);
    if r.Some? {
      var start := IntegerStart(s);
      var intEnd := RunEnd(s, start);
      var fracEnd := FractionEnd(s, intEnd);
      FractionRendersBack(s, intEnd);
      ExponentRendersBack(s, fracEnd);
      SignOf(s);
      FourParts(s, start, intEnd, fracEnd);
    }
  }

  lemma ExponentScansBack(s: string, i: nat, e: Exponent)
    requires GrammaticalExponent(e) && i <= |s| && s[i..] == RenderExponent(Some(e))
    ensures ScanExponent(s, i) == Some(Some(e))
  {
    var tail := s[i..];
    var start := if e.sign.Some? then i + 2 else i + 1;
    assert s[i] == tail[0] == e.marker;
    assert s[start..] == tail[start - i..] == e.digits;
    assert s[i + 1] == tail[1];
    assert s[start..|s|] == s[start..];
    RunEndIs(s, start, |s|);
  }

  lemma PartsOf(a: string, b: string, c: string, d: string)
    ensures var s := a + b + c + d;
            var j, k, m := |a|, |a| + |b|, |a| + |b| + |c|;
            s[..j] == a && s[j..k] == b && s[k..m] == c && s[m..] == d
  {
  }

  lemma StartOf(s: string, i: nat, end: nat, part: string)
    requires i < end <= |s| && s[i..end] == part
    ensures s[i] == part[0] && s[i + 1..end] == part[1..]
  {
  }

  /** Where a rendered number's digit runs end. */
  lemma RenderedRuns(s: string, n: Number, start: nat, intEnd: nat, fracEnd: nat)
    requires Grammatical(n) && start <= intEnd <= fracEnd <= |s|
    requires s[start..intEnd] == n.integer && s[intEnd..fracEnd] == RenderFraction(n.fraction)
    requires s[fracEnd..] == RenderExponent(n.exponent)
    ensures RunEnd(s, start) == intEnd && FractionEnd(s, intEnd) == fracEnd
  {
    if fracEnd < |s| { StartOf(s, fracEnd, |s|, RenderExponent(n.exponent)); }
    if n.fraction != "" {
      StartOf(s, intEnd, fracEnd, RenderFraction(n.fraction));
      RunEndIs(s, intEnd + 1, fracEnd);
    }
    RunEndIs(s, start, intEnd);
  }

  lemma {:induction false} ScanOfParts(s: string, n: Number, start: nat, intEnd: nat, fracEnd: nat)
    requires Grammatical(n) && start <= intEnd <= fracEnd <= |s|
    requires IntegerStart(s) == start && (n.negative <==> start == 1) && RunEnd(s, start) == intEnd && FractionEnd(s, intEnd) == fracEnd
    requires s[start..intEnd] == n.integer && ScanExponent(s, fracEnd) == Some(n.exponent)
    requires if n.fraction == "" then fracEnd == intEnd else fracEnd > intEnd + 1 && s[intEnd + 1..fracEnd] == n.fraction
    ensures Scan(s) == Some(n)
  {
    assert s[start] == n.integer[0];
  }

  lemma ScanComplete(n: Number)
    requires Grammatical(n)
    ensures Scan(Render(n)) == Some(n)
  {
    var s := Render(n);
    var sign, frac, exp := if n.negative then "-" else "", RenderFraction(n.fraction), RenderExponent(n.exponent);
    var start, intEnd := |sign|, |sign| + |n.integer|;
    var fracEnd := intEnd + |frac|;
    PartsOf(sign, n.integer, frac, exp);
    StartOf(s, start, intEnd, n.integer);
    RenderedRuns(s, n, start, intEnd, fracEnd);
    if n.negative { StartOf(s, 0, 1, sign); }
    if frac != "" { StartOf(s, intEnd, fracEnd, frac); }
    if n.exponent.Some? { ExponentScansBack(s, fracEnd, n.exponent.value); }
    ScanOfParts(s, n, start, intEnd, fracEnd);
  }

  /**
   The parser accepts exactly the numbers of the grammar within its four
   restrictions, and returns the exact value of the one number the text spells.
   */
  lemma {:induction false} ParseAcceptsIff(raw: string, value: real)
    ensures Parse(raw) == Some(value)
       <==> exists n :: Grammatical(n) && raw == Render(n) && Accepted(n) && value == Value(n)
    ensures forall m, n :: Grammatical(m) && Grammatical(n) && Render(m) == Render(n) ==> m == n
  {
    ScanSound(raw);
    forall n | Grammatical(n) && raw == Render(n) ensures Scan(raw) == Some(n) {
      ScanComplete(n);
    }
    if Parse(raw) == Some(value) {
      assert Grammatical(Scan(raw).value) && raw == Render(Scan(raw).value);
    }
    forall m, n | Grammatical(m) && Grammatical(n) && Render(m) == Render(n) ensures m == n {
      ScanComplete(m);
      ScanComplete(n);
    }
  }

  lemma {:induction false} PowerOfTenPositive(k: int)
    ensures PowerOfTen(k) > 0.0
    decreases if k < 0 then -k else k
  {
    if k > 0 { PowerOfTenPositive(k - 1); } else if k < 0 { PowerOfTenPositive(k + 1); }
  }

  lemma ProductSign(a: nat, p: real)
    requires p > 0.0
    ensures (a as real) * p >= 0.0 && ((a as real) * p == 0.0 <==> a == 0)
  {
  }

  lemma NegativeValue(n: Number)
    requires Grammatical(n) && n.negative
    ensures Value(n) <= 0.0 && (Value(n) == 0.0 <==> Decimal(n.integer + n.fraction) == 0)
  {
    PowerOfTenPositive(ExponentValue(n) - |n.fraction|);
    ProductSign(Decimal(n.integer + n.fraction), PowerOfTen(ExponentValue(n) - |n.fraction|));
  }

  /** A minus sign is let through only in front of zero, and then denotes zero. */
  lemma NegativeAcceptedOnlyForZero(n: Number)
    requires Grammatical(n) && n.negative
    ensures Accepted(n) ==> Decimal(n.integer + n.fraction) == 0 && Parse(Render(n)) == Some(0.0)
    ensures Decimal(n.integer + n.fraction) != 0 ==> Parse(Render(n)) == None
  {
    NegativeValue(n);
    ScanComplete(n);
  }
}
