/**
 jsonNumberEqualsTwo decides, from the text of a JSON number alone, whether its exact decimal value
 is 2. Numbers follow section 6 of RFC 8259; values are exact reals; the machine's 64-bit int
 arithmetic on lengths and exponents is written out.
 */
module JsonNumber {
  import opened Wrappers

  const MAX_INT: int := 0x7fff_ffff_ffff_ffff
  const MIN_INT: int := -0x8000_0000_0000_0000

  // ── the grammar and the value it denotes ────────────────────────────────────

  predicate IsDigit(c: char) { '0' <= c <= '9' }

  predicate AllDigits(s: string) {
    forall i :: 0 <= i < |s| ==> IsDigit(s[i])
  }

  datatype Exponent = Exponent(marker: char, sign: string, digits: string)

  /** number = [ minus ] int [ frac ] [ exp ] */
  datatype Literal = Literal(negative: bool, whole: string, fraction: Option<string>, exponent: Option<Exponent>)

  predicate Valid(n: Literal) {
    && |n.whole| >= 1 && AllDigits(n.whole)
    && (|n.whole| > 1 ==> n.whole[0] != '0')
    && (n.fraction.Some? ==> |n.fraction.value| >= 1 && AllDigits(n.fraction.value))
    && (n.exponent.Some? ==>
          && (n.exponent.value.marker == 'e' || n.exponent.value.marker == 'E')
          && (n.exponent.value.sign == "" || n.exponent.value.sign == "+" || n.exponent.value.sign == "-")
          && |n.exponent.value.digits| >= 1 && AllDigits(n.exponent.value.digits))
  }

  function FractionDigits(n: Literal): string {
    if n.fraction.Some? then n.fraction.value else ""
  }

  function MantissaText(n: Literal): string {
    n.whole + if n.fraction.Some? then "." + n.fraction.value else ""
  }

  function ExponentText(n: Literal): string {
    if n.exponent.Some? then n.exponent.value.sign + n.exponent.value.digits else ""
  }

  /** The literal as it appears in the document. */
  function Text(n: Literal): string {
    (if n.negative then "-" else "") + MantissaText(n)
    + if n.exponent.Some? then [n.exponent.value.marker] + ExponentText(n) else ""
  }

  function Digit(c: char): nat
    requires IsDigit(c)
  {
    (c - '0') as int
  }

  /** The natural number a digit string denotes. */
  function Decimal(s: string): nat
    requires AllDigits(s)
  {
    if s == "" then 0 else 10 * Decimal(s[..|s| - 1]) + Digit(s[|s| - 1])
  }

  /** Ten to an integer power. */
  function Pow10(k: int): (p: real)
    ensures p > 0.0
    decreases if k < 0 then -k else k
  {
    if k == 0 then 1.0
    else if k > 0 then 10.0 * Pow10(k - 1)
    else Pow10(k + 1) / 10.0
  }

  function ExponentValue(n: Literal): int
    requires Valid(n)
  {
    if n.exponent.None? then 0
    else if n.exponent.value.sign == "-" then -(Decimal(n.exponent.value.digits) as int)
    else Decimal(n.exponent.value.digits)
  }

  function Magnitude(whole: string, fraction: string, exponent: int): real
    requires AllDigits(whole) && AllDigits(fraction)
  {
    (Decimal(whole) as real + Decimal(fraction) as real / Pow10(|fraction|)) * Pow10(exponent)
  }

  /** The exact value of a number: (whole + fraction) times its power of ten, signed. */
  function Value(n: Literal): real
    requires Valid(n)
  {
    var m := Magnitude(n.whole, FractionDigits(n), ExponentValue(n));
    if n.negative then -m else m
  }

  // ── the lexical decision ────────────────────────────────────────────────────

  /** strconv.Atoi: an optional sign and digits, refused outside the machine's int. */
  function Atoi(s: string): Option<int> {
    var digits := if s != "" && (s[0] == '+' || s[0] == '-') then s[1..] else s;
    if digits == "" || !AllDigits(digits) then None
    else
      var v := if s[0] == '-' then -(Decimal(digits) as int) else Decimal(digits);
      if MIN_INT <= v <= MAX_INT then Some(v) else None
  }

  /** Two's-complement wrap-around of a 64-bit int. */
  function Wrap(x: int): int {
    (x + 0x8000_0000_0000_0000) % 0x1_0000_0000_0000_0000 - 0x8000_0000_0000_0000
  }

  predicate IsMarker(c: char) { c == 'e' || c == 'E' }

  predicate TwoThenZeros(s: string) {
    s != "" && s[0] == '2' && forall i :: 1 <= i < |s| ==> s[i] == '0'
  }

  function TrimZeros(s: string): string {
    if s != "" && s[0] == '0' then TrimZeros(s[1..]) else s
  }

  /** The position of the first character satisfying a test, or the length. */
  function First(s: string, test: char -> bool): (k: nat)
    ensures k <= |s|
    ensures k < |s| ==> test(s[k])
    ensures forall i :: 0 <= i < k ==> !test(s[i])
  {
    if s == "" || test(s[0]) then 0 else 1 + First(s[1..], test)
  }

  /** The decision on the split text: digits with the point removed, and the net scale. */
  predicate Decides(whole: string, fraction: string, exponent: int) {
    var stripped := TrimZeros(whole + fraction);
    TwoThenZeros(stripped) && Wrap(Wrap(|stripped| - 1 + exponent) - |fraction|) == 0
  }

  predicate MantissaDecides(mantissa: string, exponent: int) {
    var dot := First(mantissa, c => c == '.');
    if dot < |mantissa| then Decides(mantissa[..dot], mantissa[dot + 1..], exponent)
    else Decides(mantissa, "", exponent)
  }

  /** jsonNumberEqualsTwo as a predicate on any text at all. */
  predicate EqualsTwo(s: string) {
    if s == "" || s[0] == '-' then false
    else
      var mark := First(s, IsMarker);
      if mark == |s| then MantissaDecides(s, 0)
      else
        var e := Atoi(s[mark + 1..]);
        e.Some? && MantissaDecides(s[..mark], e.value)
  }

  lemma FirstIs(s: string, test: char -> bool, k: nat)
    requires k <= |s| && (k < |s| ==> test(s[k]))
    requires forall i :: 0 <= i < k ==> !test(s[i])
    ensures First(s, test) == k
  {
    var f := First(s, test);
    assert k < |s| ==> f <= k;
  }

  lemma {:induction false} TrimZerosIs(s: string, k: nat)
    requires k <= |s| && (forall i :: 0 <= i < k ==> s[i] == '0') && (k < |s| ==> s[k] != '0')
    ensures TrimZeros(s) == s[k..]
    decreases k
  {
    if k > 0 {
      TrimZerosIs(s[1..], k - 1);
      assert s[1..][k - 1..] == s[k..];
    }
  }

  /** One loop each: find the exponent, find the point, strip zeros, scan zeros. */
  method JsonNumberEqualsTwo(s: string) returns (equal: bool)
    ensures equal == EqualsTwo(s)
  {
    hide Decides, Atoi, IsMarker;
    if s == "" || s[0] == '-' {
      return false;
    }
    var mantissa, exponent := s, 0;
    var mark := IndexOf(s, IsMarker);
    if mark < |s| {
      mantissa := s[..mark];
      var e := Atoi(s[mark + 1..]);
      if e.None? {
        return false;
      }
      exponent := e.value;
    }
    var whole, fraction := mantissa, "";
    var dot := IndexOf(mantissa, c => c == '.');
    if dot < |mantissa| {
      whole, fraction := mantissa[..dot], mantissa[dot + 1..];
    }
    equal := DigitsDecide(whole, fraction, exponent);
  }

  method DigitsDecide(whole: string, fraction: string, exponent: int) returns (equal: bool)
    ensures equal == Decides(whole, fraction, exponent)
  {
    var digits := whole + fraction;
    var zeros := 0;
    while zeros < |digits| && digits[zeros] == '0'
      invariant zeros <= |digits| && forall i :: 0 <= i < zeros ==> digits[i] == '0'
    {
      zeros := zeros + 1;
    }
    TrimZerosIs(digits, zeros);
    var stripped := digits[zeros..];
    if stripped == "" || stripped[0] != '2' {
      return false;
    }
    var i := 1;
    while i < |stripped|
      invariant 1 <= i <= |stripped| && forall k :: 1 <= k < i ==> stripped[k] == '0'
    {
      if stripped[i] != '0' {
        return false;
      }
      i := i + 1;
    }
    return Wrap(Wrap(|stripped| - 1 + exponent) - |fraction|) == 0;
  }

  method IndexOf(s: string, test: char -> bool) returns (k: nat)
    ensures k == First(s, test)
  {
    k := 0;
    while k < |s| && !test(s[k])
      invariant k <= |s| && forall i :: 0 <= i < k ==> !test(s[i])
    {
      k := k + 1;
    }
    FirstIs(s, test, k);
  }

  // ── the text splits back into the grammar's parts ────────────────────────────

  lemma MantissaHasNoMarker(n: Literal)
    requires Valid(n)
    ensures |MantissaText(n)| >= 1 && IsDigit(MantissaText(n)[0])
    ensures forall i :: 0 <= i < |MantissaText(n)| ==> !IsMarker(MantissaText(n)[i])
  {
  }

  lemma TextShape(n: Literal)
    requires Valid(n) && !n.negative
    ensures var s, m := Text(n), MantissaText(n);
            if n.exponent.Some? then
              |s| > |m| && s[..|m|] == m && IsMarker(s[|m|]) && s[|m| + 1..] == ExponentText(n)
            else s == m
  {
    hide MantissaText, ExponentText;
    var s, m := Text(n), MantissaText(n);
    assert "" + m == m;
    if n.exponent.Some? {
      assert s == m + ([n.exponent.value.marker] + ExponentText(n));
    }
  }

  lemma SplitsBack(n: Literal)
    requires Valid(n) && !n.negative
    ensures EqualsTwo(Text(n)) <==>
            (n.exponent.None? || MIN_INT <= ExponentValue(n) <= MAX_INT)
            && Decides(n.whole, FractionDigits(n), ExponentValue(n))
  {
    hide Decimal, Decides, MantissaDecides, Atoi, Text, MantissaText, IsMarker, FractionDigits;
    var s, m := Text(n), MantissaText(n);
    MantissaHasNoMarker(n);
    TextShape(n);
    assert s[0] == m[0];
    assert forall i :: 0 <= i < |m| ==> s[i] == m[i];
    FirstIs(s, IsMarker, |m|);
    MantissaSplitsBack(n, ExponentValue(n));
    if n.exponent.Some? { AtoiReads(n.exponent.value); }
  }

  lemma MantissaSplitsBack(n: Literal, exponent: int)
    requires Valid(n)
    ensures MantissaDecides(MantissaText(n), exponent) == Decides(n.whole, FractionDigits(n), exponent)
  {
    var m := MantissaText(n);
    FirstIs(m, c => c == '.', |n.whole|);
    assert m[..|n.whole|] == n.whole;
    if n.fraction.Some? {
      assert m[|n.whole| + 1..] == n.fraction.value;
    } else {
      assert m == n.whole;
    }
  }

  lemma AtoiReads(e: Exponent)
    requires e.sign == "" || e.sign == "+" || e.sign == "-"
    requires |e.digits| >= 1 && AllDigits(e.digits)
    ensures var v := if e.sign == "-" then -(Decimal(e.digits) as int) else Decimal(e.digits);
            Atoi(e.sign + e.digits) == if MIN_INT <= v <= MAX_INT then Some(v) else None
  {
    hide Decimal;
    var t := e.sign + e.digits;
    assert t[|e.sign|..] == e.digits;
    assert IsDigit(e.digits[0]);
  }

  // ── powers of ten ───────────────────────────────────────────────────────────

  lemma Pow10Zero()
    ensures Pow10(0) == 1.0
  {
  }

  lemma Pow10Next(k: int)
    ensures Pow10(k + 1) == 10.0 * Pow10(k)
  {
  }

  lemma {:induction false} Pow10Sum(a: int, b: int)
    ensures Pow10(a + b) == Pow10(a) * Pow10(b)
    decreases if b < 0 then -b else b
  {
    hide Pow10;
    if b == 0 {
      Pow10Zero();
    } else if b > 0 {
      Pow10Sum(a, b - 1);
      Pow10Next(a + (b - 1));
      Pow10Next(b - 1);
      TenTimes(Pow10(a), Pow10(b - 1), Pow10(b));
    } else {
      Pow10Sum(a, b + 1);
      Pow10Next(a + b);
      Pow10Next(b);
      assert a + b + 1 == a + (b + 1);
      TenTimes(Pow10(a), Pow10(b), Pow10(b + 1));
    }
  }

  lemma TenTimes(x: real, y: real, z: real)
    requires z == 10.0 * y
    ensures 10.0 * (x * y) == x * z
  {
  }

  function NatPow10(k: nat): (p: nat)
    ensures p >= 1
  {
    if k == 0 then 1 else 10 * NatPow10(k - 1)
  }

  lemma {:induction false} NatPow10Is(k: nat)
    ensures NatPow10(k) as real == Pow10(k)
  {
    if k > 0 { NatPow10Is(k - 1); }
  }

  /** Digits times a power of ten. */
  function Scaled(digits: nat, k: int): real {
    digits as real * Pow10(k)
  }

  /** Scaling by a power of ten, back in whole numbers. */
  lemma ScaledInNaturals(d: nat, k: int)
    ensures k >= 0 ==> (Scaled(d, k) == 2.0 <==> d * NatPow10(k) == 2)
    ensures k <= 0 ==> (Scaled(d, k) == 2.0 <==> d == 2 * NatPow10(-k))
  {
    hide Pow10, NatPow10;
    if k >= 0 {
      NatPow10Is(k);
      assert (d * NatPow10(k)) as real == d as real * Pow10(k);
    }
    if k <= 0 {
      NatPow10Is(-k);
      Pow10Sum(k, -k);
      Pow10Zero();
      Cancel(d as real, Pow10(k), Pow10(-k));
    }
  }

  lemma Cancel(d: real, p: real, q: real)
    requires p * q == 1.0
    ensures d * p == 2.0 <==> d == 2.0 * q
  {
    Assoc(d, p, q);
    Assoc(2.0, q, p);
    assert (d * p) * q == d;
    assert (2.0 * q) * p == 2.0;
  }

  lemma Assoc(x: real, y: real, z: real)
    ensures (x * y) * z == x * (y * z)
  {
  }

  // ── decimal digits ──────────────────────────────────────────────────────────

  lemma NatPow10One()
    ensures NatPow10(0) == 1
  {
  }

  lemma DecimalLast(s: string)
    requires AllDigits(s) && s != ""
    ensures AllDigits(s[..|s| - 1]) && IsDigit(s[|s| - 1])
    ensures Decimal(s) == 10 * Decimal(s[..|s| - 1]) + Digit(s[|s| - 1])
  {
  }

  lemma NatPow10Times(x: nat, k: nat)
    requires k >= 1
    ensures x * NatPow10(k) == 10 * (x * NatPow10(k - 1))
  {
  }

  lemma {:induction false} DecimalConcat(a: string, b: string)
    requires AllDigits(a) && AllDigits(b)
    ensures AllDigits(a + b)
    ensures Decimal(a + b) == Decimal(a) * NatPow10(|b|) + Decimal(b)
    decreases |b|
  {
    hide Decimal, NatPow10, Digit;
    if b == "" {
      assert a + b == a;
      DecimalBase(a);
    } else {
      var init := b[..|b| - 1];
      assert (a + b)[..|a + b| - 1] == a + init;
      DecimalConcat(a, init);
      DecimalLast(a + b);
      DecimalLast(b);
      NatPow10Times(Decimal(a), |b|);
    }
  }

  lemma DecimalBase(a: string)
    requires AllDigits(a)
    ensures Decimal("") == 0 && Decimal(a) * NatPow10(0) == Decimal(a)
  {
  }

  lemma {:induction false} DecimalAtLeast(s: string)
    requires AllDigits(s) && s != "" && s[0] != '0'
    ensures Decimal(s) >= NatPow10(|s| - 1)
    decreases |s|
  {
    if |s| > 1 {
      DecimalAtLeast(s[..|s| - 1]);
    }
  }

  lemma {:induction false} TrimZerosKeepsDecimal(s: string)
    requires AllDigits(s)
    ensures var t := TrimZeros(s); AllDigits(t) && Decimal(t) == Decimal(s) && (t != "" ==> t[0] != '0') && |t| <= |s|
    decreases |s|
  {
    if s != "" && s[0] == '0' {
      TrimZerosKeepsDecimal(s[1..]);
      assert s == "0" + s[1..];
      DecimalConcat("0", s[1..]);
      assert Decimal("0") == 0;
    }
  }

  /** 2 followed by k zeros denotes 2 * 10^k ... */
  lemma {:induction false} TwoThenZerosValue(s: string)
    requires TwoThenZeros(s)
    ensures AllDigits(s) && Decimal(s) == 2 * NatPow10(|s| - 1)
    decreases |s|
  {
    if |s| > 1 {
      TwoThenZerosValue(s[..|s| - 1]);
    } else {
      assert s == "2" && Decimal("2") == 2;
    }
  }

  /** ... and is the only digit string without leading zeros that does. */
  lemma {:induction false} TwoThenZerosUnique(s: string, k: nat)
    requires AllDigits(s) && s != "" && s[0] != '0'
    requires Decimal(s) == 2 * NatPow10(k)
    ensures TwoThenZeros(s) && |s| == k + 1
    decreases k
  {
    hide NatPow10, Decimal;
    var init, last := s[..|s| - 1], Digit(s[|s| - 1]);
    DecimalLast(s);
    DecimalBase(init);
    if k == 0 {
      NatPow10One();
      assert Decimal(init) == 0 && last == 2;
      if init != "" { DecimalAtLeast(init); }
    } else {
      NatPow10Times(1, k);
      assert last == 0 && Decimal(init) == 2 * NatPow10(k - 1);
      assert init != "";
      TwoThenZerosUnique(init, k - 1);
    }
  }

  /** The value is the digits without the point, scaled by the exponent less the fraction's length. */
  lemma ValueIsScaled(n: Literal)
    requires Valid(n) && !n.negative
    ensures AllDigits(n.whole + FractionDigits(n))
    ensures Value(n) == Scaled(Decimal(n.whole + FractionDigits(n)), ExponentValue(n) - |FractionDigits(n)|)
  {
    hide Magnitude, Scaled, Decimal;
    PartsAreScaled(n.whole, FractionDigits(n), ExponentValue(n));
  }

  lemma PartsAreScaled(w: string, f: string, e: int)
    requires AllDigits(w) && AllDigits(f)
    ensures AllDigits(w + f)
    ensures Magnitude(w, f, e) == Scaled(Decimal(w + f), e - |f|)
  {
    hide Pow10, NatPow10, Decimal, AllDigits;
    DecimalConcat(w, f);
    NatPow10Is(|f|);
    Pow10Sum(e - |f|, |f|);
    assert e - |f| + |f| == e;
    var a, b, p := Decimal(w), Decimal(f), NatPow10(|f|);
    assert (a * p + b) as real == a as real * p as real + b as real;
    Rescale(a as real, b as real, Pow10(|f|), Pow10(e - |f|));
  }

  lemma Rescale(a: real, b: real, p: real, q: real)
    requires p > 0.0
    ensures (a + b / p) * (q * p) == (a * p + b) * q
  {
    var c := b / p;
    assert c * p == b;
    assert (a + c) * (p * q) == ((a + c) * p) * q by { Assoc(a + c, p, q); }
    assert (a + c) * p == a * p + c * p;
    assert q * p == p * q;
  }

  /** Exact scaled digits equal 2 exactly when they are a 2, then zeros, scaled back to units. */
  lemma ScaledIsTwo(digits: string, k: int)
    requires AllDigits(digits)
    ensures Scaled(Decimal(digits), k) == 2.0 <==>
            TwoThenZeros(TrimZeros(digits)) && |TrimZeros(digits)| - 1 + k == 0
  {
    hide Scaled;
    var t := TrimZeros(digits);
    TrimZerosKeepsDecimal(digits);
    ScaledInNaturals(Decimal(t), k);
    if TwoThenZeros(t) {
      TwoThenZerosValue(t);
    }
    if k > 0 {
      assert NatPow10(k) == 10 * NatPow10(k - 1);
      TooBig(Decimal(t), NatPow10(k - 1));
    } else if t != "" && Decimal(t) == 2 * NatPow10(-k) {
      TwoThenZerosUnique(t, -k);
    }
  }

  lemma TooBig(d: nat, p: nat)
    requires p >= 1
    ensures d * (10 * p) != 2
  {
    if d >= 1 { assert d * (10 * p) >= 10 * p; }
  }

  /** An exponent the machine cannot hold never denotes 2: the text is too short to make up for it. */
  lemma HugeExponentIsNotTwo(n: Literal)
    requires Valid(n) && !n.negative && |Text(n)| <= MAX_INT
    requires ExponentValue(n) < MIN_INT || ExponentValue(n) > MAX_INT
    ensures Value(n) != 2.0
  {
    hide Scaled, Value;
    var f, e := FractionDigits(n), ExponentValue(n);
    var digits := n.whole + f;
    ValueIsScaled(n);
    ScaledIsTwo(digits, e - |f|);
    TrimZerosKeepsDecimal(digits);
    assert |Text(n)| >= |digits|;
  }

  /** Lengths and exponents of a real Go string never wrap all the way back to zero. */
  lemma WrapIsExact(len: int, exponent: int, frac: int)
    requires 1 <= len <= MAX_INT && 0 <= frac <= MAX_INT && MIN_INT <= exponent <= MAX_INT
    ensures Wrap(Wrap(len - 1 + exponent) - frac) == 0 <==> len - 1 + exponent - frac == 0
  {
  }

  /**
   For every well-formed JSON number a Go string can hold, the lexical test says exactly whether the
   number's value is 2.
   */
  lemma EqualsTwoExact(n: Literal)
    requires Valid(n) && |Text(n)| <= MAX_INT
    ensures EqualsTwo(Text(n)) <==> Value(n) == 2.0
  {
    if n.negative {
      NegativeIsNotTwo(n.whole, FractionDigits(n), ExponentValue(n));
      assert Text(n)[0] == '-';
    } else {
      NonNegativeExact(n);
    }
  }

  lemma NegativeIsNotTwo(w: string, f: string, e: int)
    requires AllDigits(w) && AllDigits(f)
    ensures Magnitude(w, f, e) >= 0.0
  {
    assert Decimal(f) as real / Pow10(|f|) >= 0.0;
  }

  lemma NonNegativeExact(n: Literal)
    requires Valid(n) && !n.negative && |Text(n)| <= MAX_INT
    ensures EqualsTwo(Text(n)) <==> Value(n) == 2.0
  {
    hide Scaled, Value, EqualsTwo, Wrap, Decimal;
    var f, e := FractionDigits(n), ExponentValue(n);
    var t := TrimZeros(n.whole + f);
    SplitsBack(n);
    ValueIsScaled(n);
    ScaledIsTwo(n.whole + f, e - |f|);
    TrimZerosKeepsDecimal(n.whole + f);
    assert |Text(n)| >= |n.whole + f|;
    if e < MIN_INT || e > MAX_INT {
      HugeExponentIsNotTwo(n);
    } else if t != "" {
      WrapIsExact(|t|, e, |f|);
    }
  }

  /**
   A JSON value that is not a number is refused whatever follows its first character: a string, an
   array, an object, true, false or null.
   */
  lemma NonNumbersRefused(s: string)
    requires s != "" && s[0] in {'"', '[', '{', 't', 'f', 'n'}
    ensures !EqualsTwo(s)
  {
    var mark := First(s, IsMarker);
    assert mark > 0 && s[..mark][0] == s[0];
    NonNumberMantissa(s[..mark], 0);
    if mark < |s| && Atoi(s[mark + 1..]).Some? {
      NonNumberMantissa(s[..mark], Atoi(s[mark + 1..]).value);
    } else if mark == |s| {
      assert s[..mark] == s;
    }
  }

  lemma NonNumberMantissa(m: string, exponent: int)
    requires m != "" && m[0] in {'"', '[', '{', 't', 'f', 'n'}
    ensures !MantissaDecides(m, exponent)
  {
    var dot := First(m, c => c == '.');
    assert dot > 0;
    var digits := if dot < |m| then m[..dot] + m[dot + 1..] else m + "";
    assert digits[0] == m[0] && TrimZeros(digits) == digits;
  }

  // ── the grammar and the value, character by character ───────────────────────

  predicate Digits(s: string) {
    s != "" && forall i :: 0 <= i < |s| ==> s[i] in {'0', '1', '2', '3', '4', '5', '6', '7', '8', '9'}
  }

  predicate SignText(s: string) {
    s == "" || s == "-"
  }

  predicate WholeText(s: string) {
    Digits(s) && (s == "0" || s[0] != '0')
  }

  predicate FractionText(s: string) {
    s == "" || (s[0] == '.' && Digits(s[1..]))
  }

  predicate PowerText(s: string) {
    s == "" || (s[0] in {'e', 'E'} && (Digits(s[1..]) || (|s| > 1 && s[1] in {'+', '-'} && Digits(s[2..]))))
  }

  /** The four parts of a number as section 6 of RFC 8259 has them. */
  predicate NumberParts(sign: string, whole: string, fraction: string, power: string) {
    SignText(sign) && WholeText(whole) && FractionText(fraction) && PowerText(power)
  }

  lemma DigitsAre(s: string)
    ensures s != "" && AllDigits(s) <==> Digits(s)
  {
    forall i | 0 <= i < |s| && IsDigit(s[i])
      ensures s[i] in {'0', '1', '2', '3', '4', '5', '6', '7', '8', '9'}
    {
      OneDigit(s[i]);
    }
  }

  lemma OneDigit(c: char)
    ensures IsDigit(c) <==> c in {'0', '1', '2', '3', '4', '5', '6', '7', '8', '9'}
  {
    if IsDigit(c) { assert c as int in {48, 49, 50, 51, 52, 53, 54, 55, 56, 57}; }
  }

  lemma WholeIs(s: string)
    ensures WholeText(s) <==> |s| >= 1 && AllDigits(s) && (|s| > 1 ==> s[0] != '0')
  {
    hide AllDigits, Digits;
    DigitsAre(s);
    if |s| == 1 && s[0] == '0' { assert s == "0"; }
  }

  lemma FractionIs(s: string)
    ensures FractionText("") && (FractionText("." + s) <==> |s| >= 1 && AllDigits(s))
    ensures FractionText(s) && s != "" ==> s == "." + s[1..]
  {
    hide AllDigits, Digits;
    DigitsAre(s);
    assert ("." + s)[1..] == s;
  }

  lemma PowerIs(e: Exponent)
    requires e.sign == "" || e.sign == "+" || e.sign == "-"
    ensures e.marker == 'e' || e.marker == 'E' ==> |e.digits| >= 1 && AllDigits(e.digits) ==>
              PowerText([e.marker] + (e.sign + e.digits))
  {
    hide AllDigits, Digits;
    DigitsAre(e.digits);
    var s := [e.marker] + (e.sign + e.digits);
    if e.sign == "" { assert s[1..] == e.digits; } else { assert s[1] == e.sign[0] && s[2..] == e.digits; }
  }

  lemma ReadPower(s: string) returns (e: Exponent)
    requires PowerText(s) && s != ""
    ensures e.marker == 'e' || e.marker == 'E'
    ensures e.sign == "" || e.sign == "+" || e.sign == "-"
    ensures |e.digits| >= 1 && AllDigits(e.digits) && s == [e.marker] + (e.sign + e.digits)
  {
    hide AllDigits, Digits;
    if Digits(s[1..]) {
      DigitsAre(s[1..]);
      e := Exponent(s[0], "", s[1..]);
      assert "" + s[1..] == s[1..];
    } else {
      DigitsAre(s[2..]);
      e := Exponent(s[0], [s[1]], s[2..]);
      assert s == [s[0]] + ([s[1]] + s[2..]);
    }
  }

  /** Every text the grammar of numbers allows is one of the literals the exact test is about. */
  lemma EveryNumberIsALiteral(sign: string, whole: string, fraction: string, power: string) returns (n: Literal)
    requires NumberParts(sign, whole, fraction, power)
    ensures Valid(n) && Text(n) == sign + whole + fraction + power
  {
    hide AllDigits, Digits, WholeText, FractionText, PowerText;
    WholeIs(whole);
    n := Literal(sign == "-", whole, None, None);
    if fraction != "" {
      FractionIs(fraction);
      FractionIs(fraction[1..]);
      n := n.(fraction := Some(fraction[1..]));
    }
    assert MantissaText(n) == whole + fraction;
    if power != "" {
      var e := ReadPower(power);
      n := n.(exponent := Some(e));
    }
    Reassociate(sign, whole, fraction, power);
  }

  lemma Reassociate(a: string, b: string, c: string, d: string)
    ensures a + (b + c) + d == a + b + c + d
  {
  }

  /** And every such literal is written as the grammar says. */
  lemma EveryLiteralIsANumber(n: Literal) returns (sign: string, whole: string, fraction: string, power: string)
    requires Valid(n)
    ensures NumberParts(sign, whole, fraction, power) && Text(n) == sign + whole + fraction + power
  {
    hide AllDigits, Digits, WholeText, FractionText, PowerText;
    sign := if n.negative then "-" else "";
    whole := n.whole;
    fraction := if n.fraction.Some? then "." + n.fraction.value else "";
    power := if n.exponent.Some? then [n.exponent.value.marker] + ExponentText(n) else "";
    WholeIs(whole);
    FractionIs(FractionDigits(n));
    if n.exponent.Some? { PowerIs(n.exponent.value); } else { NoPower(); }
    Reassociate(sign, whole, fraction, power);
  }

  lemma NoPower()
    ensures PowerText("")
  {
  }

  /** The value: what stands before and behind the point, times the power of ten, signed. */
  lemma ValueRule(n: Literal)
    requires Valid(n)
    ensures var behind := if n.fraction.Some? then n.fraction.value else "";
            var power := if n.exponent.None? then 0
                         else if n.exponent.value.sign == "-" then -(Decimal(n.exponent.value.digits) as int)
                         else Decimal(n.exponent.value.digits);
            var size := (Decimal(n.whole) as real + Decimal(behind) as real / Pow10(|behind|)) * Pow10(power);
            Value(n) == if n.negative then -size else size
  {
    hide AllDigits, Pow10, Decimal;
  }

  /** Each digit is worth its place, and each place ten of the next. */
  lemma DecimalRule(s: string, c: char)
    requires AllDigits(s) && '0' <= c <= '9'
    ensures AllDigits("") && Decimal("") == 0
    ensures AllDigits(s + [c]) && Decimal(s + [c]) == 10 * Decimal(s) + (c as int - '0' as int)
  {
    assert (s + [c])[..|s|] == s;
  }

  lemma PowerRule(k: int)
    ensures Pow10(0) == 1.0 && Pow10(k + 1) == 10.0 * Pow10(k)
  {
  }
}
