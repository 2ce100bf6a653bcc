/**
 * Canonical spelling of JSON numbers (internal/gsbench/recovery_ledger.go:525-573).
 * The literal grammar is section 6 of RFC 8259. A literal denotes a real number;
 * the canonical spelling is shown to decide equality of the denoted numbers.
 */
module CanonicalNumber {
  import opened Common
  import opened Text

  datatype NumberError = InvalidNumber | ExponentOutOfRange

  /** The groups of the literal pattern; an absent fraction or exponent is empty. */
  datatype Literal = Literal(negative: bool, whole: string, fraction: string, exponent: string)
  {
    function Digits(): string { whole + fraction }
  }

  const MIN_INT32: int := -0x8000_0000
  const MAX_INT32: int := 0x7FFF_FFFF

  predicate FitsInt32(i: int) { MIN_INT32 <= i <= MAX_INT32 }

  // ---- reading a literal ----

  /** Length of the longest prefix of digits. */
  function DigitRun(s: string): (n: nat)
    ensures n <= |s|
  {
    if s != "" && IsDigit(s[0]) then 1 + DigitRun(s[1..]) else 0
  }

  lemma {:induction false} DigitRunDigits(s: string)
    ensures AllDigits(s[..DigitRun(s)])
  {
    if s != "" && IsDigit(s[0]) {
      var n := DigitRun(s[1..]);
      DigitRunDigits(s[1..]);
      assert s[..n + 1] == [s[0]] + s[1..][..n];
      AllDigitsConcat([s[0]], s[1..][..n]);
    }
  }

  predicate IsExponent(s: string) {
    var digits := if s != "" && (s[0] == '+' || s[0] == '-') then s[1..] else s;
    digits != "" && AllDigits(digits)
  }

  function MatchFraction(s: string): Option<(string, string)> {
    if s == "" || s[0] != '.' then Some(("", s)) else
    var n := DigitRun(s[1..]);
    if n == 0 then None else Some((s[1..][..n], s[1..][n..]))
  }

  function MatchExponent(s: string): Option<string> {
    if s == "" then Some("")
    else if (s[0] == 'e' || s[0] == 'E') && IsExponent(s[1..]) then Some(s[1..])
    else None
  }

  predicate WellFormed(l: Literal) {
    && l.whole != "" && AllDigits(l.Digits())
    && (l.exponent == "" || IsExponent(l.exponent))
  }

  /** The literal after its sign. */
  function MatchBody(negative: bool, body: string): (r: Option<Literal>)
    ensures r.Some? ==> WellFormed(r.value)
  {
    var n := DigitRun(body);
    if n == 0 || (body[0] == '0' && n > 1) then None else
    match MatchFraction(body[n..])
    case None => None
    case Some((fraction, rest)) =>
      match MatchExponent(rest)
      case None => None
      case Some(exponent) =>
        DigitRunDigits(body);
        DigitRunDigits(body[n..][if fraction == "" then 0 else 1..]);
        AllDigitsConcat(body[..n], fraction);
        Some(Literal(negative, body[..n], fraction, exponent))
  }

  function MatchNumber(s: string): (r: Option<Literal>)
    ensures r.Some? ==> WellFormed(r.value)
  {
    if s != "" && s[0] == '-' then MatchBody(true, s[1..]) else MatchBody(false, s)
  }

  /** The exponent without any bound on its width; absent means 0. */
  function ExponentValue(s: string): int
    requires s == "" || IsExponent(s)
  {
    if s == "" then 0
    else if s[0] == '-' then -(NatOf(s[1..]) as int)
    else if s[0] == '+' then NatOf(s[1..])
    else NatOf(s)
  }

  // ---- what a literal denotes ----

  /** x * 10^p. */
  function Scale(x: real, p: int): real
    decreases if p < 0 then -p else p
  {
    if p == 0 then x else if p > 0 then Scale(10.0 * x, p - 1) else Scale(x / 10.0, p + 1)
  }

  function Signed(negative: bool, n: nat): int { if negative then -(n as int) else n }

  /** n * 10^power, with the sign. */
  function Denote(negative: bool, n: nat, power: int): real {
    Scale(Signed(negative, n) as real, power)
  }

  /** The power of ten of a literal's last digit. */
  function LastPower(l: Literal): int
    requires WellFormed(l)
  {
    ExponentValue(l.exponent) - |l.fraction|
  }

  function LiteralValue(l: Literal): real
    requires WellFormed(l)
  {
    Denote(l.negative, NatOf(l.Digits()), LastPower(l))
  }

  /** The real number a literal denotes. */
  function Value(s: string): real
    requires MatchNumber(s).Some?
  {
    LiteralValue(MatchNumber(s).value)
  }

  // ---- the canonical spelling ----

  function TrimLeftZeros(s: string): string {
    if s != "" && s[0] == '0' then TrimLeftZeros(s[1..]) else s
  }

  /** Drops trailing zeros of a digit string of length above 1, raising the power for each. */
  function TrimRightZeros(digits: string, power: int): (r: (string, int))
    requires digits != ""
    ensures r.0 != ""
  {
    if |digits| > 1 && digits[|digits| - 1] == '0'
    then TrimRightZeros(digits[..|digits| - 1], power + 1)
    else (digits, power)
  }

  function Mantissa(digits: string): string
    requires digits != ""
  {
    if |digits| > 1 then digits[..1] + "." + digits[1..] else digits[..1]
  }

  function ExponentSuffix(scientific: int): string {
    if scientific == 0 then "" else "e" + FormatInt(scientific)
  }

  function Render(negative: bool, digits: string, scientific: int): string
    requires digits != ""
  {
    (if negative then "-" else "") + (Mantissa(digits) + ExponentSuffix(scientific))
  }

  function LeadingDigits(l: Literal): string { TrimLeftZeros(l.Digits()) }

  /** The coefficient's digits and the power of ten of its last digit. */
  function Trimmed(l: Literal): (r: (string, int))
    requires WellFormed(l) && LeadingDigits(l) != ""
    ensures r.0 != ""
  {
    TrimRightZeros(LeadingDigits(l), LastPower(l))
  }

  function Spelling(l: Literal): string
    requires WellFormed(l)
  {
    if LeadingDigits(l) == "" then "0"
    else Render(l.negative, Trimmed(l).0, Trimmed(l).1 + |Trimmed(l).0| - 1)
  }

  /** The pattern matches and the exponent parses into 32 bits. */
  predicate Accepted(value: string) {
    MatchNumber(value).Some? && FitsInt32(ExponentValue(MatchNumber(value).value.exponent))
  }

  function CanonicalText(value: string): string
    requires Accepted(value)
  {
    Spelling(MatchNumber(value).value)
  }

  function Canonical(value: string): Result<string, NumberError> {
    if MatchNumber(value).None? then Err(InvalidNumber)
    else if !Accepted(value) then Err(ExponentOutOfRange)
    else Ok(CanonicalText(value))
  }

  lemma RenderSteps(negative: bool, digits: string, scientific: int)
    requires digits != ""
    ensures Render(negative, digits, scientific)
         == var coefficient := if negative then "-" + Mantissa(digits) else Mantissa(digits);
            if scientific == 0 then coefficient else coefficient + ("e" + FormatInt(scientific))
  {
    var m, suffix := Mantissa(digits), ExponentSuffix(scientific);
    assert "-" + (m + suffix) == "-" + m + suffix;
    assert "" + (m + suffix) == m + suffix;
    assert m + "" == m && "-" + m + "" == "-" + m;
  }

  /** The source's loop: zeros are trimmed one at a time while the power grows. */
  method CanonicalRecoveryJsonNumber(value: string) returns (r: Result<string, NumberError>)
    ensures r == Canonical(value)
  {
    hide MatchNumber, ExponentValue, TrimLeftZeros, FormatInt, AllDigits;
    var parts := MatchNumber(value);
    if parts.None? { return Err(InvalidNumber); }
    var l := parts.value;
    var exponent := ExponentValue(l.exponent);
    if !FitsInt32(exponent) { return Err(ExponentOutOfRange); }
    var digits := TrimLeftZeros(l.whole + l.fraction);
    if digits == "" { return Ok("0"); }
    var power := exponent - |l.fraction|;
    while |digits| > 1 && digits[|digits| - 1] == '0'
      invariant |digits| >= 1
      invariant TrimRightZeros(digits, power) == Trimmed(l)
    {
      digits := digits[..|digits| - 1];
      power := power + 1;
    }
    assert Trimmed(l) == (digits, power);
    var scientific := power + |digits| - 1;
    assert Spelling(l) == Render(l.negative, digits, scientific);
    var coefficient := digits[..1];
    if |digits| > 1 { coefficient := coefficient + "." + digits[1..]; }
    assert coefficient == Mantissa(digits);
    if l.negative { coefficient := "-" + coefficient; }
    RenderSteps(l.negative, digits, scientific);
    r := Ok(if scientific == 0 then coefficient else coefficient + ("e" + FormatInt(scientific)));
  }

  // ---- normal digit strings ----

  ghost predicate Normal(digits: string) {
    digits != "" && AllDigits(digits) && digits[0] != '0' && digits[|digits| - 1] != '0'
  }

  lemma {:induction false} DropLeadingZero(s: string)
    requires AllDigits(s) && s != "" && s[0] == '0'
    ensures AllDigits(s[1..]) && NatOf(s[1..]) == NatOf(s)
  {
    AllDigitsFirst(s);
    if |s| > 1 {
      var front := s[..|s| - 1];
      DropLeadingZero(front);
      assert front[1..] == s[1..][..|s| - 2];
    }
  }

  lemma {:induction false} TrimLeftKeepsNumber(s: string)
    requires AllDigits(s)
    ensures AllDigits(TrimLeftZeros(s)) && NatOf(TrimLeftZeros(s)) == NatOf(s)
    ensures TrimLeftZeros(s) != "" ==> TrimLeftZeros(s)[0] != '0'
  {
    if s != "" && s[0] == '0' {
      DropLeadingZero(s);
      TrimLeftKeepsNumber(s[1..]);
    }
  }

  lemma {:induction false} TrimRightNormal(negative: bool, digits: string, power: int)
    requires digits != "" && AllDigits(digits) && digits[0] != '0'
    ensures var (d, p) := TrimRightZeros(digits, power);
            && Normal(d) && p + |d| == power + |digits|
            && Denote(negative, NatOf(d), p) == Denote(negative, NatOf(digits), power)
  {
    if |digits| > 1 && digits[|digits| - 1] == '0' {
      var shorter := digits[..|digits| - 1];
      TrimRightNormal(negative, shorter, power + 1);
      Shift(Signed(negative, NatOf(shorter)), power);
    }
  }

  lemma Shift(m: int, power: int)
    ensures Scale((10 * m) as real, power) == Scale(m as real, power + 1)
  {
    assert (10 * m) as real == 10.0 * m as real;
  }

  lemma {:induction false} ScaleInjective(x: real, y: real, p: int)
    requires Scale(x, p) == Scale(y, p)
    ensures x == y
    decreases if p < 0 then -p else p
  {
    if p > 0 { ScaleInjective(10.0 * x, 10.0 * y, p - 1); }
    if p < 0 { ScaleInjective(x / 10.0, y / 10.0, p + 1); }
  }

  /** A higher power of ten is a multiple of ten at the lower one. */
  lemma {:induction false} LowerPower(n: int, p: int, q: int) returns (m: int)
    requires p < q
    ensures m % 10 == 0 && Scale(m as real, p) == Scale(n as real, q)
    decreases q - p
  {
    if p + 1 == q {
      m := 10 * n;
      Shift(n, p);
    } else {
      var k := LowerPower(n, p + 1, q);
      m := 10 * k;
      Shift(k, p);
    }
  }

  /** A trailing digit other than 0 pins the power of ten. */
  lemma SamePower(m: int, p: int, n: int, q: int)
    requires m % 10 != 0 && n % 10 != 0
    requires Scale(m as real, p) == Scale(n as real, q)
    ensures p == q && m == n
  {
    if p < q {
      var k := LowerPower(n, p, q);
      ScaleInjective(m as real, k as real, p);
    } else if q < p {
      var k := LowerPower(m, q, p);
      ScaleInjective(n as real, k as real, q);
    } else {
      ScaleInjective(m as real, n as real, p);
    }
  }

  lemma LastDigit(d: string)
    requires Normal(d)
    ensures NatOf(d) % 10 != 0
  {
  }

  lemma NormalUnique(minusD: bool, d: string, p: int, minusE: bool, e: string, q: int)
    requires Normal(d) && Normal(e)
    requires Denote(minusD, NatOf(d), p) == Denote(minusE, NatOf(e), q)
    ensures minusD == minusE && d == e && p == q
  {
    hide Scale, NatOf, AllDigits;
    LastDigit(d);
    LastDigit(e);
    SamePower(Signed(minusD, NatOf(d)), p, Signed(minusE, NatOf(e)), q);
    NatOfInjective(d, e);
  }

  lemma {:induction false} ScaleZero(p: int)
    ensures Scale(0.0, p) == 0.0
    decreases if p < 0 then -p else p
  {
    if p > 0 { ScaleZero(p - 1); }
    if p < 0 { ScaleZero(p + 1); }
  }

  // ---- reading back a rendered number ----

  lemma {:induction false} RunOfDigits(s: string, rest: string)
    requires AllDigits(s) && (rest == "" || !IsDigit(rest[0]))
    ensures DigitRun(s + rest) == |s|
  {
    if s == "" {
      assert s + rest == rest;
    } else {
      AllDigitsFirst(s);
      RunOfDigits(s[1..], rest);
      assert (s + rest)[1..] == s[1..] + rest;
    }
  }

  lemma ReadExponent(e: int)
    ensures IsExponent(FormatInt(e)) && ExponentValue(FormatInt(e)) == e
  {
    var n := if e < 0 then -e else e;
    ItoaDenotes(n);
    ItoaStart(n);
    if e < 0 { assert FormatInt(e)[1..] == Itoa(n); }
  }

  lemma ReadFraction(fraction: string, rest: string)
    requires AllDigits(fraction)
    requires rest == "" || rest[0] == 'e'
    ensures MatchFraction((if fraction == "" then "" else "." + fraction) + rest) == Some((fraction, rest))
  {
    if fraction == "" {
      assert "" + rest == rest;
    } else {
      var s := "." + fraction + rest;
      assert s[1..] == fraction + rest;
      RunOfDigits(fraction, rest);
      assert s[1..][..|fraction|] == fraction && s[1..][|fraction|..] == rest;
    }
  }

  /** Whole part, optional fraction and optional exponent read back as they were put together. */
  lemma ReadBody(negative: bool, whole: string, fraction: string, exponent: string)
    requires whole != "" && AllDigits(whole) && (whole[0] == '0' ==> whole == "0")
    requires AllDigits(fraction) && (exponent == "" || IsExponent(exponent))
    ensures MatchBody(negative, whole + ((if fraction == "" then "" else "." + fraction)
                                         + (if exponent == "" then "" else "e" + exponent)))
         == Some(Literal(negative, whole, fraction, exponent))
  {
    hide AllDigits, DigitRun;
    var rest := if exponent == "" then "" else "e" + exponent;
    var tail := (if fraction == "" then "" else "." + fraction) + rest;
    ReadWhole(whole, tail);
    ReadFraction(fraction, rest);
    ReadExponentText(exponent, rest);
  }

  lemma ReadWhole(whole: string, tail: string)
    requires whole != "" && AllDigits(whole)
    requires tail == "" || tail[0] == '.' || tail[0] == 'e'
    ensures DigitRun(whole + tail) == |whole|
    ensures (whole + tail)[..|whole|] == whole && (whole + tail)[|whole|..] == tail
  {
    RunOfDigits(whole, tail);
  }

  lemma ReadExponentText(exponent: string, rest: string)
    requires exponent == "" || IsExponent(exponent)
    requires rest == if exponent == "" then "" else "e" + exponent
    ensures MatchExponent(rest) == Some(exponent)
  {
    assert exponent != "" ==> rest[1..] == exponent;
  }

  lemma MantissaParts(d: string, suffix: string)
    requires d != ""
    ensures Mantissa(d) + suffix == d[..1] + ((if d[1..] == "" then "" else "." + d[1..]) + suffix)
    ensures Mantissa(d)[0] == d[0]
  {
    if |d| == 1 {
      assert d[1..] == "";
      assert "" + suffix == suffix;
    } else {
      assert d[..1] + "." + d[1..] + suffix == d[..1] + ("." + d[1..] + suffix);
    }
  }

  /** The sign is read off a rendered number. */
  lemma ReadSign(negative: bool, body: string)
    requires body != "" && IsDigit(body[0])
    ensures MatchNumber((if negative then "-" else "") + body) == MatchBody(negative, body)
  {
    if negative {
      assert ("-" + body)[1..] == body;
    } else {
      assert "" + body == body;
    }
  }

  lemma ReadRendered(negative: bool, d: string, e: int)
    requires Normal(d)
    ensures MatchNumber(Render(negative, d, e))
         == Some(Literal(negative, d[..1], d[1..], if e == 0 then "" else FormatInt(e)))
  {
    AllDigitsSplit(d, 1);
    AllDigitsFirst(d);
    ReadExponent(e);
    ReadBody(negative, d[..1], d[1..], if e == 0 then "" else FormatInt(e));
    MantissaParts(d, ExponentSuffix(e));
    ReadSign(negative, Mantissa(d) + ExponentSuffix(e));
  }

  lemma ReadZero()
    ensures MatchNumber("0") == Some(Literal(false, "0", "", ""))
  {
    ReadBody(false, "0", "", "");
    assert "0" + ("" + "") == "0";
  }

  // ---- the results ----

  /** Where the leading non-zero digit of a literal stands, as a power of ten. */
  function ScientificExponent(l: Literal): int
    requires WellFormed(l)
  {
    LastPower(l) + |LeadingDigits(l)| - 1
  }

  predicate IsZero(l: Literal) { LeadingDigits(l) == "" }

  /** The sign, digits and exponent that the canonical spelling is made of keep the value. */
  lemma LiteralShape(l: Literal)
    requires WellFormed(l) && !IsZero(l)
    ensures Normal(Trimmed(l).0)
    ensures Trimmed(l).1 + |Trimmed(l).0| - 1 == ScientificExponent(l)
    ensures LiteralValue(l) == Denote(l.negative, NatOf(Trimmed(l).0), Trimmed(l).1)
  {
    TrimLeftKeepsNumber(l.Digits());
    TrimRightNormal(l.negative, LeadingDigits(l), LastPower(l));
  }

  lemma ValueZero(l: Literal)
    requires WellFormed(l)
    ensures LiteralValue(l) == 0.0 <==> IsZero(l)
  {
    TrimLeftKeepsNumber(l.Digits());
    ScaleZero(LastPower(l));
    if !IsZero(l) {
      NatOfPositive(LeadingDigits(l));
      if LiteralValue(l) == 0.0 {
        ScaleInjective(Signed(l.negative, NatOf(l.Digits())) as real, 0.0, LastPower(l));
      }
    }
  }

  lemma NormalParts(negative: bool, d: string, e: int) returns (l: Literal)
    requires Normal(d)
    ensures l == Literal(negative, d[..1], d[1..], if e == 0 then "" else FormatInt(e))
    ensures WellFormed(l) && l.Digits() == d
    ensures ExponentValue(l.exponent) == e && LastPower(l) == e - |d| + 1
  {
    ReadExponent(e);
    l := Literal(negative, d[..1], d[1..], if e == 0 then "" else FormatInt(e));
    assert d[..1] + d[1..] == d;
  }

  /** What the canonical spelling of a literal reads back as. */
  lemma SpellingReads(l: Literal) returns (again: Literal)
    requires WellFormed(l) && !IsZero(l)
    ensures MatchNumber(Spelling(l)) == Some(again)
    ensures again.negative == l.negative && again.Digits() == Trimmed(l).0
    ensures ExponentValue(again.exponent) == ScientificExponent(l)
    ensures LastPower(again) == Trimmed(l).1
  {
    LiteralShape(l);
    again := NormalParts(l.negative, Trimmed(l).0, ScientificExponent(l));
    ReadRendered(l.negative, Trimmed(l).0, ScientificExponent(l));
  }

  lemma ZeroReads()
    ensures MatchNumber("0").Some? && Accepted("0")
    ensures Value("0") == 0.0 && CanonicalText("0") == "0"
  {
    ReadZero();
    var l := MatchNumber("0").value;
    assert l.Digits() == "0" && "0"[1..] == "";
    ValueZero(l);
  }

  /** The canonical spelling denotes the number the literal denotes. */
  lemma CanonicalKeepsValue(s: string)
    requires Accepted(s)
    ensures MatchNumber(CanonicalText(s)).Some?
    ensures Value(CanonicalText(s)) == Value(s)
  {
    var l := MatchNumber(s).value;
    ValueZero(l);
    if IsZero(l) {
      ZeroReads();
    } else {
      LiteralShape(l);
      var again := SpellingReads(l);
    }
  }

  /** A canonical spelling starts with its sign or a digit. */
  lemma CanonicalStart(s: string)
    requires Accepted(s)
    ensures CanonicalText(s) != "" && (IsDigit(CanonicalText(s)[0]) || CanonicalText(s)[0] == '-')
  {
    var l := MatchNumber(s).value;
    if !IsZero(l) {
      LiteralShape(l);
      AllDigitsFirst(Trimmed(l).0);
    }
  }

  lemma SameNumberSameParts(l: Literal, m: Literal)
    requires WellFormed(l) && WellFormed(m) && !IsZero(l) && !IsZero(m)
    requires LiteralValue(l) == LiteralValue(m)
    ensures l.negative == m.negative && Trimmed(l) == Trimmed(m)
  {
    LiteralShape(l);
    LiteralShape(m);
    NormalUnique(l.negative, Trimmed(l).0, Trimmed(l).1, m.negative, Trimmed(m).0, Trimmed(m).1);
  }

  lemma SameNumberSameText(l: Literal, m: Literal)
    requires WellFormed(l) && WellFormed(m)
    requires LiteralValue(l) == LiteralValue(m)
    ensures Spelling(l) == Spelling(m)
  {
    hide Render;
    ValueZero(l);
    ValueZero(m);
    if !IsZero(l) { SameNumberSameParts(l, m); }
  }

  /** Equal spellings exactly for equal numbers, for every pair of accepted literals. */
  lemma CanonicalDecidesValue(a: string, b: string)
    requires Accepted(a) && Accepted(b)
    ensures CanonicalText(a) == CanonicalText(b) <==> Value(a) == Value(b)
  {
    hide Spelling, LiteralValue;
    if Value(a) == Value(b) {
      SameNumberSameText(MatchNumber(a).value, MatchNumber(b).value);
    } else {
      CanonicalKeepsValue(a);
      CanonicalKeepsValue(b);
    }
  }

  /** Spelling a literal made of already trimmed parts repeats them. */
  lemma SpellingAgain(l: Literal, again: Literal)
    requires WellFormed(l) && !IsZero(l)
    requires WellFormed(again) && again.negative == l.negative && again.Digits() == Trimmed(l).0
    requires LastPower(again) == Trimmed(l).1
    ensures Spelling(again) == Spelling(l)
  {
    hide Render;
    LiteralShape(l);
    assert LeadingDigits(again) == Trimmed(l).0;
    assert Trimmed(again) == Trimmed(l);
  }

  /**
   * The canonical spelling is accepted again exactly when the number is 0 or its
   * scientific exponent fits the 32 bits the reader allows; it is then unchanged.
   */
  lemma CanonicalIdempotent(s: string)
    requires Accepted(s)
    ensures var l := MatchNumber(s).value;
            Canonical(CanonicalText(s))
            == if IsZero(l) || FitsInt32(ScientificExponent(l)) then Ok(CanonicalText(s)) else Err(ExponentOutOfRange)
  {
    hide Render;
    var l := MatchNumber(s).value;
    if IsZero(l) {
      ZeroReads();
    } else {
      var again := SpellingReads(l);
      SpellingAgain(l, again);
    }
  }

  /** A literal the reader accepts whose canonical spelling it refuses. */
  lemma OutputRefused() returns (s: string)
    ensures s == "0.1e" + FormatInt(MIN_INT32)
    ensures Accepted(s) && Canonical(CanonicalText(s)) == Err(ExponentOutOfRange)
    ensures var l := MatchNumber(s).value; !IsZero(l) && !FitsInt32(ScientificExponent(l))
    ensures 0.0 <= Value(s) <= 1.0
  {
    var l := Literal(false, "0", "1", FormatInt(MIN_INT32));
    SampleLiteral(l);
    s := SampleText(l);
    CanonicalIdempotent(s);
  }

  lemma {:induction false} TinyScale(x: real, p: int)
    requires 0.0 <= x <= 1.0 && p <= 0
    ensures 0.0 <= Scale(x, p) <= 1.0
    decreases -p
  {
    if p < 0 { TinyScale(x / 10.0, p + 1); }
  }

  lemma SampleText(l: Literal) returns (s: string)
    requires l == Literal(false, "0", "1", l.exponent)
    requires AllDigits(l.whole) && AllDigits(l.fraction) && IsExponent(l.exponent)
    ensures s == "0.1e" + l.exponent && MatchNumber(s) == Some(l)
  {
    assert l.exponent != "";
    hide *;
    s := "0.1e" + l.exponent;
    SampleParts(l.exponent);
    ReadBody(false, l.whole, l.fraction, l.exponent);
    ReadSign(false, s);
  }

  lemma SampleParts(e: string)
    ensures "0" + ("." + "1" + ("e" + e)) == "0.1e" + e && "" + ("0.1e" + e) == "0.1e" + e
    ensures IsDigit(("0.1e" + e)[0])
  {
  }

  lemma SampleLiteral(l: Literal)
    requires l == Literal(false, "0", "1", FormatInt(MIN_INT32))
    ensures AllDigits(l.whole) && AllDigits(l.fraction) && IsExponent(l.exponent) && WellFormed(l)
    ensures FitsInt32(ExponentValue(l.exponent)) && !IsZero(l) && !FitsInt32(ScientificExponent(l))
    ensures 0.0 <= LiteralValue(l) <= 1.0
  {
    ReadExponent(MIN_INT32);
    AllDigitsConcat(l.whole, l.fraction);
    assert l.Digits() == "01" && "01"[1..] == "1";
    assert TrimLeftZeros("1") == "1";
    assert "01"[..1] == "0" && NatOf("01") == 1;
    TinyScale(1.0, LastPower(l));
  }
}
