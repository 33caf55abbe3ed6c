/**
 Decimal text of numbers: `operator<<` for integers and doubles, `atoi` and `atof`.

 A double is modelled as a whole number of millionths, which is what the formats
 handled here carry: at most six decimals.
 */
module Decimal {
  import opened Wrappers
  import opened Text

  predicate IsDigit(c: char) { '0' <= c <= '9' }

  predicate AllDigits(s: string) { forall i | 0 <= i < |s| :: IsDigit(s[i]) }

  function DigitValue(c: char): (d: nat)
    requires IsDigit(c)
    ensures d < 10
  { c as int - '0' as int }

  function DigitChar(d: nat): (c: char)
    requires d < 10
    ensures IsDigit(c) && DigitValue(c) == d
  { ('0' as int + d) as char }

  function Abs(n: int): nat { if n < 0 then -n else n }

  // ---------------------------------------------------------------- integers

  function NatText(n: nat): (s: string)
    ensures s != "" && AllDigits(s)
  {
    if n < 10 then [DigitChar(n)] else NatText(n / 10) + [DigitChar(n % 10)]
  }

  function IntText(n: int): (s: string)
    ensures s != "" && (s[0] == '-' || IsDigit(s[0])) && AllDigits(s[1..]) && IsDigit(s[|s| - 1])
  {
    if n < 0 then "-" + NatText(-n) else NatText(n)
  }

  function DigitRun(s: string): (n: nat)
    ensures n <= |s| && AllDigits(s[..n])
    ensures n < |s| ==> !IsDigit(s[n])
  {
    if s != "" && IsDigit(s[0]) then 1 + DigitRun(s[1..]) else 0
  }

  function DigitsValue(s: string): nat
    requires AllDigits(s)
  {
    if s == "" then 0 else 10 * DigitsValue(s[..|s| - 1]) + DigitValue(s[|s| - 1])
  }

  /** The sign and digits after leading blanks, as `strtol` and `strtod` see them. */
  function Unsigned(s: string): (r: (bool, string)) {
    var t := TrimLeft(s);
    if t != "" && t[0] == '-' then (true, t[1..])
    else if t != "" && t[0] == '+' then (false, t[1..])
    else (false, t)
  }

  function Signed(negative: bool, n: int): int { if negative then -n else n }

  /** `atoi`: leading blanks, a sign, then as many digits as there are; 0 when there are none. */
  function Atoi(s: string): int {
    var (negative, t) := Unsigned(s);
    Signed(negative, DigitsValue(t[..DigitRun(t)]))
  }

  lemma {:induction false} DigitRunOf(s: string, rest: string)
    requires AllDigits(s) && (rest == "" || !IsDigit(rest[0]))
    ensures DigitRun(s + rest) == |s| && (s + rest)[..|s|] == s
  {
    if s == "" {
      assert s + rest == rest;
    } else {
      assert (s + rest)[1..] == s[1..] + rest && (s + rest)[0] == s[0];
      DigitRunOf(s[1..], rest);
    }
  }

  lemma {:induction false} NatTextValue(n: nat)
    ensures DigitsValue(NatText(n)) == n
  {
    var s := NatText(n);
    if n >= 10 {
      NatTextValue(n / 10);
      assert s[..|s| - 1] == NatText(n / 10);
    } else {
      assert s[..|s| - 1] == "";
    }
  }

  lemma UnsignedOf(negative: bool, s: string)
    requires s != "" && IsDigit(s[0])
    ensures Unsigned((if negative then "-" else "") + s) == (negative, s)
  {
    var t := (if negative then "-" else "") + s;
    assert t[0] == if negative then '-' else s[0];
    assert negative ==> t[1..] == s;
    assert !negative ==> t == s;
  }

  /** Printing an integer and reading it back is the identity. */
  lemma IntTextValue(n: int)
    ensures Atoi(IntText(n)) == n
  {
    var d := NatText(Abs(n));
    UnsignedOf(n < 0, d);
    assert IntText(n) == (if n < 0 then "-" else "") + d;
    DigitRunOf(d, "");
    assert d + "" == d;
    NatTextValue(Abs(n));
  }

  // ---------------------------------------------------------------- decimals

  const ONE: int := 1_000_000

  /** Exactly `k` digits, with leading zeros. */
  function PaddedText(f: nat, k: nat): (s: string)
    ensures AllDigits(s) && |s| == k
  {
    if k == 0 then "" else PaddedText(f / 10, k - 1) + [DigitChar(f % 10)]
  }

  function Zeros(k: nat): (s: string)
    ensures AllDigits(s) && |s| == k
  { seq(k, _ => '0') }

  function StripZeros(s: string): (r: string)
    ensures |r| <= |s| && s == r + Zeros(|s| - |r|)
    ensures r != "" ==> r[|r| - 1] != '0'
  {
    if s != "" && s[|s| - 1] == '0' then StripZeros(s[..|s| - 1]) else s
  }

  /** The value of up to six fraction digits, in millionths; further digits are dropped. */
  function FractionValue(s: string): nat {
    var n := DigitRun(s);
    if n >= 6 then DigitsValue(s[..6]) else DigitsValue(s[..n] + Zeros(6 - n))
  }

  /** A number times a power of ten, what is left of the point. */
  function Scaled(n: nat, k: int): nat
    decreases Abs(k)
  {
    if k == 0 then n else if k > 0 then 10 * Scaled(n, k - 1) else Scaled(n, k + 1) / 10
  }

  /** The exponent part after a mantissa; without a digit there is none. */
  function ExponentOf(s: string): Option<int> {
    if |s| < 2 || (s[0] != 'e' && s[0] != 'E') then None else
      var digits := if s[1] == '-' || s[1] == '+' then s[2..] else s[1..];
      var n := DigitRun(digits);
      if n == 0 then None else Some(Signed(s[1] == '-', DigitsValue(digits[..n])))
  }

  /** The fraction digits after `n` digits before the point. */
  function FractionOf(t: string, n: nat): (f: string)
    requires n <= |t|
    ensures AllDigits(f) && |f| <= |t| - n
    ensures f != "" ==> t[n] == '.' && |f| < |t| - n
  {
    if n < |t| && t[n] == '.' then t[n + 1..][..DigitRun(t[n + 1..])] else ""
  }

  /** Where the mantissa ends. */
  function MantissaEnd(t: string, n: nat): (m: nat)
    requires n <= |t|
    ensures n <= m <= |t|
  {
    if n < |t| && t[n] == '.' then n + 1 + |FractionOf(t, n)| else n
  }

  /** `atof` on decimal and scientific notation. */
  function Atof(s: string): int {
    var (negative, t) := Unsigned(s);
    var n := DigitRun(t);
    var f := FractionOf(t, n);
    match ExponentOf(t[MantissaEnd(t, n)..])
    case None => Signed(negative, DigitsValue(t[..n]) * ONE + FractionValue(f))
    case Some(x) => Signed(negative, Scaled(DigitsValue(t[..n] + f), 6 - |f| + x))
  }

  lemma {:induction false} PaddedTextValue(f: nat, k: nat, bound: nat)
    requires k <= 6 && bound == [1, 10, 100, 1000, 10_000, 100_000, ONE][k] && f < bound
    ensures DigitsValue(PaddedText(f, k)) == f
  {
    if k != 0 {
      var s := PaddedText(f, k);
      assert s[..|s| - 1] == PaddedText(f / 10, k - 1);
      PaddedTextValue(f / 10, k - 1, bound / 10);
    }
  }

  lemma FractionOfDigits(r: string)
    requires AllDigits(r) && |r| <= 6
    ensures AllDigits(r + Zeros(6 - |r|)) && FractionValue(r) == DigitsValue(r + Zeros(6 - |r|))
  {
    hide DigitsValue, DigitRun;
    DigitRunOf(r, "");
    assert r + "" == r && r[..|r|] == r;
    if |r| == 6 { assert r[..6] == r == r + Zeros(0); }
  }

  /** Six digits mean the same with and without their trailing zeros. */
  lemma StrippedValue(s: string)
    requires AllDigits(s) && |s| == 6
    ensures AllDigits(StripZeros(s)) && FractionValue(StripZeros(s)) == DigitsValue(s)
  {
    hide DigitsValue, FractionValue, StripZeros, Zeros;
    var r := StripZeros(s);
    assert AllDigits(r) by { assert forall i | 0 <= i < |r| :: r[i] == s[i]; }
    FractionOfDigits(r);
  }

  lemma ThousandthsValue(s: string)
    requires AllDigits(s) && |s| == 3
    ensures FractionValue(s) == 1000 * DigitsValue(s)
  {
    hide DigitsValue, FractionValue, Zeros;
    FractionOfDigits(s);
    ZerosValue(s, 3);
    assert Scaled(DigitsValue(s), 3) == 10 * Scaled(DigitsValue(s), 2) == 100 * Scaled(DigitsValue(s), 1);
  }

  /** Round half to even to a multiple of `unit`. */
  function RoundTo(n: nat, unit: nat): nat
    requires unit > 0
  {
    var q, rest := n / unit, n % unit;
    (if 2 * rest > unit || (2 * rest == unit && q % 2 == 1) then q + 1 else q) * unit
  }

  lemma RoundToMultiple(n: nat, unit: nat)
    requires unit > 0
    ensures RoundTo(n, unit) % unit == 0
    ensures n % unit == 0 ==> RoundTo(n, unit) == n
  {
    var q, rest := n / unit, n % unit;
    ModOfMultiple(if 2 * rest > unit || (2 * rest == unit && q % 2 == 1) then q + 1 else q, unit);
  }

  lemma AtLeastOnce(d: int, unit: nat)
    ensures d >= 1 ==> d * unit >= unit
  {}

  lemma DivisionUnique(q: int, a: int, b: int, unit: int)
    requires q * unit == a * unit + b && 0 <= b < unit
    ensures b == 0
  {
    assert (q - a) * unit == b;
    AtLeastOnce(q - a, unit);
    AtLeastOnce(a - q, unit);
  }

  lemma ModOfMultiple(q: nat, unit: nat)
    requires unit > 0
    ensures (q * unit) % unit == 0
  {
    var x := q * unit;
    DivisionUnique(q, x / unit, x % unit, unit);
  }

  /** The unit of the last of six significant digits. */
  function SignificantUnit(n: nat): (u: nat)
    ensures u > 0
  {
    if n < ONE then 1 else 10 * SignificantUnit(n / 10)
  }

  /** What six significant digits keep of a value. */
  function Round6(v: int): int {
    Signed(v < 0, RoundTo(Abs(v), SignificantUnit(Abs(v))))
  }

  /** A decimal with up to six fraction digits, shortest form. */
  function PlainText(negative: bool, n: nat): string {
    (if negative then "-" else "") + NatText(n / ONE) +
    if n % ONE == 0 then "" else "." + StripZeros(PaddedText(n % ONE, 6))
  }

  /** An exponent has a sign and at least two digits. */
  function ExponentText(x: int): string {
    (if x < 0 then "-" else "+") + (if Abs(x) < 10 then "0" else "") + NatText(Abs(x))
  }

  function MantissaText(d: string, f: string): string { d + if f == "" then "" else "." + f }

  /** One digit before the point, shortest form; a number of millionths. */
  function ScientificText(negative: bool, n: nat): string {
    var d := NatText(n);
    (if negative then "-" else "") + MantissaText(d[..1], StripZeros(d[1..])) + "e" + ExponentText(|d| - 7)
  }

  /** Below a ten thousandth and from a million on. */
  predicate Scientific(n: nat) { 0 < n < 100 || n >= ONE * ONE }

  /** `operator<<` on a double with the default precision of six significant digits. */
  function GeneralText(v: int): string {
    var n := RoundTo(Abs(v), SignificantUnit(Abs(v)));
    if Scientific(n) then ScientificText(v < 0, n) else PlainText(v < 0, n)
  }

  /** `operator<<` on a double under `std::fixed << std::setprecision(3)`. */
  function Fixed3Text(v: int): string {
    var n := RoundTo(Abs(v), 1000) / 1000;
    (if v < 0 then "-" else "") + NatText(n / 1000) + "." + PaddedText(n % 1000, 3)
  }

  function Round3(v: int): int { Signed(v < 0, RoundTo(Abs(v), 1000)) }

  lemma AtofWhole(negative: bool, whole: nat)
    ensures Atof((if negative then "-" else "") + NatText(whole)) == Signed(negative, whole * ONE)
  {
    var d := NatText(whole);
    NatTextValue(whole);
    UnsignedOf(negative, d);
    DigitRunOf(d, "");
    assert d + "" == d && d[..|d|] == d;
    FractionAbsent();
  }

  lemma {:induction false} ScaledZero(k: nat)
    ensures Scaled(0, k) == 0
  {
    if k > 0 { ScaledZero(k - 1); }
  }

  lemma FractionAbsent()
    ensures FractionValue("") == 0
  {
    hide Scaled, DigitsValue;
    ZerosValue("", 6);
    NoDigits();
    ScaledZero(6);
    assert "" + Zeros(6) == Zeros(6) && ""[..0] == "";
  }

  lemma NoDigits()
    ensures DigitsValue("") == 0
  {}

  lemma PartsRead(d: string, fraction: string)
    requires AllDigits(d) && AllDigits(fraction)
    ensures var t := d + ("." + fraction);
      DigitRun(t) == |d| && t[..|d|] == d && FractionOf(t, |d|) == fraction && t[MantissaEnd(t, |d|)..] == ""
  {
    var t := d + ("." + fraction);
    DigitRunOf(d, "." + fraction);
    assert t[|d| + 1..] == fraction;
    DigitRunOf(fraction, "");
    assert fraction + "" == fraction && fraction[..|fraction|] == fraction;
  }

  lemma AtofParts(negative: bool, whole: nat, fraction: string)
    requires AllDigits(fraction)
    ensures Atof((if negative then "-" else "") + NatText(whole) + "." + fraction)
         == Signed(negative, whole * ONE + FractionValue(fraction))
  {
    hide DigitRun, FractionOf, MantissaEnd, DigitsValue, FractionValue, NatText, Unsigned, Scaled;
    var sign, d := if negative then "-" else "", NatText(whole);
    var t := d + ("." + fraction);
    NatTextValue(whole);
    assert sign + d + "." + fraction == sign + t;
    UnsignedOf(negative, t);
    PartsRead(d, fraction);
  }

  // ---------------------------------------------------------------- scientific notation

  lemma {:induction false} ZerosValue(s: string, k: nat)
    requires AllDigits(s)
    ensures AllDigits(s + Zeros(k)) && DigitsValue(s + Zeros(k)) == Scaled(DigitsValue(s), k)
  {
    var z := s + Zeros(k);
    if k == 0 {
      assert z == s;
    } else {
      assert z[..|z| - 1] == s + Zeros(k - 1);
      ZerosValue(s, k - 1);
    }
  }

  lemma {:induction false} LeadingZero(s: string)
    requires AllDigits(s)
    ensures AllDigits("0" + s) && DigitsValue("0" + s) == DigitsValue(s)
  {
    var z := "0" + s;
    if s == "" {
      assert z[..0] == "";
    } else {
      assert z[..|z| - 1] == "0" + s[..|s| - 1];
      LeadingZero(s[..|s| - 1]);
    }
  }

  lemma ExponentOfDigits(negative: bool, digits: string)
    requires digits != "" && AllDigits(digits)
    ensures ExponentOf("e" + ((if negative then "-" else "+") + digits)) == Some(Signed(negative, DigitsValue(digits)))
  {
    hide DigitsValue, DigitRun;
    var s := "e" + ((if negative then "-" else "+") + digits);
    assert s[1] == (if negative then '-' else '+') && s[2..] == digits;
    DigitRunOf(digits, "");
    assert digits + "" == digits && digits[..|digits|] == digits;
  }

  lemma ExponentReads(x: int)
    ensures ExponentOf("e" + ExponentText(x)) == Some(x)
  {
    hide DigitsValue, DigitRun, NatText, ExponentOf;
    var d := NatText(Abs(x));
    var digits := if Abs(x) < 10 then "0" + d else d;
    LeadingZero(d);
    NatTextValue(Abs(x));
    ExponentOfDigits(x < 0, digits);
    assert ExponentText(x) == (if x < 0 then "-" else "+") + digits;
  }

  lemma MantissaReads(d: string, f: string, rest: string)
    requires AllDigits(d) && AllDigits(f) && (rest == "" || (!IsDigit(rest[0]) && rest[0] != '.'))
    ensures var t := MantissaText(d, f) + rest;
      DigitRun(t) == |d| && t[..|d|] == d && FractionOf(t, |d|) == f && t[MantissaEnd(t, |d|)..] == rest
  {
    hide DigitRun;
    if f == "" {
      assert MantissaText(d, f) + rest == d + rest;
      DigitRunOf(d, rest);
    } else {
      assert MantissaText(d, f) + rest == d + ("." + (f + rest));
      FractionReads(d, f, rest);
    }
  }

  lemma FractionReads(d: string, f: string, rest: string)
    requires AllDigits(d) && AllDigits(f) && (rest == "" || !IsDigit(rest[0]))
    ensures var t := d + ("." + (f + rest));
      DigitRun(t) == |d| && t[..|d|] == d && FractionOf(t, |d|) == f && t[MantissaEnd(t, |d|)..] == rest
  {
    hide DigitRun;
    var t := d + ("." + (f + rest));
    DigitRunOf(d, "." + (f + rest));
    assert t[|d| + 1..] == f + rest;
    DigitRunOf(f, rest);
    assert (f + rest)[..|f|] == f;
  }

  lemma AtofScientific(negative: bool, d: string, f: string, x: int)
    requires d != "" && AllDigits(d) && AllDigits(f)
    ensures Atof((if negative then "-" else "") + MantissaText(d, f) + "e" + ExponentText(x))
         == Signed(negative, Scaled(DigitsValue(d + f), 6 - |f| + x))
  {
    hide DigitRun, FractionOf, MantissaEnd, ExponentOf, ExponentText, MantissaText, Unsigned, Scaled, DigitsValue;
    var sign, rest := if negative then "-" else "", "e" + ExponentText(x);
    var t := MantissaText(d, f) + rest;
    assert sign + MantissaText(d, f) + "e" + ExponentText(x) == sign + t;
    MantissaStarts(d, f, rest);
    UnsignedOf(negative, t);
    MantissaReads(d, f, rest);
    ExponentReads(x);
  }

  lemma MantissaStarts(d: string, f: string, rest: string)
    requires d != "" && AllDigits(d)
    ensures var t := MantissaText(d, f) + rest; t != "" && IsDigit(t[0])
  {}

  lemma ScientificTextValue(negative: bool, n: nat)
    ensures Atof(ScientificText(negative, n)) == Signed(negative, n)
  {
    hide Atof;
    var d := NatText(n);
    var head, f := d[..1], StripZeros(d[1..]);
    assert AllDigits(f) by { assert forall i | 0 <= i < |f| :: f[i] == d[i + 1]; }
    var k := |d| - 1 - |f|;
    assert d == head + f + Zeros(k);
    NatTextValue(n);
    ZerosValue(head + f, k);
    AtofScientific(negative, head, f, |d| - 7);
  }

  lemma PlainTextValue(negative: bool, n: nat)
    ensures Atof(PlainText(negative, n)) == Signed(negative, n)
  {
    hide Atof, StripZeros, PaddedText, FractionValue, DigitsValue, NatText;
    var s := (if negative then "-" else "") + NatText(n / ONE);
    if n % ONE == 0 {
      AtofWhole(negative, n / ONE);
      assert s + "" == s;
    } else {
      var f := StripZeros(PaddedText(n % ONE, 6));
      MillionthsValue(n % ONE);
      AtofParts(negative, n / ONE, f);
      assert s + ("." + f) == s + "." + f;
    }
  }

  lemma MillionthsValue(f: nat)
    requires f < ONE
    ensures AllDigits(StripZeros(PaddedText(f, 6))) && FractionValue(StripZeros(PaddedText(f, 6))) == f
  {
    hide StripZeros, PaddedText, FractionValue, DigitsValue;
    PaddedTextValue(f, 6, ONE);
    StrippedValue(PaddedText(f, 6));
  }

  /** A printed duration is read back as its six significant digits. */
  lemma GeneralTextValue(v: int)
    ensures Atof(GeneralText(v)) == Round6(v)
  {
    hide Atof, PlainText, ScientificText;
    PlainTextValue(v < 0, RoundTo(Abs(v), SignificantUnit(Abs(v))));
    ScientificTextValue(v < 0, RoundTo(Abs(v), SignificantUnit(Abs(v))));
  }

  /** ... so it survives exactly when it has no more than six of them. */
  lemma DurationSurvivesIff(v: int)
    ensures Atof(GeneralText(v)) == v <==> Abs(v) % SignificantUnit(Abs(v)) == 0
  {
    GeneralTextValue(v);
    RoundToMultiple(Abs(v), SignificantUnit(Abs(v)));
  }

  /** A printed frame rate is read back rounded to thousandths. */
  lemma Fixed3TextValue(v: int)
    ensures Atof(Fixed3Text(v)) == Round3(v)
  {
    var r := RoundTo(Abs(v), 1000);
    var n := r / 1000;
    RoundToMultiple(Abs(v), 1000);
    PaddedTextValue(n % 1000, 3, 1000);
    ThousandthsValue(PaddedText(n % 1000, 3));
    AtofParts(v < 0, n / 1000, PaddedText(n % 1000, 3));
  }

  /** Which characters a printed number can contain. */
  predicate NumberChar(c: char) { IsDigit(c) || c == '-' || c == '+' || c == '.' || c == 'e' }

  ghost predicate NumberLike(s: string) {
    s != "" && forall c | c in s :: NumberChar(c)
  }

  lemma IntTextChars(n: int)
    ensures NumberLike(IntText(n))
  {
    var i := IntText(n);
    assert i == [i[0]] + i[1..];
  }

  lemma PlainTextChars(negative: bool, n: nat)
    ensures NumberLike(PlainText(negative, n))
  {
    StrippedValue(PaddedText(n % ONE, 6));
    var a, b := NatText(n / ONE), StripZeros(PaddedText(n % ONE, 6));
    assert forall c | c in a :: IsDigit(c);
    assert forall c | c in b :: IsDigit(c);
  }

  lemma ScientificTextChars(negative: bool, n: nat)
    ensures NumberLike(ScientificText(negative, n))
  {
    var d := NatText(n);
    var f, x := StripZeros(d[1..]), NatText(Abs(|d| - 7));
    assert forall c | c in d[..1] :: IsDigit(c);
    assert forall c | c in x :: IsDigit(c);
    forall c | c in f ensures IsDigit(c) {
      var i :| 0 <= i < |f| && f[i] == c;
      assert d[i + 1] == c;
    }
    assert forall c | c in MantissaText(d[..1], f) :: NumberChar(c);
    assert forall c | c in ExponentText(|d| - 7) :: NumberChar(c);
  }

  lemma GeneralTextChars(v: int)
    ensures NumberLike(GeneralText(v))
  {
    hide PlainText, ScientificText;
    PlainTextChars(v < 0, RoundTo(Abs(v), SignificantUnit(Abs(v))));
    ScientificTextChars(v < 0, RoundTo(Abs(v), SignificantUnit(Abs(v))));
  }

  lemma Fixed3TextChars(v: int)
    ensures NumberLike(Fixed3Text(v))
  {
    var n := RoundTo(Abs(v), 1000) / 1000;
    var a, b := NatText(n / 1000), PaddedText(n % 1000, 3);
    assert forall c | c in a :: IsDigit(c);
    assert forall c | c in b :: IsDigit(c);
  }

  // ------------------------------------------------------------ the digits themselves

  /** A number below ten is one character, and every further digit is put behind. */
  lemma NatTextDigits(n: nat, d: nat)
    requires d < 10
    ensures NatText(d) == [('0' as int + d) as char]
    ensures n > 0 ==> NatText(10 * n + d) == NatText(n) + [('0' as int + d) as char]
  {}

  lemma IntTextDigits(n: nat)
    ensures IntText(n) == NatText(n) && (n > 0 ==> IntText(0 - n) == "-" + NatText(n))
  {}

  /** Reading counts the same way. */
  lemma DigitsValueSnoc(s: string, c: char)
    requires AllDigits(s) && '0' <= c <= '9'
    ensures AllDigits(s + [c]) && DigitsValue("") == 0
    ensures DigitsValue(s + [c]) == 10 * DigitsValue(s) + (c as int - '0' as int)
  {
    assert (s + [c])[..|s|] == s;
  }

  /** The `k`-th multiple of a unit is nearest to a number, and even when two are. */
  ghost predicate Nearest(n: nat, unit: nat, r: nat, k: nat) {
    && r == k * unit
    && 2 * (r - n) <= unit && 2 * (n - r) <= unit
    && (2 * (r - n) == unit || 2 * (n - r) == unit ==> k % 2 == 0)
  }

  /** Rounding gives the nearest multiple, of two the even one. */
  lemma RoundsToNearest(n: nat, unit: nat)
    requires unit > 0
    ensures exists k: nat :: Nearest(n, unit, RoundTo(n, unit), k)
  {
    hide Nearest;
    NextMultiple(n / unit, unit);
    RoundsFrom(n, unit, n / unit, n % unit, n / unit * unit, RoundTo(n, unit));
  }

  lemma RoundsFrom(n: nat, unit: nat, q: nat, rest: nat, m: nat, r: nat)
    requires m == q * unit && n == m + rest && rest < unit
    requires r == if 2 * rest > unit || (2 * rest == unit && q % 2 == 1) then m + unit else m
    ensures exists k: nat :: Nearest(n, unit, r, k)
  {
    hide Nearest;
    if 2 * rest > unit || (2 * rest == unit && q % 2 == 1) {
      NextMultiple(q, unit);
      NearestAbove(n, unit, q + 1, m + unit);
    } else {
      NearestBelow(n, unit, q, m);
    }
  }

  lemma NearestAbove(n: nat, unit: nat, k: nat, m: nat)
    requires m == k * unit && 0 <= 2 * (m - n) <= unit && (2 * (m - n) == unit ==> k % 2 == 0)
    ensures Nearest(n, unit, m, k)
  {}

  lemma NearestBelow(n: nat, unit: nat, k: nat, m: nat)
    requires m == k * unit && 0 <= 2 * (n - m) <= unit && (2 * (n - m) == unit ==> k % 2 == 0)
    ensures Nearest(n, unit, m, k)
  {}

  lemma NextMultiple(q: nat, unit: nat)
    ensures (q + 1) * unit == q * unit + unit
  {}

  /** Six digits are significant: below a second all millionths, from there on as many tens as it takes. */
  lemma {:induction false} SixSignificant(n: nat)
    ensures n < 1_000_000 ==> SignificantUnit(n) == 1
    ensures n >= 1_000_000 ==> 100_000 <= n / SignificantUnit(n) < 1_000_000
    ensures n >= 1_000_000 ==> SignificantUnit(n) == 10 * SignificantUnit(n / 10)
  {
    if n >= 1_000_000 {
      SixSignificant(n / 10);
      var u := SignificantUnit(n / 10);
      DivideTwice(n, u);
    }
  }

  lemma DivideTwice(n: nat, u: nat)
    requires u > 0
    ensures n / (10 * u) == (n / 10) / u
  {
    var q, r := (n / 10) / u, (n / 10) % u;
    assert n / 10 == q * u + r;
    assert n == 10 * (q * u + r) + n % 10;
    assert 10 * (q * u) == q * (10 * u);
    DivisionIs(n, 10 * u, q, 10 * r + n % 10);
  }

  lemma DivisionIs(n: nat, unit: nat, q: nat, r: nat)
    requires unit > 0 && n == q * unit + r && r < unit
    ensures n / unit == q
  {
    var a, b := n / unit, n % unit;
    assert (q - a) * unit == b - r;
    AtLeastOnce(q - a, unit);
    AtLeastOnce(a - q, unit);
    assert (a - q) * unit == r - b;
  }

  // ------------------------------------------------------------ printed text

  lemma StrippedText(s: string, k: nat)
    requires s == "" || s[|s| - 1] != '0'
    ensures StripZeros(s + Zeros(k)) == s
  {
    if k == 0 {
      assert s + Zeros(0) == s;
    } else {
      var z := s + Zeros(k);
      assert z[|z| - 1] == '0' && z[..|z| - 1] == s + Zeros(k - 1);
      StrippedText(s, k - 1);
    }
  }

  /** A duration of whole seconds below a million is printed as that number. */
  lemma WholeSecondsText(n: nat)
    requires n < 1_000_000
    ensures GeneralText(n * 1_000_000) == NatText(n)
  {
    hide *;
    WholeSecondsRound(n);
    PlainWhole(n);
    PlainIsGeneral(n * 1_000_000);
  }

  lemma PlainIsGeneral(v: nat)
    requires RoundTo(v, SignificantUnit(v)) == v && (v == 0 || 100 <= v < 1_000_000_000_000)
    ensures GeneralText(v) == PlainText(false, v)
  {
    hide SignificantUnit, RoundTo, PlainText, ScientificText;
  }

  lemma PlainWhole(n: nat)
    ensures PlainText(false, n * 1_000_000) == NatText(n)
  {
    hide *;
    WholeQuotient(n * 1_000_000, n);
    NoFraction(n * 1_000_000, NatText(n));
  }

  lemma WholeQuotient(v: nat, n: nat)
    requires v == n * 1_000_000
    ensures v / 1_000_000 == n && v % 1_000_000 == 0
  {}

  lemma NoFraction(v: nat, whole: string)
    requires v % 1_000_000 == 0 && NatText(v / 1_000_000) == whole
    ensures PlainText(false, v) == whole
  {
    hide NatText, StripZeros, PaddedText;
    assert "" + whole + "" == whole;
  }

  lemma WholeSecondsRound(n: nat)
    requires n < 1_000_000
    ensures RoundTo(n * 1_000_000, SignificantUnit(n * 1_000_000)) == n * 1_000_000
  {
    UnitDivides(n);
    RoundToMultiple(n * 1_000_000, SignificantUnit(n * 1_000_000));
  }

  lemma {:induction false} UnitScales(n: nat, k: nat)
    requires n < 1_000_000
    ensures Scaled(n, k) % SignificantUnit(Scaled(n, k)) == 0
  {
    if k > 0 {
      var m := Scaled(n, k - 1);
      UnitScales(n, k - 1);
      if 10 * m >= 1_000_000 {
        assert (10 * m) / 10 == m;
        TenTimes(m, SignificantUnit(m));
      }
    }
  }

  lemma TenTimes(m: nat, u: nat)
    requires u > 0 && m % u == 0
    ensures (10 * m) % (10 * u) == 0
  {
    var q := m / u;
    assert m == q * u && 10 * m == q * (10 * u);
    ModOfMultiple(q, 10 * u);
  }

  lemma UnitDivides(n: nat)
    requires n < 1_000_000
    ensures (n * 1_000_000) % SignificantUnit(n * 1_000_000) == 0
  {
    hide SignificantUnit;
    UnitScales(n, 6);
    assert Scaled(n, 6) == 10 * Scaled(n, 5) == 100 * Scaled(n, 4) == 1000 * Scaled(n, 3);
    assert Scaled(n, 3) == 10 * Scaled(n, 2) == 100 * Scaled(n, 1) == 1000 * n;
  }

  lemma FractionText(negative: bool, n: nat, whole: string, fraction: string, zeros: nat)
    requires n % ONE != 0 && NatText(n / ONE) == whole && PaddedText(n % ONE, 6) == fraction + Zeros(zeros)
    requires fraction != "" && fraction[|fraction| - 1] != '0'
    ensures PlainText(negative, n) == (if negative then "-" else "") + whole + "." + fraction
  {
    hide NatText, PaddedText, StripZeros, Zeros;
    StrippedText(fraction, zeros);
    var sign := if negative then "-" else "";
    assert sign + whole + ("." + fraction) == sign + whole + "." + fraction;
  }

  lemma MantissaTexts(negative: bool, n: nat, first: string, rest: string, zeros: nat, x: int)
    requires NatText(n) == first + (rest + Zeros(zeros)) && |first| == 1 && x == |NatText(n)| - 7
    requires rest == "" || rest[|rest| - 1] != '0'
    ensures ScientificText(negative, n) ==
            (if negative then "-" else "") + (first + if rest == "" then "" else "." + rest) + "e" + ExponentText(x)
  {
    hide NatText, StripZeros, Zeros, ExponentText;
    StrippedText(rest, zeros);
    var d := NatText(n);
    assert d[..1] == first && d[1..] == rest + Zeros(zeros);
  }

  lemma PaddedStep(f: nat, k: nat)
    ensures PaddedText(f, k + 1) == PaddedText(f / 10, k) + [DigitChar(f % 10)] && PaddedText(f, 0) == ""
  {}

  lemma ThreeDigits(f: nat)
    requires f < 1000
    ensures PaddedText(f, 3) == [DigitChar(f / 100), DigitChar((f / 10) % 10), DigitChar(f % 10)]
  {
    hide PaddedText, DigitChar;
    assert f / 10 / 10 == f / 100 && (f / 100) % 10 == f / 100;
    PaddedStep(f, 2);
    PaddedStep(f / 10, 1);
    PaddedStep(f / 100, 0);
    PaddedStep(f / 100 / 10, 0);
  }

  lemma Padded(f: nat)
    requires f < ONE
    ensures PaddedText(f, 6) == PaddedText(f / 1000, 3) +
              [DigitChar((f / 100) % 10), DigitChar((f / 10) % 10), DigitChar(f % 10)]
  {
    hide PaddedText, DigitChar;
    assert f / 10 / 10 == f / 100 && f / 100 / 10 == f / 1000;
    PaddedStep(f, 5);
    PaddedStep(f / 10, 4);
    PaddedStep(f / 100, 3);
  }

  lemma {:induction false} NatZeros(n: nat, k: nat)
    requires n > 0
    ensures Scaled(n, k) > 0 && NatText(Scaled(n, k)) == NatText(n) + Zeros(k)
  {
    hide NatText;
    if k == 0 {
      assert NatText(n) + Zeros(0) == NatText(n);
    } else {
      NatZeros(n, k - 1);
      NatTextDigits(Scaled(n, k - 1), 0);
      assert Zeros(k) == Zeros(k - 1) + ['0'];
    }
  }

  /** Durations as they are printed: with a fraction, from a million on, and below a ten thousandth. */
  lemma DurationTexts()
    ensures GeneralText(9_009_000) == "9.009"
    ensures GeneralText(100) == "0.0001"
    ensures GeneralText(1_234_567_800_000) == "1.23457e+06"
    ensures GeneralText(50) == "5e-05" && GeneralText(1) == "1e-06"
  {
    hide PlainText, ScientificText, SignificantUnit, RoundTo;
    ExampleUnits();
    NinePointText();
    TenThousandthText();
    MillionText();
    SmallText();
  }

  lemma ExampleUnits()
    ensures RoundTo(9_009_000, SignificantUnit(9_009_000)) == 9_009_000
    ensures RoundTo(100, SignificantUnit(100)) == 100 && RoundTo(50, SignificantUnit(50)) == 50
    ensures RoundTo(1, SignificantUnit(1)) == 1
    ensures RoundTo(1_234_567_800_000, SignificantUnit(1_234_567_800_000)) == 1_234_570_000_000
  {
    assert SignificantUnit(9_009_000) == 10 && SignificantUnit(1_234_567_800_000) == 10_000_000;
  }

  lemma NinePointText()
    ensures PlainText(false, 9_009_000) == "9.009"
  {
    hide PlainText, PaddedText;
    Padded(9_000);
    ThreeDigits(9);
    assert PaddedText(9_000, 6) == "009000" == "009" + Zeros(3);
    FractionText(false, 9_009_000, "9", "009", 3);
    assert "" + "9" + "." + "009" == "9.009";
  }

  lemma TenThousandthText()
    ensures PlainText(false, 100) == "0.0001"
  {
    hide PlainText, PaddedText;
    Padded(100);
    ThreeDigits(0);
    assert PaddedText(100, 6) == "000100" == "0001" + Zeros(2);
    FractionText(false, 100, "0", "0001", 2);
    assert "" + "0" + "." + "0001" == "0.0001";
  }

  lemma MillionText()
    ensures ScientificText(false, 1_234_570_000_000) == "1.23457e+06"
  {
    hide ScientificText, ExponentText, NatText, Scaled;
    ScaledByTenMillion();
    NatZeros(123_457, 7);
    SixDigitText();
    assert "123457" + Zeros(7) == "1" + ("23457" + Zeros(7));
    MantissaTexts(false, 1_234_570_000_000, "1", "23457", 7, 6);
    SixText();
    assert "" + ("1" + ("." + "23457")) + "e" + "+06" == "1.23457e+06";
  }

  lemma ScaledByTenMillion()
    ensures Scaled(123_457, 7) == 1_234_570_000_000
  {
    assert Scaled(123_457, 3) == 123_457_000;
    assert Scaled(123_457, 5) == 12_345_700_000;
  }

  lemma SixDigitText()
    ensures NatText(123_457) == "123457"
  {
    assert NatText(123) == "123";
  }

  lemma SixText()
    ensures ExponentText(6) == "+06" && ExponentText(-5) == "-05" && ExponentText(-6) == "-06"
  {
    assert "+" + "0" + "6" == "+06" && "-" + "0" + "5" == "-05" && "-" + "0" + "6" == "-06";
  }

  lemma SmallText()
    ensures ScientificText(false, 50) == "5e-05" && ScientificText(false, 1) == "1e-06"
  {
    hide ScientificText, ExponentText;
    assert NatText(50) == NatText(5) + ['0'] == "50" == "5" + ("" + Zeros(1));
    MantissaTexts(false, 50, "5", "", 1, -5);
    SixText();
    assert "" + ("5" + "") + "e" + "-05" == "5e-05";
    assert NatText(1) == "1" == "1" + ("" + Zeros(0));
    MantissaTexts(false, 1, "1", "", 0, -6);
    assert "" + ("1" + "") + "e" + "-06" == "1e-06";
  }

  /** Frame rates as they are printed. */
  lemma FrameRateTexts()
    ensures Fixed3Text(25_000_000) == "25.000" && Fixed3Text(29_970_030) == "29.970"
  {
    FrameRateText(25_000_000, 25, 0, "25", "000");
    FrameRateText(29_970_030, 29, 970, "29", "970");
    assert "25" + "." + "000" == "25.000" && "29" + "." + "970" == "29.970";
  }

  /** Whole part, point, and three digits of thousandths. */
  lemma FrameRateText(v: nat, whole: nat, thousandths: nat, w: string, f: string)
    requires thousandths < 1000 && RoundTo(v, 1000) == (1000 * whole + thousandths) * 1000
    requires NatText(whole) == w
    requires f == [DigitChar(thousandths / 100), DigitChar((thousandths / 10) % 10), DigitChar(thousandths % 10)]
    ensures Fixed3Text(v) == w + "." + f
  {
    hide NatText, PaddedText;
    ThreeDigits(thousandths);
    assert "" + w + "." + f == w + "." + f;
  }

  // ------------------------------------------------------------ exponents that are read

  /** A power of ten moves the point; what falls behind the millionths is dropped. */
  lemma ScaledIs(n: nat)
    ensures Scaled(n, 0) == n && Scaled(n, 1) == 10 * n && Scaled(n, 2) == 100 * n
    ensures Scaled(n, -1) == n / 10 && Scaled(n, -2) == n / 10 / 10
  {
    assert Scaled(n, 2) == 10 * Scaled(n, 1) && Scaled(n, 1) == 10 * Scaled(n, 0);
    assert Scaled(n, -2) == Scaled(n, -1) / 10;
  }

  /** `25e-7` is two millionths, `2.5e1` twenty-five. */
  lemma ExponentsRead()
    ensures Atof("25" + "e" + ExponentText(-7)) == 2
    ensures Atof("2" + "." + "5" + "e" + ExponentText(1)) == 25_000_000
  {
    hide Atof, ExponentText, DigitsValue, Scaled;
    ExampleDigits();
    AtofScientific(false, "25", "", -7);
    AtofScientific(false, "2", "5", 1);
    ScaledIs(25);
    ScaledByMillion();
    assert "" + ("25" + "") + "e" + ExponentText(-7) == "25" + "e" + ExponentText(-7);
    assert "" + ("2" + ("." + "5")) + "e" + ExponentText(1) == "2" + "." + "5" + "e" + ExponentText(1);
  }

  lemma ExampleDigits()
    ensures AllDigits("25") && AllDigits("2") && AllDigits("5") && AllDigits("") && DigitsValue("25") == 25
    ensures "25" + "" == "25" && "2" + "5" == "25"
  {
    assert "25"[..1] == "2" && "2"[..0] == "";
    assert DigitsValue("2") == 2;
  }

  lemma ScaledByMillion()
    ensures Scaled(25, 6) == 25_000_000
  {
    assert Scaled(25, 3) == 25_000;
  }
}
