/**
 What the text of a number denotes: a mantissa of digits times a power of ten. The parser must read
 every such text as the number it denotes, whatever zeros, exponent and whitespace it is written with,
 and nothing else.
 */
module NumberSpellings {
  import opened Decimals
  import opened Numerals
  import opened Strings
  import opened Wrappers

  // ----- Powers of ten -----

  function Power(e: int): real
    decreases if e < 0 then -e else e
  {
    if e == 0 then 1.0 else if e > 0 then 10.0 * Power(e - 1) else Power(e + 1) / 10.0
  }

  lemma PowerStep(e: int)
    ensures Power(e + 1) == 10.0 * Power(e)
  {
  }

  lemma {:induction false} PowerPositive(e: int)
    ensures Power(e) > 0.0
    decreases if e < 0 then -e else e
  {
    if e > 0 {
      PowerPositive(e - 1);
    } else if e < 0 {
      PowerPositive(e + 1);
    }
  }

  lemma {:induction false} PowerSum(e: int, n: nat)
    ensures Power(e + n) == Power10(n) as real * Power(e)
  {
    if n > 0 {
      PowerSum(e, n - 1);
      PowerStep(e + n - 1);
      TenTimes(Power10(n - 1), Power(e));
      hide Power;
    } else {
      hide Power;
    }
  }

  lemma TenTimes(t: nat, p: real)
    ensures 10.0 * (t as real * p) == (10 * t) as real * p
  {
  }

  // ----- What digits with a point denote -----

  /** The digits of `whole` and `fraction` with the point moved right by `exponent` places. */
  function Size(whole: string, fraction: string, exponent: int): real
    requires AllDigits(whole) && AllDigits(fraction)
  {
    NatOf(whole + fraction) as real * Power(exponent - |fraction|)
  }

  function Magnitude(d: Number): real {
    Size(d.whole, d.fraction, 0)
  }

  function RealValue(d: Number): real {
    if d.negative then 0.0 - Magnitude(d) else Magnitude(d)
  }

  lemma ZeroAhead(s: string)
    requires AllDigits(s)
    ensures NatOf("0" + s) == NatOf(s)
  {
    NatOfConcat("0", s);
    assert "0"[..0] == "" && NatOf("0") == 0;
  }

  lemma ZeroBehind(s: string)
    requires AllDigits(s)
    ensures NatOf(s + "0") == 10 * NatOf(s)
  {
    assert (s + "0")[..|s|] == s;
  }

  lemma {:induction false} LeadingZerosMeanNothing(whole: string, fraction: string)
    requires AllDigits(whole) && AllDigits(fraction)
    ensures NatOf(StripLeadingZeros(whole) + fraction) == NatOf(whole + fraction)
  {
    if whole != "" && whole[0] == '0' {
      LeadingZerosMeanNothing(whole[1..], fraction);
      ZeroAhead(whole[1..] + fraction);
      assert whole + fraction == "0" + (whole[1..] + fraction);
    }
  }

  lemma DropZero(whole: string, kept: string)
    requires AllDigits(whole) && AllDigits(kept)
    ensures Size(whole, kept + "0", 0) == Size(whole, kept, 0)
  {
    hide Power, NatOf;
    ZeroBehind(whole + kept);
    assert whole + (kept + "0") == whole + kept + "0";
    PowerStep(0 - |kept + "0"|);
    MoveTen(NatOf(whole + kept), Power(0 - |kept + "0"|));
    hide AllDigits;
  }

  lemma MoveTen(m: nat, p: real)
    ensures m as real * (10.0 * p) == (10 * m) as real * p
  {
  }

  lemma {:induction false} TrailingZerosMeanNothing(whole: string, fraction: string)
    requires AllDigits(whole) && AllDigits(fraction)
    ensures Size(whole, StripTrailingZeros(fraction), 0) == Size(whole, fraction, 0)
  {
    hide Size, NatOf, Power;
    if fraction != "" && fraction[|fraction| - 1] == '0' {
      var kept := fraction[..|fraction| - 1];
      TrailingZerosMeanNothing(whole, kept);
      DropZero(whole, kept);
      assert fraction == kept + "0";
    }
  }

  lemma DigitsConcat(a: string, b: string)
    requires AllDigits(a) && AllDigits(b)
    ensures AllDigits(a + b)
  {
  }

  lemma {:induction false} ZerosBehind(s: string, n: nat)
    requires AllDigits(s)
    ensures NatOf(s + Zeros(n)) == NatOf(s) * Power10(n)
  {
    if n == 0 {
      assert s + Zeros(0) == s;
    } else {
      hide NatOf, AllDigits;
      ZerosBehind(s, n - 1);
      DigitsConcat(s, Zeros(n - 1));
      ZeroBehind(s + Zeros(n - 1));
      assert s + Zeros(n) == s + Zeros(n - 1) + "0";
      TimesTen(NatOf(s), Power10(n - 1), 0);
    }
  }

  lemma {:induction false} ZerosAhead(n: nat, s: string)
    requires AllDigits(s)
    ensures NatOf(Zeros(n) + s) == NatOf(s)
  {
    if n == 0 {
      assert Zeros(0) + s == s;
    } else {
      ZerosAhead(n - 1, s);
      ZeroAhead(Zeros(n - 1) + s);
      assert Zeros(n) + s == "0" + (Zeros(n - 1) + s);
    }
  }

  /** Moving the point is multiplying by the power of ten. */
  lemma ShiftSize(whole: string, fraction: string, exponent: int)
    requires AllDigits(whole) && AllDigits(fraction)
    ensures var shifted := Shift(whole, fraction, exponent);
      Size(shifted.0, shifted.1, 0) == Size(whole, fraction, exponent)
  {
    hide NatOf, Power, Zeros;
    var digits := whole + fraction;
    var point := |whole| + exponent;
    var (w, f) := Shift(whole, fraction, exponent);
    if point <= 0 {
      ZerosAhead(-point, digits);
      assert w + f == Zeros(-point) + digits;
      assert NatOf(w + f) == NatOf(digits);
      assert 0 - |f| == exponent - |fraction|;
    } else if point >= |digits| {
      var places := point - |digits|;
      ZerosBehind(digits, places);
      assert w + f == digits + Zeros(places);
      assert NatOf(w + f) == NatOf(digits) * Power10(places);
      assert exponent - |fraction| == places && |f| == 0;
      TensToPower(NatOf(digits), places);
    } else {
      assert w + f == digits;
      assert 0 - |f| == exponent - |fraction|;
    }
  }

  lemma TensToPower(m: nat, n: nat)
    ensures (m * Power10(n)) as real * Power(0) == m as real * Power(n)
  {
    PowerSum(0, n);
    assert Power(0) == 1.0;
    assert (m * Power10(n)) as real == m as real * Power10(n) as real;
  }

  /** The whole digits are the number cut to an integer. */
  lemma WholePart(whole: string, fraction: string)
    requires AllDigits(whole) && AllDigits(fraction)
    ensures NatOf(whole) as real <= Size(whole, fraction, 0) < NatOf(whole) as real + 1.0
  {
    hide NatOf, Power, Power10, AllDigits;
    var p, n := Power(0 - |fraction|), Power10(|fraction|);
    NatOfConcat(whole, fraction);
    NatOfBound(fraction);
    PowerInverse(|fraction|);
    SplitAt(NatOf(whole), NatOf(fraction), n, p);
  }

  lemma PowerInverse(n: nat)
    ensures Power10(n) as real * Power(0 - n) == 1.0 && Power(0 - n) > 0.0
  {
    PowerSum(0 - n, n);
    PowerPositive(0 - n);
    assert Power(0) == 1.0;
  }

  lemma SplitAt(a: nat, b: nat, n: nat, p: real)
    requires b < n && n as real * p == 1.0 && p > 0.0
    ensures a as real <= (a * n + b) as real * p < a as real + 1.0
  {
    assert (a * n + b) as real == a as real * n as real + b as real;
    assert (a as real * n as real + b as real) * p == a as real * (n as real * p) + b as real * p;
    assert 0.0 <= b as real * p < n as real * p;
  }

  /** What is made of parsed digits has their size, unless that is too large for a finite number. */
  lemma TryNewSize(negative: bool, whole: string, fraction: string)
    requires AllDigits(whole) && AllDigits(fraction)
    ensures match TryNew(negative, whole, fraction)
      case None => Size(whole, fraction, 0) >= OVERFLOW as real
      case Some(d) =>
        d.negative == negative && Magnitude(d) == Size(whole, fraction, 0) && Magnitude(d) < OVERFLOW as real
  {
    hide Size, NatOf, StripLeadingZeros, StripTrailingZeros;
    var significant := Significant(whole, fraction);
    TrailingZerosMeanNothing(significant, fraction);
    WholePart(significant, StripTrailingZeros(fraction));
    WholeAgainst(NatOf(significant), OVERFLOW, Size(significant, fraction, 0));
    hide OVERFLOW;
  }

  lemma WholeAgainst(whole: nat, limit: nat, size: real)
    requires whole as real <= size < whole as real + 1.0
    ensures size < limit as real <==> whole < limit
  {
  }

  lemma Significant(whole: string, fraction: string) returns (significant: string)
    requires AllDigits(whole) && AllDigits(fraction)
    ensures significant == if StripLeadingZeros(whole) == "" then "0" else StripLeadingZeros(whole)
    ensures Size(significant, fraction, 0) == Size(whole, fraction, 0)
  {
    hide NatOf, Power;
    significant := StripLeadingZeros(whole);
    LeadingZerosMeanNothing(whole, fraction);
    if significant == "" {
      ZeroAhead(fraction);
      assert "" + fraction == fraction;
      significant := "0";
    }
  }

  // ----- Canonical numbers are determined by their size -----

  lemma SizesInIntegers(a: Number, b: Number)
    requires Magnitude(a) == Magnitude(b) && |a.fraction| <= |b.fraction|
    ensures NatOf(a.whole + a.fraction) * Power10(|b.fraction| - |a.fraction|) == NatOf(b.whole + b.fraction)
  {
    hide NatOf, Power;
    var k := |b.fraction| - |a.fraction|;
    var p := Power(0 - |b.fraction|);
    PowerSum(0 - |b.fraction|, k);
    PowerPositive(0 - |b.fraction|);
    CancelPower(NatOf(a.whole + a.fraction), Power10(k), NatOf(b.whole + b.fraction), p);
    hide AllDigits;
  }

  lemma CancelPower(m: nat, n: nat, k: nat, p: real)
    requires p > 0.0 && m as real * (n as real * p) == k as real * p
    ensures m * n == k
  {
    assert m as real * (n as real * p) == (m * n) as real * p;
    NoZeroProduct((m * n) as real - k as real, p);
  }

  lemma NoZeroProduct(x: real, p: real)
    ensures x != 0.0 && p > 0.0 ==> x * p != 0.0
  {
  }

  lemma SizeDeterminesOrdered(a: Number, b: Number)
    requires Magnitude(a) == Magnitude(b) && |a.fraction| <= |b.fraction|
    ensures a.whole == b.whole && a.fraction == b.fraction
  {
    hide NatOf, Power, Size;
    SizesInIntegers(a, b);
    SamePlaces(a, b);
    var x, y := a.whole + a.fraction, b.whole + b.fraction;
    SameLength(x, y, |a.fraction|);
    NatOfInjective(x, y);
    assert a.whole == x[..|a.whole|] && b.whole == y[..|b.whole|];
    assert a.fraction == x[|a.whole|..] && b.fraction == y[|b.whole|..];
  }

  /** A fraction that does not end in zero cannot be written with fewer places. */
  lemma SamePlaces(a: Number, b: Number)
    requires |a.fraction| <= |b.fraction|
    requires NatOf(a.whole + a.fraction) * Power10(|b.fraction| - |a.fraction|) == NatOf(b.whole + b.fraction)
    ensures |a.fraction| == |b.fraction|
  {
    hide NatOf;
    var k := |b.fraction| - |a.fraction|;
    if k > 0 {
      LastDigit(b.whole, b.fraction);
      NoLastDigit(NatOf(a.whole + a.fraction), Power10(k - 1), NatOf(b.whole + b.fraction));
      hide AllDigits;
    }
  }

  lemma NoLastDigit(x: nat, p: nat, y: nat)
    requires x * (10 * p) == y
    ensures y % 10 == 0
  {
    assert x * (10 * p) == 10 * (x * p);
  }

  lemma LastDigit(whole: string, fraction: string)
    requires AllDigits(whole) && AllDigits(fraction) && fraction != "" && fraction[|fraction| - 1] != '0'
    ensures NatOf(whole + fraction) % 10 != 0
  {
    hide NatOf;
    DropLast(whole, fraction);
    NonZeroDigit(fraction);
    hide AllDigits, ValueOf;
  }

  lemma NonZeroDigit(digits: string)
    requires AllDigits(digits) && digits != "" && digits[|digits| - 1] != '0'
    ensures 0 < ValueOf(digits[|digits| - 1]) < 10
  {
  }

  /** Without zeros ahead, a longer numeral is a larger one. */
  lemma SameLength(x: string, y: string, places: nat)
    requires AllDigits(x) && AllDigits(y) && |x| > places && |y| > places
    requires |x| > places + 1 ==> x[0] != '0'
    requires |y| > places + 1 ==> y[0] != '0'
    requires NatOf(x) == NatOf(y)
    ensures |x| == |y|
  {
    hide NatOf;
    NatOfBound(x);
    NatOfBound(y);
    if |x| < |y| {
      PowerGrows(|x|, |y| - 1);
    } else if |y| < |x| {
      PowerGrows(|y|, |x| - 1);
    }
  }

  lemma {:induction false} PowerGrows(m: nat, n: nat)
    requires m <= n
    ensures Power10(m) <= Power10(n)
  {
    if m < n {
      PowerGrows(m, n - 1);
    }
  }

  lemma SizeDetermines(a: Number, b: Number)
    ensures Magnitude(a) == Magnitude(b) <==> a.whole == b.whole && a.fraction == b.fraction
  {
    if Magnitude(a) == Magnitude(b) {
      if |a.fraction| <= |b.fraction| {
        SizeDeterminesOrdered(a, b);
      } else {
        SizeDeterminesOrdered(b, a);
      }
    }
  }

  /** Two numbers are equal in the sense of the comparison exactly when they have one value. */
  lemma SameNumberMeaning(a: Number, b: Number)
    ensures SameNumber(a, b) <==> RealValue(a) == RealValue(b)
  {
    SizeDetermines(a, b);
    SizeDetermines(a, ZERO);
    SizeDetermines(b, ZERO);
    SizeNotNegative(a);
    SizeNotNegative(b);
    ZeroSize();
    hide Magnitude;
  }

  lemma SameNumbersMeaning(a: seq<Number>, b: seq<Number>)
    ensures SameNumbers(a, b) <==> |a| == |b| && forall i :: 0 <= i < |a| ==> RealValue(a[i]) == RealValue(b[i])
  {
    hide SameNumber, RealValue;
    if |a| == |b| {
      forall i | 0 <= i < |a| ensures SameNumber(a[i], b[i]) <==> RealValue(a[i]) == RealValue(b[i]) {
        SameNumberMeaning(a[i], b[i]);
      }
    }
  }

  lemma SizeNotNegative(d: Number)
    ensures Magnitude(d) >= 0.0
  {
    PowerPositive(0 - |d.fraction|);
    hide Power, NatOf;
  }

  lemma ZeroSize()
    ensures Magnitude(ZERO) == 0.0
  {
    assert "0" + "" == "0" && "0"[..0] == "";
    assert NatOf("0") == 0;
  }

  // ----- Spellings -----

  datatype ExponentText = ExponentText(mark: char, sign: string, digits: string)

  /** The parts a text of a number is made of, each of them as it is written. */
  datatype NumberText = NumberText(
    before: string,
    sign: string,
    whole: string,
    point: bool,
    fraction: string,
    exponent: Option<ExponentText>,
    after: string
  )

  predicate ExponentWellFormed(e: ExponentText) {
    e.mark in {'e', 'E'} && e.sign in {"", "+", "-"} && e.digits != "" && AllDigits(e.digits)
  }

  predicate WellFormed(t: NumberText) {
    && Blank(t.before) && Blank(t.after) && t.sign in {"", "+", "-"}
    && AllDigits(t.whole) && AllDigits(t.fraction) && t.whole + t.fraction != ""
    && (!t.point ==> t.fraction == "")
    && (t.exponent.Some? ==> ExponentWellFormed(t.exponent.value))
  }

  function ExponentPart(exponent: Option<ExponentText>): string {
    if exponent.None? then "" else [exponent.value.mark] + exponent.value.sign + exponent.value.digits
  }

  function PointPart(t: NumberText): string {
    if t.point then "." + t.fraction else ""
  }

  function Core(t: NumberText): string {
    t.sign + (t.whole + PointPart(t) + ExponentPart(t.exponent))
  }

  function Spelled(t: NumberText): string {
    t.before + Core(t) + t.after
  }

  function ExponentValue(exponent: Option<ExponentText>): int
    requires exponent.Some? ==> ExponentWellFormed(exponent.value)
  {
    if exponent.None? then 0
    else if exponent.value.sign == "-" then 0 - NatOf(exponent.value.digits)
    else NatOf(exponent.value.digits)
  }

  function SpelledSize(t: NumberText): real
    requires WellFormed(t)
  {
    Size(t.whole, t.fraction, ExponentValue(t.exponent))
  }

  function SpelledValue(t: NumberText): real
    requires WellFormed(t)
  {
    if t.sign == "-" then 0.0 - SpelledSize(t) else SpelledSize(t)
  }

  /** Numbers are printed plainly: no exponent, no plus sign, no whitespace, and a point only ahead of a fraction. */
  lemma PrintedForm(d: Number)
    ensures var t := NumberText("", if d.negative then "-" else "", d.whole, d.fraction != "", d.fraction, None, "");
      WellFormed(t) && Spelled(t) == Print(d)
  {
    var sign := if d.negative then "-" else "";
    var point := if d.fraction != "" then "." + d.fraction else "";
    assert "" + (sign + (d.whole + point + "")) + "" == sign + (d.whole + point);
    hide NatOf;
  }

  lemma ExponentIsRead(e: ExponentText)
    requires ExponentWellFormed(e)
    ensures ParseExponent(e.sign + e.digits) == Some(ExponentValue(Some(e)))
  {
    var s := e.sign + e.digits;
    if e.sign == "" {
      assert s == e.digits;
    } else {
      assert s[1..] == e.digits;
    }
    hide NatOf;
  }

  lemma CutDigits(digits: string, rest: string)
    requires AllDigits(digits) && (rest != "" ==> !IsDigit(rest[0]))
    ensures LeadingDigits(digits + rest) == digits && (digits + rest)[|digits|..] == rest
  {
    LeadingDigitsOf(digits, rest);
    hide LeadingDigits, AllDigits;
  }

  lemma CutPieces(whole: string, point: bool, fraction: string, tail: string)
    requires AllDigits(whole) && AllDigits(fraction) && (!point ==> fraction == "")
    requires tail != "" ==> !IsDigit(tail[0]) && tail[0] != '.'
    ensures CutNumber(whole + (if point then "." + fraction else "") + tail) == Pieces(whole, point, fraction, tail)
  {
    hide LeadingDigits, AllDigits;
    var rest := (if point then "." + fraction else "") + tail;
    assert whole + (if point then "." + fraction else "") + tail == whole + rest;
    CutDigits(whole, rest);
    if point {
      assert rest[1..] == fraction + tail;
      CutDigits(fraction, tail);
      assert rest[1 + |fraction|..] == tail;
    } else {
      assert rest == tail;
    }
  }

  /** How the parser cuts the part after the sign. */
  lemma UnsignedIsRead(t: NumberText)
    requires WellFormed(t)
    ensures var negative := t.sign == "-";
      var (whole, fraction) := Shift(t.whole, t.fraction, ExponentValue(t.exponent));
      ParseUnsigned(negative, t.whole + PointPart(t) + ExponentPart(t.exponent))
      == (if t.exponent.None? then TryNew(negative, t.whole, t.fraction) else TryNew(negative, whole, fraction))
  {
    hide TryNew, Shift, ExponentValue, ParseExponent, NatOf, CutNumber;
    var tail := ExponentPart(t.exponent);
    CutPieces(t.whole, t.point, t.fraction, tail);
    if t.exponent.Some? {
      var e := t.exponent.value;
      ExponentIsRead(e);
      assert tail[1..] == e.sign + e.digits;
    }
    hide AllDigits;
  }

  lemma SignIsRead(sign: string, unsigned: string)
    requires sign in {"", "+", "-"} && unsigned != "" && unsigned[0] !in {'+', '-'}
    ensures ParseSigned(sign + unsigned) == ParseUnsigned(sign == "-", unsigned)
  {
    hide ParseUnsigned;
    var s := sign + unsigned;
    if sign == "" {
      assert s == unsigned;
    } else {
      assert s[1..] == unsigned;
    }
  }

  lemma UnsignedStart(t: NumberText)
    requires WellFormed(t)
    ensures var s := t.whole + PointPart(t) + ExponentPart(t.exponent);
      s != "" && (IsDigit(s[0]) || s[0] == '.') && (IsDigit(s[|s| - 1]) || s[|s| - 1] == '.')
  {
    var s := t.whole + PointPart(t) + ExponentPart(t.exponent);
    if t.exponent.Some? {
      assert s[|s| - 1] == t.exponent.value.digits[|t.exponent.value.digits| - 1];
    }
  }

  lemma DigitIsNotWhitespace(c: char)
    requires IsDigit(c) || c in {'.', '+', '-'}
    ensures !IsWhitespace(c)
  {
  }

  lemma CoreIsTight(t: NumberText)
    requires WellFormed(t)
    ensures Trim(Spelled(t)) == Core(t)
  {
    var unsigned := t.whole + PointPart(t) + ExponentPart(t.exponent);
    UnsignedStart(t);
    var s := t.sign + unsigned;
    assert s[|s| - 1] == unsigned[|unsigned| - 1];
    DigitIsNotWhitespace(s[0]);
    DigitIsNotWhitespace(s[|s| - 1]);
    TrimBetween(t.before, s, t.after);
    hide Trim;
  }

  /** Every spelling is read as the number it denotes, unless that is too large for a finite number. */
  lemma SpellingIsRead(t: NumberText)
    requires WellFormed(t)
    ensures match ParseFinite(Spelled(t))
      case None => SpelledSize(t) >= OVERFLOW as real
      case Some(d) =>
        SpelledSize(t) < OVERFLOW as real && d.negative == (t.sign == "-") && Magnitude(d) == SpelledSize(t)
  {
    hide ParseUnsigned, ParseSigned, TryNew, Shift, Size, Trim;
    CoreIsTight(t);
    UnsignedStart(t);
    SignIsRead(t.sign, t.whole + PointPart(t) + ExponentPart(t.exponent));
    UnsignedIsRead(t);
    var exponent := ExponentValue(t.exponent);
    var shifted := Shift(t.whole, t.fraction, exponent);
    ShiftSize(t.whole, t.fraction, exponent);
    TryNewSize(t.sign == "-", t.whole, t.fraction);
    TryNewSize(t.sign == "-", shifted.0, shifted.1);
  }

  function LeadingSign(s: string): (sign: string)
    ensures sign in {"", "+", "-"} && sign <= s && s == sign + s[|sign|..]
  {
    if s != "" && s[0] == '+' then "+" else if s != "" && s[0] == '-' then "-" else ""
  }

  /** Nothing but spellings is read. */
  lemma ReadIsSpelling(raw: string) returns (t: NumberText)
    requires ParseFinite(raw).Some?
    ensures WellFormed(t) && Spelled(t) == raw
  {
    hide ParseUnsigned, Trim;
    var before, after := TrimParts(raw);
    var core := Trim(raw);
    var sign := LeadingSign(core);
    var unsigned := UnsignedParts(sign == "-", core[|sign|..]);
    t := unsigned.(before := before, sign := sign, after := after);
    hide AllDigits, ExponentWellFormed;
  }

  lemma PiecesOf(s: string)
    ensures var p := CutNumber(s);
      (!p.point ==> p.fraction == "") && s == p.whole + (if p.point then "." + p.fraction else "") + p.tail
  {
    hide AllDigits, LeadingDigits;
    var whole := LeadingDigits(s);
    var rest := s[|whole|..];
    PrefixAndRest(whole, s);
    if rest != "" && rest[0] == '.' {
      var fraction := LeadingDigits(rest[1..]);
      var tail := rest[1 + |fraction|..];
      PrefixAndRest(fraction, rest[1..]);
      assert rest[1..][|fraction|..] == tail && rest == "." + rest[1..];
      assert whole + ("." + (fraction + tail)) == whole + ("." + fraction) + tail;
    } else {
      assert whole + "" + rest == whole + rest;
    }
  }

  lemma PrefixAndRest(prefix: string, s: string)
    requires prefix <= s
    ensures s == prefix + s[|prefix|..]
  {
  }

  lemma UnsignedParts(negative: bool, s: string) returns (t: NumberText)
    requires ParseUnsigned(negative, s).Some?
    ensures WellFormed(t) && s == t.whole + PointPart(t) + ExponentPart(t.exponent)
  {
    hide TryNew, Shift, NatOf, CutNumber, AllDigits, ParseExponent;
    var p := CutNumber(s);
    PiecesOf(s);
    var exponent := None;
    if p.tail != "" {
      var e := ExponentParts(p.tail);
      exponent := Some(e);
    }
    t := NumberText("", "", p.whole, p.point, p.fraction, exponent, "");
  }

  lemma ExponentParts(tail: string) returns (e: ExponentText)
    requires tail != "" && tail[0] in {'e', 'E'} && ParseExponent(tail[1..]).Some?
    ensures ExponentWellFormed(e) && tail == ExponentPart(Some(e))
  {
    hide NatOf;
    var s := tail[1..];
    var sign := LeadingSign(s);
    e := ExponentText(tail[0], sign, s[|sign|..]);
    assert tail == [tail[0]] + s == [tail[0]] + sign + s[|sign|..];
  }

  /** The parser and the notation agree on every text and every number, with the sign of zero. */
  lemma ParseMeaning(raw: string, d: Number)
    ensures ParseFinite(raw) == Some(d) <==>
      exists t :: WellFormed(t) && Spelled(t) == raw && d.negative == (t.sign == "-") && Magnitude(d) == SpelledSize(t)
  {
    hide ParseFinite, WellFormed, Spelled, SpelledSize, Magnitude;
    if ParseFinite(raw) == Some(d) {
      var t := ReadIsSpelling(raw);
      SpellingIsRead(t);
    }
    forall t | WellFormed(t) && Spelled(t) == raw && d.negative == (t.sign == "-") && Magnitude(d) == SpelledSize(t)
      ensures ParseFinite(raw) == Some(d)
    {
      SpellingIsRead(t);
      FiniteSize(d);
      SizeDetermines(d, ParseFinite(raw).value);
    }
  }

  lemma FiniteSize(d: Number)
    ensures Magnitude(d) < OVERFLOW as real
  {
    WholePart(d.whole, d.fraction);
    hide Size;
  }

  /** A text reads as no number exactly when it is no spelling or spells a number past the finite ones. */
  lemma ParseRefusal(raw: string)
    ensures ParseFinite(raw) == None <==>
      forall t :: WellFormed(t) && Spelled(t) == raw ==> SpelledSize(t) >= OVERFLOW as real
  {
    hide ParseFinite, WellFormed, Spelled, SpelledSize, Magnitude;
    if ParseFinite(raw).Some? {
      var t := ReadIsSpelling(raw);
      SpellingIsRead(t);
    }
    forall t | WellFormed(t) && Spelled(t) == raw && ParseFinite(raw) == None
      ensures SpelledSize(t) >= OVERFLOW as real
    {
      SpellingIsRead(t);
    }
  }
}
