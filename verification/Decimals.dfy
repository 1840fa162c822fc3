/**
 Finite floating-point numbers, held as the decimal text that names them: the shortest digits
 `Display` prints for an `f64`. Parsing follows the grammar of `f64::from_str`, exponents
 included, and refuses what would round to infinity; rounding itself is not modelled, so every
 decimal below that bound is a number of its own.
 */
module Decimals {
  import opened MachineIntegers
  import opened Wrappers
  import opened Strings
  import opened Numerals

  datatype Decimal = Decimal(negative: bool, whole: string, fraction: string) {
    predicate Valid() {
      && AllDigits(whole) && whole != "" && (|whole| > 1 ==> whole[0] != '0')
      && AllDigits(fraction) && (fraction != "" ==> fraction[|fraction| - 1] != '0')
      && NatOf(whole) < OVERFLOW
    }

    predicate IsZero() {
      whole == "0" && fraction == ""
    }
  }

  /** A finite number: neither infinite nor out of the range of a double. */
  type Number = d: Decimal | d.Valid() witness ZERO

  const ZERO := Decimal(false, "0", "")

  /** The least number that rounds to infinity: 2^1024 - 2^970. */
  const OVERFLOW: nat := 0xFFFF_FFFF_FFFF_FC00 * POWER_320 * POWER_320 * POWER_320

  /** 2^320. */
  const POWER_320: nat := U64_LIMIT * U64_LIMIT * U64_LIMIT * U64_LIMIT * U64_LIMIT

  /** IEEE equality: the two zeros are equal, every other number equals only itself. */
  predicate SameNumber(a: Number, b: Number) {
    a == b || (a.IsZero() && b.IsZero())
  }

  predicate SameNumbers(a: seq<Number>, b: seq<Number>) {
    |a| == |b| && forall i :: 0 <= i < |a| ==> SameNumber(a[i], b[i])
  }

  function Print(d: Number): string {
    (if d.negative then "-" else "") + Unsigned(d)
  }

  function Unsigned(d: Number): string {
    d.whole + if d.fraction == "" then "" else "." + d.fraction
  }

  // ----- Parsing -----

  function LeadingDigits(s: string): (digits: string)
    ensures AllDigits(digits) && digits <= s
    ensures |digits| < |s| ==> !IsDigit(s[|digits|])
  {
    if s != "" && IsDigit(s[0]) then [s[0]] + LeadingDigits(s[1..]) else ""
  }

  function StripLeadingZeros(s: string): (r: string)
    requires AllDigits(s)
    ensures AllDigits(r) && (r != "" ==> r[0] != '0')
  {
    if s != "" && s[0] == '0' then StripLeadingZeros(s[1..]) else s
  }

  function StripTrailingZeros(s: string): (r: string)
    requires AllDigits(s)
    ensures AllDigits(r) && (r != "" ==> r[|r| - 1] != '0')
  {
    if s != "" && s[|s| - 1] == '0' then StripTrailingZeros(s[..|s| - 1]) else s
  }

  function Zeros(n: nat): (s: string)
    ensures AllDigits(s) && |s| == n
  {
    seq(n, _ => '0')
  }

  /** Moves the point between `whole` and `fraction` right by `exponent` places. */
  function Shift(whole: string, fraction: string, exponent: int): (r: (string, string))
    requires AllDigits(whole) && AllDigits(fraction)
    ensures AllDigits(r.0) && AllDigits(r.1)
  {
    var digits := whole + fraction;
    var point := |whole| + exponent;
    if point <= 0 then ("", Zeros(-point) + digits)
    else if point >= |digits| then (digits + Zeros(point - |digits|), "")
    else (digits[..point], digits[point..])
  }

  /** `FiniteF64::try_new` on the parsed digits. */
  function TryNew(negative: bool, whole: string, fraction: string): (r: Option<Number>)
    requires AllDigits(whole) && AllDigits(fraction)
  {
    var significant := StripLeadingZeros(whole);
    var d := Decimal(negative, if significant == "" then "0" else significant, StripTrailingZeros(fraction));
    if NatOf(d.whole) < OVERFLOW then Some(d) else None
  }

  /** The exponent after `e`: an optional sign and at least one digit, to the end. */
  function ParseExponent(s: string): Option<int> {
    var signed := s != "" && s[0] in {'+', '-'};
    var digits := if signed then s[1..] else s;
    if digits == "" || !AllDigits(digits) then None
    else Some(if signed && s[0] == '-' then 0 - NatOf(digits) else NatOf(digits))
  }

  /** The digits ahead of the point, whether there is a point, the digits behind it, and what follows. */
  datatype Pieces = Pieces(whole: string, point: bool, fraction: string, tail: string)

  function CutNumber(s: string): (p: Pieces)
    ensures AllDigits(p.whole) && AllDigits(p.fraction)
  {
    var whole := LeadingDigits(s);
    var rest := s[|whole|..];
    if rest != "" && rest[0] == '.' then
      var fraction := LeadingDigits(rest[1..]);
      Pieces(whole, true, fraction, rest[1 + |fraction|..])
    else Pieces(whole, false, "", rest)
  }

  function ParsePieces(negative: bool, p: Pieces): Option<Number>
    requires AllDigits(p.whole) && AllDigits(p.fraction)
  {
    if p.whole + p.fraction == "" then None
    else if p.tail == "" then TryNew(negative, p.whole, p.fraction)
    else if p.tail[0] !in {'e', 'E'} then None
    else
      match ParseExponent(p.tail[1..])
      case None => None
      case Some(exponent) =>
        var (whole, fraction) := Shift(p.whole, p.fraction, exponent);
        TryNew(negative, whole, fraction)
  }

  function ParseUnsigned(negative: bool, s: string): Option<Number> {
    ParsePieces(negative, CutNumber(s))
  }

  /** Reads a finite number. The names of infinities and NaN are not finite, so they read as nothing. */
  function ParseFinite(raw: string): Option<Number> {
    ParseSigned(Trim(raw))
  }

  function ParseSigned(s: string): Option<Number> {
    if s != "" && s[0] in {'+', '-'} then ParseUnsigned(s[0] == '-', s[1..]) else ParseUnsigned(false, s)
  }

  // ----- The printer and the parser undo each other -----

  predicate NumberChar(c: char) {
    IsDigit(c) || c == '.' || c == '-'
  }

  lemma PrintChars(d: Number)
    ensures forall i :: 0 <= i < |Print(d)| ==> NumberChar(Print(d)[i])
    ensures Print(d) != ""
  {
  }

  lemma NumberCharIsNotWhitespace(c: char)
    requires NumberChar(c)
    ensures !IsWhitespace(c)
  {
  }

  lemma PrintTrimmed(d: Number)
    ensures Trim(Print(d)) == Print(d)
  {
    var s := Print(d);
    PrintChars(d);
    forall i | 0 <= i < |s| ensures !IsWhitespace(s[i]) {
      NumberCharIsNotWhitespace(s[i]);
    }
    TrimIdentity(s);
  }

  lemma {:induction false} LeadingDigitsOf(digits: string, rest: string)
    requires AllDigits(digits) && (rest == "" || !IsDigit(rest[0]))
    ensures LeadingDigits(digits + rest) == digits
  {
    if digits != "" {
      assert (digits + rest)[1..] == digits[1..] + rest;
      LeadingDigitsOf(digits[1..], rest);
      assert [digits[0]] + digits[1..] == digits;
    }
  }

  lemma ParseCanonical(negative: bool, whole: string, fraction: string)
    requires Decimal(negative, whole, fraction).Valid()
    ensures ParseUnsigned(negative, whole + if fraction == "" then "" else "." + fraction)
         == Some(Decimal(negative, whole, fraction))
  {
    var rest := if fraction == "" then "" else "." + fraction;
    var s := whole + rest;
    LeadingDigitsOf(whole, rest);
    assert s[|whole|..] == rest;
    if fraction != "" {
      assert rest[1..] == fraction == fraction + "";
      LeadingDigitsOf(fraction, "");
      assert rest[1 + |fraction|..] == "";
    }
    assert whole + fraction != "";
    if whole[0] == '0' {
      assert whole == "0" && whole[1..] == "";
      assert StripLeadingZeros(whole) == "";
    }
  }

  lemma SignOf(negative: bool, unsigned: string)
    requires unsigned != "" && IsDigit(unsigned[0])
    ensures ParseSigned((if negative then "-" else "") + unsigned) == ParseUnsigned(negative, unsigned)
  {
    var s := (if negative then "-" else "") + unsigned;
    if negative {
      assert s[1..] == unsigned;
    } else {
      assert s == unsigned;
    }
  }

  /** Every number is read back from the text it prints, sign of zero included. */
  lemma ParsePrinted(d: Number)
    ensures ParseFinite(Print(d)) == Some(d)
  {
    PrintTrimmed(d);
    SignOf(d.negative, Unsigned(d));
    ParseCanonical(d.negative, d.whole, d.fraction);
  }

  /** An integer of any width prints as the number it is. */
  lemma PrintedIntIsNumber(n: int) returns (d: Number)
    requires 0 - OVERFLOW < n < OVERFLOW
    ensures d == Decimal(n < 0, PrintNat(if n < 0 then 0 - n else n), "")
    ensures Print(d) == PrintInt(n)
  {
    d := Decimal(n < 0, PrintNat(if n < 0 then 0 - n else n), "");
  }
}
