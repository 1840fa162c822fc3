/** Decimal integers: `to_string` on the integer types, and `u32::from_str`. */
module Numerals {
  import opened Wrappers
  import opened MachineIntegers
  import opened Strings

  function DigitOf(n: nat): (c: char)
    requires n < 10
    ensures IsDigit(c) && ValueOf(c) == n
  {
    '0' + n as char
  }

  function ValueOf(c: char): nat
    requires IsDigit(c)
  {
    (c - '0') as nat
  }

  function NatOf(s: string): nat
    requires AllDigits(s)
  {
    if s == "" then 0 else NatOf(s[..|s| - 1]) * 10 + ValueOf(s[|s| - 1])
  }

  function Power10(n: nat): (p: nat)
    ensures p >= 1
  {
    if n == 0 then 1 else 10 * Power10(n - 1)
  }

  lemma TimesTen(x: nat, p: nat, y: nat)
    ensures (x * p + y) * 10 == x * (10 * p) + y * 10
  {
  }

  lemma DropLast(a: string, b: string)
    requires AllDigits(a) && AllDigits(b) && b != ""
    ensures AllDigits(a + b) && AllDigits(b[..|b| - 1]) && AllDigits(a + b[..|b| - 1])
    ensures NatOf(a + b) == NatOf(a + b[..|b| - 1]) * 10 + ValueOf(b[|b| - 1])
  {
    assert (a + b)[..|a + b| - 1] == a + b[..|b| - 1];
  }

  /** Digits are positional: appending shifts what stands before by as many places. */
  lemma {:induction false} NatOfConcat(a: string, b: string)
    requires AllDigits(a) && AllDigits(b)
    ensures AllDigits(a + b)
    ensures NatOf(a + b) == NatOf(a) * Power10(|b|) + NatOf(b)
  {
    if b == "" {
      assert a + b == a;
    } else {
      var last := |b| - 1;
      DropLast(a, b);
      NatOfConcat(a, b[..last]);
      TimesTen(NatOf(a), Power10(last), NatOf(b[..last]));
      hide AllDigits;
    }
  }

  lemma {:induction false} NatOfBound(s: string)
    requires AllDigits(s)
    ensures NatOf(s) < Power10(|s|)
    ensures s != "" && s[0] != '0' ==> NatOf(s) >= Power10(|s| - 1)
  {
    if s != "" {
      NatOfBound(s[..|s| - 1]);
      if |s| == 1 {
        assert s[..0] == "";
      }
    }
  }

  /** Numerals of one length with one value are the same numeral. */
  lemma {:induction false} NatOfInjective(a: string, b: string)
    requires AllDigits(a) && AllDigits(b) && |a| == |b| && NatOf(a) == NatOf(b)
    ensures a == b
  {
    if a != "" {
      var last := |a| - 1;
      assert ValueOf(a[last]) < 10 && ValueOf(b[last]) < 10;
      NatOfInjective(a[..last], b[..last]);
      assert a == a[..last] + [a[last]] && b == b[..last] + [b[last]];
    }
  }

  function PrintNat(n: nat): (s: string)
    ensures AllDigits(s) && s != ""
    ensures NatOf(s) == n
    ensures |s| > 1 ==> s[0] != '0'
  {
    if n < 10 then
      assert NatOf("") == 0 && [DigitOf(n)][..0] == "";
      [DigitOf(n)]
    else
      var s := PrintNat(n / 10) + [DigitOf(n % 10)];
      assert s[..|s| - 1] == PrintNat(n / 10);
      LeadingDigit(PrintNat(n / 10));
      s
  }

  /** A single zero digit is worth nothing, so it never leads a longer numeral. */
  lemma LeadingDigit(s: string)
    requires AllDigits(s) && NatOf(s) > 0
    ensures s != "" && (s[0] == '0' ==> |s| > 1)
  {
    if |s| == 1 {
      assert s[..0] == "";
    }
  }

  function PrintInt(n: int): string {
    if n < 0 then "-" + PrintNat(-n) else PrintNat(n)
  }

  lemma PrintIntInjective(a: int, b: int)
    requires PrintInt(a) == PrintInt(b)
    ensures a == b
  {
    var sa, sb := PrintInt(a), PrintInt(b);
    assert a < 0 <==> sa[0] == '-';
    assert b < 0 <==> sb[0] == '-';
    if a < 0 {
      assert sa[1..] == PrintNat(-a) && sb[1..] == PrintNat(-b);
      assert NatOf(sa[1..]) == -a && NatOf(sb[1..]) == -b;
    } else {
      assert NatOf(sa) == a && NatOf(sb) == b;
    }
  }

  /** `str::parse::<u32>`: an optional plus sign, then digits whose value fits in 32 bits. */
  function ParseU32(s: string): (r: Option<nat>)
    ensures r.Some? ==> r.value < U32_LIMIT
  {
    var digits := if s != "" && s[0] == '+' then s[1..] else s;
    if digits != "" && AllDigits(digits) && NatOf(digits) < U32_LIMIT then Some(NatOf(digits)) else None
  }

  /** A text reads as an unsigned number exactly when it is that number in digits, with or without a plus sign. */
  lemma ParseU32Meaning(s: string, n: nat)
    ensures ParseU32(s) == Some(n) <==>
      exists digits :: (s == digits || s == "+" + digits) && digits != "" && AllDigits(digits) && NatOf(digits) == n
        && n < 0x1_0000_0000
  {
    if s != "" && s[0] == '+' {
      assert s == "+" + s[1..];
      assert !IsDigit(s[0]);
    }
    forall digits | s == "+" + digits ensures s[1..] == digits {
    }
  }

  lemma ParsePrintedU32(n: nat)
    requires n < U32_LIMIT
    ensures ParseU32(Trim(PrintNat(n))) == Some(n)
  {
    var s := PrintNat(n);
    forall i | 0 <= i < |s| ensures !IsWhitespace(s[i]) {
      assert IsDigit(s[i]);
    }
    TrimIdentity(s);
    assert IsDigit(s[0]);
  }
}
