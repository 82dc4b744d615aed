/**
 The two `strconv` conversions the scrape client uses: `Itoa`, which renders a
 container port, and `Atoi`, which reads the value token of a metrics line.
 `Atoi` is modelled for a 64-bit `int`: an optional sign, then decimal digits;
 anything else is a syntax error (value 0), and a value outside int64 is
 saturated. Go's `ParseUint` reports overflow as soon as the digits read so
 far exceed 2^64-1, before it looks at any later character, so a long enough
 digit run followed by junk saturates rather than failing.
 */
module GoStrconv {
  import opened GoInt

  predicate IsDigit(c: char) { '0' <= c <= '9' }

  predicate AllDigits(s: string) { forall i | 0 <= i < |s| :: IsDigit(s[i]) }

  function DigitValue(c: char): (d: nat)
    requires IsDigit(c)
    ensures d < 10
  {
    (c as int) - ('0' as int)
  }

  function DigitChar(d: nat): (c: char)
    requires d < 10
    ensures IsDigit(c) && DigitValue(c) == d
  {
    (('0' as int) + d) as char
  }

  function Pow10(k: nat): (p: nat)
    ensures p >= 1
  {
    if k == 0 then 1 else 10 * Pow10(k - 1)
  }

  /** The number a run of decimal digits denotes, most significant digit first. */
  function DigitsValue(s: string): nat
    requires AllDigits(s)
  {
    if |s| == 0 then 0 else DigitsValue(s[..|s| - 1]) * 10 + DigitValue(s[|s| - 1])
  }

  /** Length of the longest prefix of s made of decimal digits. */
  function DigitRun(s: string): (k: nat)
    ensures k <= |s|
    ensures AllDigits(s[..k])
    ensures k < |s| ==> !IsDigit(s[k])
  {
    if |s| == 0 || !IsDigit(s[0]) then 0
    else
      var k := 1 + DigitRun(s[1..]);
      assert s[..k] == [s[0]] + s[1..][..k - 1];
      k
  }

  /** True when s has a sign character in front of it. */
  predicate HasSign(s: string) { |s| > 0 && (s[0] == '+' || s[0] == '-') }

  /** The part of s after an optional leading sign. */
  function Unsigned(s: string): (u: string)
    ensures |u| <= |s|
  {
    if HasSign(s) then s[1..] else s
  }

  /** `strconv.Itoa` for an unsigned value: its shortest decimal rendering. */
  function NatDigits(n: nat): (s: string)
    ensures |s| > 0 && AllDigits(s)
    ensures DigitsValue(s) == n
    ensures s[0] != '0' || n == 0
  {
    if n < 10 then [DigitChar(n)]
    else
      var s := NatDigits(n / 10) + [DigitChar(n % 10)];
      assert s[..|s| - 1] == NatDigits(n / 10);
      s
  }

  /** `strconv.Itoa`. */
  function Itoa(n: int): (s: string)
    ensures |s| > 0
  {
    if n < 0 then "-" + NatDigits(-n) else NatDigits(n)
  }

  /** `strconv.Atoi` on a 64-bit platform, with its error result dropped as the scrape client drops it. */
  function Atoi(s: string): (n: int)
    ensures InInt64(n)
    ensures Unsigned(s) == "" ==> n == 0
  {
    var body := Unsigned(s);
    var k := DigitRun(body);
    var v: int := DigitsValue(body[..k]);
    if |body| == 0 || (k < |body| && v <= MaxUint64) then 0
    else Clamp64(if |s| > 0 && s[0] == '-' then -v else v)
  }

  /** A run of k digits denotes less than 10^k. */
  lemma {:induction false} DigitsValueBound(s: string)
    requires AllDigits(s)
    ensures DigitsValue(s) < Pow10(|s|)
  {
    if |s| > 0 {
      DigitsValueBound(s[..|s| - 1]);
    }
  }

  lemma {:induction false} Pow10Monotone(a: nat, b: nat)
    requires a <= b
    ensures Pow10(a) <= Pow10(b)
  {
    if a < b {
      Pow10Monotone(a, b - 1);
    }
  }

  lemma Pow10Nineteen()
    ensures Pow10(19) == 10_000_000_000_000_000_000
  {
    assert Pow10(10) == 10_000_000_000;
  }

  /** Reading back what Itoa wrote gives the original value, for every int64. */
  lemma AtoiItoa(n: int)
    requires InInt64(n)
    ensures Atoi(Itoa(n)) == n
  {
    var s := Itoa(n);
    var digits := if n < 0 then NatDigits(-n) else NatDigits(n);
    assert IsDigit(digits[0]);
    assert Unsigned(s) == digits;
    assert DigitRun(digits) == |digits|;
    assert digits[..|digits|] == digits;
  }

  /**
   A string of at most 20 characters that is not an optionally signed,
   non-empty run of digits reads as 0: no such string is long enough to
   overflow before the offending character.
   */
  lemma AtoiRejectsMalformed(s: string)
    requires |s| <= 20
    requires Unsigned(s) == "" || !AllDigits(Unsigned(s))
    ensures Atoi(s) == 0
  {
    var body := Unsigned(s);
    if |body| > 0 {
      var k := DigitRun(body);
      assert k < |body|;
      DigitsValueBound(body[..k]);
      Pow10Monotone(k, 19);
      Pow10Nineteen();
    }
  }

  /** A well-formed numeral reads as its signed value, saturated into the int64 range. */
  lemma AtoiWellFormed(s: string)
    requires Unsigned(s) != "" && AllDigits(Unsigned(s))
    ensures var v: int := DigitsValue(Unsigned(s));
      Atoi(s) == Clamp64(if |s| > 0 && s[0] == '-' then -v else v)
  {
    var body := Unsigned(s);
    assert DigitRun(body) == |body|;
    assert body[..|body|] == body;
  }
}
