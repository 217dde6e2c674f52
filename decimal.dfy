/**
 * Decimal numerals: Go's strconv.Itoa / Python's str / JavaScript's String
 * on integers, Go's strconv.Atoi (64-bit int), JavaScript's parseInt(s, 10)
 * and the value of a Python digit string.
 */
module Decimal {
  import opened Wrappers
  import Text

  const MinInt64: int := -0x8000_0000_0000_0000
  const MaxInt64: int := 0x7FFF_FFFF_FFFF_FFFF
  const Two64: int := 0x1_0000_0000_0000_0000

  /**
   * Go's 64-bit `int` arithmetic: the exact value brought back into
   * [MinInt64, MaxInt64] by a multiple of 2^64, so MaxInt64 + 1 is MinInt64.
   */
  function Wrap64(x: int): (r: int)
    ensures MinInt64 <= r <= MaxInt64
    ensures (x - r) % Two64 == 0
  {
    if MinInt64 <= x <= MaxInt64 then x
    else
      var q := (x - MinInt64) / Two64;
      assert x - ((x - MinInt64) % Two64 + MinInt64) == q * Two64;
      (x - MinInt64) % Two64 + MinInt64
  }

  /** Go's int64(u) of a uint64 u: the same value below 2^63, else u - 2^64. */
  lemma Wrap64OfUnsigned(u: int)
    requires 0 <= u < Two64
    ensures Wrap64(u) == if u <= MaxInt64 then u else u - Two64
  {
    if u > MaxInt64 {
      assert (u - MinInt64) % Two64 == u - MinInt64 - Two64;
    }
  }

  /**
   * Go's integer division: the quotient truncated toward zero, so the
   * remainder takes the dividend's sign (Dafny's own `/` is Euclidean).
   */
  function GoQuo(a: int, b: int): (q: int)
    requires b != 0
    ensures a >= 0 && b > 0 ==> q == a / b
    ensures Abs(q) == Abs(a) / Abs(b)
    ensures q == 0 || (q > 0 <==> (a > 0) == (b > 0))
  {
    if a == 0 then 0
    else
      var m: int := Abs(a) / Abs(b);
      if (a > 0) == (b > 0) then m else -m
  }

  function Abs(x: int): nat {
    if x < 0 then -x else x
  }

  /** The largest integer a JavaScript number holds exactly, Number.MAX_SAFE_INTEGER (2^53 - 1). */
  const MaxSafeInteger: int := 0x1F_FFFF_FFFF_FFFF

  /** Number.isSafeInteger: every integer of at most this size is a JavaScript number, exactly. */
  predicate SafeInteger(n: int) {
    -MaxSafeInteger <= n <= MaxSafeInteger
  }

  predicate IsDigit(c: char) { '0' <= c <= '9' }

  predicate AllDigits(s: string) { forall i :: 0 <= i < |s| ==> IsDigit(s[i]) }

  function DigitChar(d: nat): (c: char)
    requires d < 10
    ensures IsDigit(c) && c as int - '0' as int == d
  {
    ('0' as int + d) as char
  }

  function DigitOf(c: char): nat
    requires IsDigit(c)
  {
    c as int - '0' as int
  }

  /** The decimal numeral of a natural number, with no leading zero. */
  function NatToString(n: nat): (s: string)
    ensures |s| >= 1 && AllDigits(s)
    ensures (s[0] == '0') == (n == 0)
    decreases n
  {
    if n < 10 then [DigitChar(n)] else NatToString(n / 10) + [DigitChar(n % 10)]
  }

  /** The most significant decimal digit. */
  function LeadingDigit(n: nat): (d: nat)
    ensures d < 10
  {
    if n < 10 then n else LeadingDigit(n / 10)
  }

  /** The first character of a natural number's numeral is its leading digit. */
  lemma {:induction false} NatToStringHead(n: nat)
    ensures NatToString(n)[0] == DigitChar(LeadingDigit(n))
    decreases n
  {
    if n >= 10 {
      NatToStringHead(n / 10);
    }
  }

  /** A numeral as printed by Itoa/str/String: digits, with a leading '-' for negatives. */
  predicate Numeral(s: string) {
    |s| >= 1 && forall i :: 0 <= i < |s| ==> IsDigit(s[i]) || (i == 0 && s[i] == '-')
  }

  function IntToString(n: int): (s: string)
    ensures Numeral(s)
    ensures (s[0] == '-') == (n < 0)
    ensures n >= 0 ==> AllDigits(s)
  {
    if n < 0 then "-" + NatToString(-n) else NatToString(n)
  }

  /** A numeral contains no character other than digits and '-', so no separator. */
  lemma NumeralHasNo(n: int, c: char)
    requires !IsDigit(c) && c != '-'
    ensures c !in IntToString(n)
  {
  }

  /** The value of a digit string, most significant digit first (Python int on ASCII digits). */
  function DigitsValue(s: string): nat
    requires AllDigits(s)
  {
    if |s| == 0 then 0 else DigitsValue(s[..|s| - 1]) * 10 + DigitOf(s[|s| - 1])
  }

  lemma {:induction false} DigitsValueOfNat(n: nat)
    ensures DigitsValue(NatToString(n)) == n
    decreases n
  {
    var s := NatToString(n);
    if n >= 10 {
      assert s[..|s| - 1] == NatToString(n / 10);
      DigitsValueOfNat(n / 10);
    }
  }

  lemma {:induction false} NatToStringInjective(a: nat, b: nat)
    requires NatToString(a) == NatToString(b)
    ensures a == b
  {
    DigitsValueOfNat(a);
    DigitsValueOfNat(b);
  }

  /** The integer an optional '+' or '-' and one or more ASCII digits denote, unbounded; None for any other text. */
  function SignedValue(s: string): Option<int> {
    if |s| == 0 then None
    else
      var signed := s[0] == '+' || s[0] == '-';
      var body := if signed then s[1..] else s;
      if |body| == 0 || !AllDigits(body) then None
      else
        var m: int := DigitsValue(body);
        Some(if s[0] == '-' then -m else m)
  }

  /**
   * strconv.Atoi: an optional '+' or '-', then one or more ASCII digits, and a
   * value that fits a 64-bit int; anything else is an error.
   */
  function GoAtoi(s: string): (r: Option<int>)
    ensures r.Some? ==> MinInt64 <= r.value <= MaxInt64
    ensures r.Some? ==> |s| >= 1
  {
    var v := SignedValue(s);
    if v.Some? && MinInt64 <= v.value <= MaxInt64 then v else None
  }

  /**
   * The value strconv.Atoi returns beside its error, which callers that
   * discard the error keep: 0 on a syntax error, the nearest 64-bit bound on
   * overflow.
   */
  function AtoiValue(s: string): (v: int)
    ensures MinInt64 <= v <= MaxInt64
  {
    match SignedValue(s)
    case None => 0
    case Some(n) => if n < MinInt64 then MinInt64 else if n > MaxInt64 then MaxInt64 else n
  }

  /** Where Atoi succeeds, the kept value is the parsed one; a malformed text gives 0. */
  lemma AtoiValueAgrees(s: string)
    ensures GoAtoi(s).Some? ==> AtoiValue(s) == GoAtoi(s).value
    ensures SignedValue(s).None? ==> AtoiValue(s) == 0 && GoAtoi(s).None?
    ensures GoAtoi(s).None? && SignedValue(s).Some? ==> AtoiValue(s) == MinInt64 || AtoiValue(s) == MaxInt64
  {
  }

  /** Atoi reads back every 64-bit value Itoa prints. */
  lemma AtoiItoa(n: int)
    requires MinInt64 <= n <= MaxInt64
    ensures GoAtoi(IntToString(n)) == Some(n)
  {
    var s := IntToString(n);
    if n < 0 {
      assert s[1..] == NatToString(-n);
      DigitsValueOfNat(-n);
    } else {
      DigitsValueOfNat(n);
    }
  }

  /** The longest prefix of digits. */
  function DigitPrefix(s: string): (p: string)
    ensures AllDigits(p) && Text.StartsWith(s, p)
    ensures |p| < |s| ==> !IsDigit(s[|p|])
  {
    if |s| > 0 && IsDigit(s[0]) then [s[0]] + DigitPrefix(s[1..]) else ""
  }

  lemma DigitPrefixAll(s: string)
    requires AllDigits(s)
    ensures DigitPrefix(s) == s
  {
  }

  /**
   * JavaScript parseInt(s, 10): skips leading whitespace, takes an optional
   * sign and then the longest run of digits; with no digit the result is NaN
   * (None here). A "-0" result is the number 0.
   */
  function JsParseInt(s: string): Option<int>
  {
    var t := Text.TrimLeft(s);
    var signed := |t| > 0 && (t[0] == '-' || t[0] == '+');
    var digits := DigitPrefix(if signed then t[1..] else t);
    if |digits| == 0 then None
    else
      var m: int := DigitsValue(digits);
      Some(if signed && t[0] == '-' then -m else m)
  }

  /** parseInt reads back every safe integer String prints. */
  lemma JsParseIntItoa(n: int)
    requires SafeInteger(n)
    ensures JsParseInt(IntToString(n)) == Some(n)
  {
    var s := IntToString(n);
    assert Text.TrimLeft(s) == s by {
      Text.TrimLeftUnpadded(s);
    }
    if n < 0 {
      var body := NatToString(-n);
      assert s[0] == '-' && s[1..] == body;
      assert DigitPrefix(body) == body by {
        DigitPrefixAll(body);
      }
      assert DigitsValue(body) == -n by {
        DigitsValueOfNat(-n);
      }
    } else {
      assert s == NatToString(n);
      assert DigitPrefix(s) == s by {
        DigitPrefixAll(s);
      }
      assert DigitsValue(s) == n by {
        DigitsValueOfNat(n);
      }
    }
  }
}
