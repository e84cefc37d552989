/** The JavaScript number operations the modelled code uses, over exact integers:
    `Math.round` of a quotient, `Math.floor`/`Math.ceil` of a quotient, `parseInt` without a
    radix, and the decimal rendering of an integer in a template string. */
module JsNumbers {
  import opened Wrappers
  import Text

  /** `Math.round(num / den)`: the integer r with r - 1/2 <= num/den < r + 1/2. */
  function Round(num: int, den: int): (r: int)
    requires den > 0
    ensures 2 * den * r <= 2 * num + den < 2 * den * r + 2 * den
  {
    FloorDivBounds(2 * num + den, 2 * den);
    (2 * num + den) / (2 * den)
  }

  lemma FloorDivBounds(a: int, b: int)
    requires b > 0
    ensures b * (a / b) <= a < b * (a / b) + b
  {
  }

  lemma MulLe(a: int, x: int, y: int)
    requires a >= 0 && x <= y
    ensures a * x <= a * y
  {
    assert a * y == a * x + a * (y - x);
  }

  /** Rounding a quotient by its own divisor is exact. */
  lemma RoundExact(q: int, den: int)
    requires den > 0
    ensures Round(q * den, den) == q
  {
    var r := Round(q * den, den);
    assert 2 * den * r <= 2 * (q * den) + den < 2 * den * r + 2 * den;
    if r > q {
      MulLe(2 * den, q + 1, r);
    }
    if r < q {
      MulLe(2 * den, r + 1, q);
    }
  }

  /** `Math.round` of a quotient grows with the dividend. */
  lemma RoundMonotone(a: int, b: int, den: int)
    requires den > 0 && a <= b
    ensures Round(a, den) <= Round(b, den)
  {
    var ra, rb := Round(a, den), Round(b, den);
    if ra > rb {
      MulLe(2 * den, rb + 1, ra);
    }
  }

  /** A rounded percentage of a part of a whole lies between 0 and 100. */
  lemma RoundPercent(part: int, whole: int)
    requires 0 <= part <= whole && whole > 0
    ensures 0 <= Round(part * 100, whole) <= 100
  {
    RoundMonotone(0, part * 100, whole);
    RoundMonotone(part * 100, whole * 100, whole);
    RoundExact(0, whole);
    RoundExact(100, whole);
  }

  /** `Math.floor(a / b)` for a non-zero divisor. */
  function FloorDiv(a: int, b: int): (r: int)
    requires b != 0
    ensures b > 0 ==> b * r <= a < b * r + b
    ensures b < 0 ==> b * r + b < a <= b * r
  {
    if b > 0 then a / b else (-a) / (-b)
  }

  /** `Math.ceil(a / b)` for a positive divisor. */
  function CeilDiv(a: int, b: int): (r: int)
    requires b > 0
    ensures b * r - b < a <= b * r
  {
    -FloorDiv(-a, b)
  }

  /** The value of a character as a digit in base `radix` (2..36), as `parseInt` reads it. */
  function DigitOf(c: char, radix: nat): Option<nat> {
    var d :=
      if '0' <= c <= '9' then c as int - '0' as int
      else if 'a' <= c <= 'z' then c as int - 'a' as int + 10
      else if 'A' <= c <= 'Z' then c as int - 'A' as int + 10
      else 36;
    if d < radix then Some(d) else None
  }

  predicate AllDigits(s: string, radix: nat) {
    forall i :: 0 <= i < |s| ==> DigitOf(s[i], radix).Some?
  }

  /** Length of the longest prefix of `s` made of base-`radix` digits. */
  function DigitRun(s: string, radix: nat): (n: nat)
    ensures n <= |s| && AllDigits(s[..n], radix)
    ensures n < |s| ==> DigitOf(s[n], radix).None?
  {
    if s == [] || DigitOf(s[0], radix).None? then 0
    else
      var n := 1 + DigitRun(s[1..], radix);
      assert s[..n] == [s[0]] + s[1..][..n - 1];
      n
  }

  /** The number written by a string of digits, most significant first. */
  function ValueOf(digits: string, radix: nat): nat
    requires AllDigits(digits, radix)
  {
    if digits == [] then 0
    else ValueOf(digits[..|digits| - 1], radix) * radix + DigitOf(digits[|digits| - 1], radix).value
  }

  /** The digits `parseInt` reads after the sign: a `0x`/`0X` prefix selects base 16, and the
      longest run of digits is read; `None` when there is no digit. */
  function ParseMagnitude(u: string): Option<nat> {
    var hex := |u| >= 2 && u[0] == '0' && (u[1] == 'x' || u[1] == 'X');
    var radix := if hex then 16 else 10;
    var body := if hex then u[2..] else u;
    var n := DigitRun(body, radix);
    if n == 0 then None else Some(ValueOf(body[..n], radix))
  }

  /** `parseInt(s)` with no radix argument; `None` is NaN. Leading white space and one sign are
      skipped before the digits. */
  function ParseInt(s: string): Option<int> {
    var t := Text.TrimStart(s);
    if |t| > 0 && t[0] == '-' then
      match ParseMagnitude(t[1..])
      case Some(v) => Some(-(v as int))
      case None => None
    else if |t| > 0 && t[0] == '+' then
      match ParseMagnitude(t[1..])
      case Some(v) => Some(v)
      case None => None
    else
      match ParseMagnitude(t)
      case Some(v) => Some(v)
      case None => None
  }

  predicate NoDecimalDigit(s: string) {
    forall i :: 0 <= i < |s| ==> !('0' <= s[i] <= '9')
  }

  lemma NoDigitMagnitude(u: string)
    requires NoDecimalDigit(u)
    ensures ParseMagnitude(u) == None
  {
    if u != [] {
      assert DigitOf(u[0], 10).None?;
    }
  }

  /** `parseInt` finds no number in a string that has no decimal digit at all. */
  lemma ParseIntNeedsDigit(s: string)
    requires NoDecimalDigit(s)
    ensures ParseInt(s) == None
  {
    var t := Text.TrimStart(s);
    assert NoDecimalDigit(t) by {
      forall i | 0 <= i < |t| ensures !('0' <= t[i] <= '9') {
        assert t[i] == s[i + (|s| - |t|)];
      }
    }
    if |t| > 0 {
      assert NoDecimalDigit(t[1..]) by {
        forall i | 0 <= i < |t| - 1 ensures !('0' <= t[1..][i] <= '9') {
          assert t[1..][i] == t[i + 1];
        }
      }
      NoDigitMagnitude(t[1..]);
    }
    NoDigitMagnitude(t);
  }

  function DigitChar(d: nat): char
    requires d < 10
  {
    ('0' as int + d) as char
  }

  /** The decimal digits of `n`, without leading zeros. */
  function NatToString(n: nat): (s: string)
    ensures |s| > 0 && AllDigits(s, 10)
    ensures forall i :: 0 <= i < |s| ==> '0' <= s[i] <= '9'
  {
    if n < 10 then [DigitChar(n)] else NatToString(n / 10) + [DigitChar(n % 10)]
  }

  /** How a template string renders an integer. */
  function IntToString(n: int): string {
    if n < 0 then "-" + NatToString(-n) else NatToString(n)
  }

  lemma {:induction false} ValueOfNatToString(n: nat)
    ensures ValueOf(NatToString(n), 10) == n
  {
    if n >= 10 {
      var s := NatToString(n);
      assert s[..|s| - 1] == NatToString(n / 10);
      ValueOfNatToString(n / 10);
    }
  }

  lemma ParseMagnitudeOfNatToString(m: nat)
    ensures ParseMagnitude(NatToString(m)) == Some(m)
  {
    var digits := NatToString(m);
    assert !(|digits| >= 2 && digits[1] == 'x');
    assert !(|digits| >= 2 && digits[1] == 'X');
    assert DigitRun(digits, 10) == |digits|;
    ValueOfNatToString(m);
    assert digits[..|digits|] == digits;
  }

  /** `parseInt` reads back every integer that a template string renders. */
  lemma ParseIntOfIntToString(n: int)
    ensures ParseInt(IntToString(n)) == Some(n)
  {
    if n < 0 {
      ParseMagnitudeOfNatToString(-n);
      ParseIntSigned(NatToString(-n), -n);
    } else {
      ParseMagnitudeOfNatToString(n);
      ParseIntOfDigits(NatToString(n), n);
    }
  }

  /** A minus sign before a run that reads as `v` reads as `-v`. */
  lemma ParseIntSigned(d: string, v: nat)
    requires d != [] && '0' <= d[0] <= '9' && ParseMagnitude(d) == Some(v)
    ensures ParseInt("-" + d) == Some(-(v as int))
  {
    var s := "-" + d;
    assert Text.TrimStart(s) == s by {
      assert !Text.IsSpace(s[0]);
    }
    assert s[1..] == d;
  }

  /** A run that starts with a digit and reads as `v` reads as `v`. */
  lemma ParseIntOfDigits(d: string, v: nat)
    requires d != [] && '0' <= d[0] <= '9' && ParseMagnitude(d) == Some(v)
    ensures ParseInt(d) == Some(v)
  {
    assert Text.TrimStart(d) == d by {
      assert !Text.IsSpace(d[0]);
    }
  }

  lemma {:induction false} DigitRunStops(digits: string, rest: string)
    requires AllDigits(digits, 10)
    requires rest == [] || DigitOf(rest[0], 10).None?
    ensures DigitRun(digits + rest, 10) == |digits|
  {
    if digits != [] {
      assert (digits + rest)[1..] == digits[1..] + rest;
      DigitRunStops(digits[1..], rest);
    } else {
      assert digits + rest == rest;
    }
  }

  lemma ParseMagnitudeOfPrefix(n: nat, rest: string)
    requires rest == [] || (DigitOf(rest[0], 10).None? && rest[0] != 'x' && rest[0] != 'X')
    ensures ParseMagnitude(NatToString(n) + rest) == Some(n)
  {
    var digits := NatToString(n);
    var s := digits + rest;
    assert !(|s| >= 2 && (s[1] == 'x' || s[1] == 'X')) by {
      if |digits| >= 2 {
        assert s[1] == digits[1];
      } else if |s| >= 2 {
        assert s[1] == rest[0];
      }
    }
    DigitRunStops(digits, rest);
    assert s[..|digits|] == digits;
    ValueOfNatToString(n);
  }

  /** `parseInt` reads the number at the head of a text and stops at the first character that is
      not a digit (an `x` right after a lone 0 would start a hexadecimal number instead). */
  lemma ParseIntOfNumberPrefix(n: nat, rest: string)
    requires rest == [] || (DigitOf(rest[0], 10).None? && rest[0] != 'x' && rest[0] != 'X')
    ensures ParseInt(NatToString(n) + rest) == Some(n)
  {
    var s := NatToString(n) + rest;
    assert s[0] == NatToString(n)[0];
    ParseIntUnsigned(s);
    ParseMagnitudeOfPrefix(n, rest);
  }

  /** A text that starts with a digit is read by `parseInt` as its leading run of digits. */
  lemma ParseIntUnsigned(s: string)
    requires s != [] && '0' <= s[0] <= '9'
    ensures ParseInt(s) == ParseMagnitude(s)
  {
    assert !Text.IsSpace(s[0]);
    assert Text.TrimStart(s) == s;
  }

  /** Distinct integers render as distinct strings. */
  lemma IntToStringInjective(a: int, b: int)
    requires IntToString(a) == IntToString(b)
    ensures a == b
  {
    ParseIntOfIntToString(a);
    ParseIntOfIntToString(b);
  }
}
