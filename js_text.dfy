/**
 * The JavaScript text and arithmetic primitives the timers' `formatTime`
 * helpers use: `Number.prototype.toString()` on integers,
 * `String.prototype.padStart(2, '0')`, `Math.floor(a / b)` and the
 * remainder operator `%`, which truncates toward zero.
 */
module JsText {
  import opened Wrappers

  predicate IsDigit(c: char) {
    '0' <= c <= '9'
  }

  function DigitChar(d: int): (c: char)
    requires 0 <= d < 10
    ensures IsDigit(c)
  {
    "0123456789"[d]
  }

  function DigitValue(c: char): (d: int)
    requires IsDigit(c)
    ensures 0 <= d < 10
  {
    c as int - '0' as int
  }

  lemma DigitRoundTrip(d: int)
    requires 0 <= d < 10
    ensures DigitValue(DigitChar(d)) == d
  {
  }

  /** The decimal digits of `n`, most significant first, no leading zero. */
  function NatToString(n: nat): (r: string)
    ensures 1 <= |r|
    ensures forall i :: 0 <= i < |r| ==> IsDigit(r[i])
    ensures r[0] == '0' ==> n == 0
    decreases n
  {
    if n < 10 then [DigitChar(n)] else NatToString(n / 10) + [DigitChar(n % 10)]
  }

  /** `i.toString()` for an integer: a minus sign before the digits of a
      negative number. */
  function IntToString(i: int): (r: string)
    ensures 1 <= |r|
    ensures i >= 0 <==> IsDigit(r[0])
  {
    if i < 0 then "-" + NatToString(-i) else NatToString(i)
  }

  /** The value of a string of decimal digits (leading zeros allowed). */
  function ParseDigits(s: string): nat
    requires forall i :: 0 <= i < |s| ==> IsDigit(s[i])
    decreases |s|
  {
    if s == [] then 0 else 10 * ParseDigits(s[..|s| - 1]) + DigitValue(s[|s| - 1])
  }

  /** Printing a natural number and reading it back gives the number. */
  lemma {:induction false} ParseNatToString(n: nat)
    ensures ParseDigits(NatToString(n)) == n
    decreases n
  {
    var r := NatToString(n);
    if n < 10 {
      DigitRoundTrip(n);
    } else {
      ParseNatToString(n / 10);
      assert r[..|r| - 1] == NatToString(n / 10);
      DigitRoundTrip(n % 10);
    }
  }

  /** `s.padStart(2, '0')`: zeros in front up to length 2. */
  function PadStart2(s: string): (r: string)
    ensures |r| == if |s| >= 2 then |s| else 2
    ensures forall i :: 0 <= i < |s| ==> r[|r| - |s| + i] == s[i]
    ensures forall i :: 0 <= i < |r| - |s| ==> r[i] == '0'
  {
    if |s| >= 2 then s else if |s| == 1 then "0" + s else "00"
  }

  /** For 0..99 the padded text is two digits whose value is the number. */
  lemma TwoDigits(n: nat)
    requires n < 100
    ensures var p := PadStart2(IntToString(n));
            |p| == 2 && IsDigit(p[0]) && IsDigit(p[1]) && 10 * DigitValue(p[0]) + DigitValue(p[1]) == n
  {
    if n < 10 {
      assert IntToString(n) == [DigitChar(n)];
      DigitRoundTrip(n);
    } else {
      assert NatToString(n / 10) == [DigitChar(n / 10)];
      assert IntToString(n) == [DigitChar(n / 10), DigitChar(n % 10)];
      DigitRoundTrip(n / 10);
      DigitRoundTrip(n % 10);
    }
  }

  predicate AllDigits(t: string) {
    forall i :: 0 <= i < |t| ==> IsDigit(t[i])
  }

  /** `${m.toString().padStart(2, '0')}:${s.toString().padStart(2, '0')}`. */
  function MinSec(m: int, s: int): string {
    PadStart2(IntToString(m)) + ":" + PadStart2(IntToString(s))
  }

  /** The seconds the last five characters of `t` stand for when they read
      `mm:ss` (two digits, a colon, two digits); `None` otherwise. */
  function MmSsEnding(t: string): (r: Option<int>)
    ensures r.Some? ==> |t| >= 5 && 0 <= r.value <= 60 * 99 + 99
  {
    var k := |t| - 5;
    if k >= 0 && IsDigit(t[k]) && IsDigit(t[k + 1]) && t[k + 2] == ':' && IsDigit(t[k + 3]) && IsDigit(t[k + 4])
    then Some(60 * (10 * DigitValue(t[k]) + DigitValue(t[k + 1])) + 10 * DigitValue(t[k + 3]) + DigitValue(t[k + 4]))
    else None
  }

  /** Reads `mm:ss` back to seconds; `None` for any other text. */
  function ParseMmSs(t: string): (r: Option<int>)
    ensures r.Some? ==> |t| == 5 && r == MmSsEnding(t)
  {
    if |t| == 5 then MmSsEnding(t) else None
  }

  /** Text in front does not change how the last five characters read. */
  lemma MmSsEndingAfter(pre: string, ms: string)
    requires |ms| == 5
    ensures MmSsEnding(pre + ms) == MmSsEnding(ms)
  {
    var t, k := pre + ms, |pre|;
    assert t[k] == ms[0] && t[k + 1] == ms[1] && t[k + 2] == ms[2] && t[k + 3] == ms[3] && t[k + 4] == ms[4];
  }

  /** The pieces of a text joined by a colon are found again around it. */
  lemma ColonSplit(a: string, b: string)
    ensures var t := a + ":" + b;
            |t| == |a| + 1 + |b| && t[..|a|] == a && t[|a|] == ':'
  {
    var t := a + ":" + b;
    assert t[..|a|] == a;
  }

  /** Two digits, a colon and two digits read as minutes and seconds:
      `v` is the value they stand for. */
  lemma MmSsText(p: string, q: string, v: int)
    requires |p| == 2 && IsDigit(p[0]) && IsDigit(p[1])
    requires |q| == 2 && IsDigit(q[0]) && IsDigit(q[1])
    requires v == 60 * (10 * DigitValue(p[0]) + DigitValue(p[1])) + 10 * DigitValue(q[0]) + DigitValue(q[1])
    ensures |p + ":" + q| == 5
    ensures ParseMmSs(p + ":" + q) == Some(v)
  {
    var t := p + ":" + q;
    assert t[0] == p[0] && t[1] == p[1] && t[2] == ':' && t[3] == q[0] && t[4] == q[1];
  }

  /** Below 100, minutes and seconds print as `mm:ss` and read back to
      `v`, the number of seconds they make. */
  lemma MinSecRoundTrip(m: nat, s: nat, v: int)
    requires m < 100 && s < 100 && v == 60 * m + s
    ensures |MinSec(m, s)| == 5
    ensures ParseMmSs(MinSec(m, s)) == Some(v)
  {
    TwoDigits(m);
    TwoDigits(s);
    MmSsText(PadStart2(IntToString(m)), PadStart2(IntToString(s)), v);
  }

  /** JavaScript's `a % b` for a positive divisor: the sign follows `a`. */
  function JsRem(a: int, b: int): (r: int)
    requires b > 0
    ensures a >= 0 ==> 0 <= r < b && r == a % b
    ensures a < 0 ==> -b < r <= 0 && (a - r) % b == 0
  {
    if a >= 0 then a % b
    else
      TruncatedRemainder(-a, b);
      -((-a) % b)
  }

  /** Taking the remainder off `x` leaves a multiple of `b`. */
  lemma TruncatedRemainder(x: int, b: int)
    requires b > 0
    ensures (x % b - x) % b == 0
  {
    var q := x / b;
    assert x % b - x == (-q) * b;
    MultipleRemainder(-q, b);
  }

  /** A multiple of `b` leaves no remainder. */
  lemma MultipleRemainder(k: int, b: int)
    requires b > 0
    ensures (k * b) % b == 0
  {
    var x := k * b;
    var d := k - x / b;
    assert d * b == x % b;
  }

  /** `Math.floor(a / b)` for a positive divisor. */
  function FloorDiv(a: int, b: int): (r: int)
    requires b > 0
    ensures r * b <= a < r * b + b
  {
    a / b
  }
}
