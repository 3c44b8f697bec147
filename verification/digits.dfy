/** Decimal renderings of integers as Python produces them: `str(n)`,
    `str(n).zfill(3)` and the format `f"{n:03d}"`, plus Python's `<` on strings. */
module Digits {

  predicate IsDigit(c: char) {
    '0' <= c <= '9'
  }

  predicate AllDigits(s: string) {
    forall i :: 0 <= i < |s| ==> IsDigit(s[i])
  }

  function DigitChar(d: nat): (c: char)
    requires d < 10
    ensures IsDigit(c)
  {
    ('0' as int + d) as char
  }

  function DigitValue(c: char): nat
    requires IsDigit(c)
  {
    c as int - '0' as int
  }

  /** Python's `str(n)` for a non-negative integer: no leading zeros, "0" for zero. */
  function NatToString(n: nat): (s: string)
    ensures 1 <= |s|
    ensures AllDigits(s)
    ensures |s| > 1 ==> s[0] != '0'
    decreases n
  {
    if n < 10 then [DigitChar(n)] else NatToString(n / 10) + [DigitChar(n % 10)]
  }

  /** The value of a string of decimal digits (Python's `int(s)` restricted to digit strings). */
  function ParseNat(s: string): nat
    requires AllDigits(s)
    decreases |s|
  {
    if s == [] then 0 else 10 * ParseNat(s[..|s| - 1]) + DigitValue(s[|s| - 1])
  }

  lemma {:induction false} ParseNatToString(n: nat)
    ensures ParseNat(NatToString(n)) == n
    decreases n
  {
    if n >= 10 {
      var s := NatToString(n);
      assert s[..|s| - 1] == NatToString(n / 10);
      ParseNatToString(n / 10);
    }
  }

  /** `str(n)` is injective on non-negative integers. */
  lemma NatToStringInjective(m: nat, n: nat)
    ensures NatToString(m) == NatToString(n) <==> m == n
  {
    if NatToString(m) == NatToString(n) {
      ParseNatToString(m);
      ParseNatToString(n);
    }
  }

  /** Python's `str(i)` for any integer. */
  function IntToString(i: int): (s: string)
    ensures i >= 0 ==> s == NatToString(i)
    ensures i < 0 ==> |s| >= 2 && s[0] == '-' && s[1..] == NatToString(-i)
  {
    if i < 0 then "-" + NatToString(-i) else NatToString(i)
  }

  function Zeros(k: nat): (z: string)
    ensures |z| == k
    ensures forall i :: 0 <= i < k ==> z[i] == '0'
  {
    seq(k, _ => '0')
  }

  /** Python's `s.zfill(width)` for a string without a sign. */
  function ZFill(s: string, width: nat): (r: string)
    ensures |r| == if |s| < width then width else |s|
    ensures r[|r| - |s|..] == s
  {
    if |s| < width then Zeros(width - |s|) + s else s
  }

  /** The three-digit zero-padded rendering `f"{n:03d}"` of a suffix below 1000. */
  function Pad3(n: nat): (s: string)
    requires n < 1000
    ensures |s| == 3 && AllDigits(s)
  {
    [DigitChar(n / 100), DigitChar(n / 10 % 10), DigitChar(n % 10)]
  }

  /** The three decimal digits of a number below 1000. */
  lemma ThreeDigits(n: nat)
    requires n < 1000
    ensures n / 10 / 10 == n / 100 && n / 10 % 10 < 10
    ensures n < 100 ==> n / 100 == 0
    ensures n < 10 ==> n / 10 % 10 == 0
    ensures 10 <= n < 100 ==> n / 10 % 10 == n / 10 && 1 <= n / 10 < 10
    ensures 100 <= n ==> 10 <= n / 10 && 1 <= n / 100 < 10
  {
    var q, r := n / 100, n % 100;
    assert n == 100 * q + r && r < 100;
    assert n / 10 == 10 * q + r / 10;
  }

  /** `f"{n:03d}"` and `str(n).zfill(3)` agree below 1000. */
  lemma Pad3IsZFill(n: nat)
    requires n < 1000
    ensures Pad3(n) == ZFill(NatToString(n), 3)
  {
    ThreeDigits(n);
    if n >= 100 {
      Pad3Hundreds(n);
    } else if n >= 10 {
      Pad3Tens(n);
    } else {
      Pad3Units(n);
    }
  }

  lemma Pad3Hundreds(n: nat)
    requires 100 <= n < 1000
    ensures Pad3(n) == ZFill(NatToString(n), 3)
  {
    var m := n / 10;
    HundredsTens(n);
    TwoDigits(m);
    var s := NatToString(n);
    assert s == [DigitChar(n / 100), DigitChar(m % 10), DigitChar(n % 10)];
    assert ZFill(s, 3) == s;
  }

  lemma HundredsTens(n: nat)
    requires 100 <= n < 1000
    ensures 10 <= n / 10 < 100 && n / 10 / 10 == n / 100
  {
    ThreeDigits(n);
  }

  lemma Pad3Tens(n: nat)
    requires 10 <= n < 100
    ensures Pad3(n) == ZFill(NatToString(n), 3)
  {
    ThreeDigits(n);
    TwoDigits(n);
    var s := NatToString(n);
    assert ZFill(s, 3) == Zeros(1) + s && Zeros(1) == ['0'];
    assert n / 100 == 0 && DigitChar(0) == '0';
  }

  lemma TwoDigits(m: nat)
    requires 10 <= m < 100
    ensures NatToString(m) == [DigitChar(m / 10), DigitChar(m % 10)]
  {
    assert NatToString(m / 10) == [DigitChar(m / 10)];
  }

  lemma Pad3Units(n: nat)
    requires n < 10
    ensures Pad3(n) == ZFill(NatToString(n), 3)
  {
    ThreeDigits(n);
    var s := NatToString(n);
    assert s == [DigitChar(n % 10)];
    assert ZFill(s, 3) == Zeros(2) + s && Zeros(2) == ['0', '0'];
    assert n / 100 == 0 && n / 10 % 10 == 0 && DigitChar(0) == '0';
  }

  lemma ParsePad3(n: nat)
    requires n < 1000
    ensures ParseNat(Pad3(n)) == n
  {
    var h, t, u := n / 100, n / 10 % 10, n % 10;
    DigitSum(n);
    var s := Pad3(n);
    assert s[..3] == s && s[..2][..1] == s[..1] && s[..1][..0] == [];
    assert ParseNat(s[..1]) == h;
    assert ParseNat(s[..2]) == 10 * h + t;
    assert ParseNat(s) == 10 * (10 * h + t) + u;
  }

  /** A number below 1000 is the sum of its digits times their place values. */
  lemma DigitSum(n: nat)
    requires n < 1000
    ensures n == 100 * (n / 100) + 10 * (n / 10 % 10) + n % 10
  {
    ThreeDigits(n);
    var q, r := n / 100, n % 100;
    assert n == 100 * q + r && r < 100;
    assert n / 10 == 10 * q + r / 10;
  }

  lemma Pad3Injective(m: nat, n: nat)
    requires m < 1000 && n < 1000
    ensures Pad3(m) == Pad3(n) <==> m == n
  {
    if Pad3(m) == Pad3(n) {
      ParsePad3(m);
      ParsePad3(n);
    }
  }

  /** Python's `a < b` on strings: lexicographic on code points, a proper prefix first. */
  predicate StrLess(a: string, b: string)
    decreases |a|
  {
    if |a| == 0 then |b| > 0
    else if |b| == 0 then false
    else if a[0] != b[0] then a[0] < b[0]
    else StrLess(a[1..], b[1..])
  }

  lemma {:induction false} StrLessCommonPrefix(p: string, a: string, b: string)
    ensures StrLess(p + a, p + b) <==> StrLess(a, b)
    decreases |p|
  {
    if |p| > 0 {
      assert (p + a)[1..] == p[1..] + a;
      assert (p + b)[1..] == p[1..] + b;
      StrLessCommonPrefix(p[1..], a, b);
    } else {
      assert p + a == a && p + b == b;
    }
  }

  /** Zero padding makes string order agree with numeric order. */
  lemma Pad3Ordered(m: nat, n: nat)
    requires m < n < 1000
    ensures StrLess(Pad3(m), Pad3(n))
  {
    var a, b := Pad3(m), Pad3(n);
    PadOrder(m, n);
    if m / 100 == n / 100 {
      assert a[0] == b[0];
      assert a[1..][1..] == [a[2]] && b[1..][1..] == [b[2]];
      if m / 10 % 10 == n / 10 % 10 {
        assert a[1] == b[1];
        assert a[2] < b[2];
      } else {
        assert a[1] < b[1];
      }
    } else {
      assert a[0] < b[0];
    }
  }

  /** Comparing two numbers below 1000 digit by digit, from the hundreds down. */
  lemma PadOrder(m: nat, n: nat)
    requires m < n < 1000
    ensures m / 100 <= n / 100
    ensures m / 100 == n / 100 ==> m / 10 % 10 <= n / 10 % 10
    ensures m / 100 == n / 100 && m / 10 % 10 == n / 10 % 10 ==> m % 10 < n % 10
  {
    ThreeDigits(m);
    ThreeDigits(n);
    assert m == 100 * (m / 100) + 10 * (m / 10 % 10) + m % 10 by {
      assert m == 10 * (m / 10) + m % 10;
      assert m / 10 == 10 * (m / 10 / 10) + m / 10 % 10;
    }
    assert n == 100 * (n / 100) + 10 * (n / 10 % 10) + n % 10 by {
      assert n == 10 * (n / 10) + n % 10;
      assert n / 10 == 10 * (n / 10 / 10) + n / 10 % 10;
    }
  }
}
