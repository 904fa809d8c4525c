/**
 * Names of captured frames: `<prefix><seq>.png`, where `<seq>` is the decimal
 * sequence number left-padded with zeros to at least eight digits (Rust's
 * `format!("{:08}.png", seq)`).  Also a parser for such names and the fact that,
 * below 10^8, the names sort in the same order as their numbers.
 */
module Filenames {
  import opened Wrappers
  import opened Arithmetic

  /** The minimum number of digits of the sequence number (`{:08}`). */
  const Width: nat := 8

  /** The extension appended after the digits. */
  const Extension: string := ".png"

  function Pow10(k: nat): (p: nat)
    ensures p >= 1
  {
    if k == 0 then 1 else 10 * Pow10(k - 1)
  }

  predicate IsDigit(c: char) { '0' <= c <= '9' }

  predicate AllDigits(s: string) { forall i :: 0 <= i < |s| ==> IsDigit(s[i]) }

  function DigitChar(d: nat): (c: char)
    requires d < 10
    ensures IsDigit(c)
  {
    ('0' as int + d) as char
  }

  function DigitValue(c: char): (d: nat)
    requires IsDigit(c)
    ensures d < 10
  {
    c as int - '0' as int
  }

  /** The numeric value of a string of decimal digits, most significant first. */
  function Value(s: string): nat
    requires AllDigits(s)
  {
    if s == [] then 0 else DigitValue(s[0]) * Pow10(|s| - 1) + Value(s[1..])
  }

  /** Decimal representation without leading zeros ("0" for zero). */
  function Decimal(n: nat): (s: string)
    ensures |s| >= 1 && AllDigits(s)
    ensures s[0] == '0' <==> n == 0
  {
    if n < 10 then [DigitChar(n)] else Decimal(n / 10) + [DigitChar(n % 10)]
  }

  function Zeros(k: nat): (s: string)
    ensures |s| == k && AllDigits(s)
  {
    if k == 0 then [] else ['0'] + Zeros(k - 1)
  }

  /** `{:08}`: the decimal digits of `n`, left-padded with '0' to at least `Width` characters. */
  function Padded(n: nat): (s: string)
    ensures AllDigits(s) && |s| >= Width
    ensures |s| > Width ==> s[0] != '0'
  {
    var d := Decimal(n);
    if |d| < Width then Zeros(Width - |d|) + d else d
  }

  /** The file name given to frame number `n`: capture.rs builds it as prefix + `{:08}.png`. */
  function FrameName(prefix: string, n: nat): (name: string)
    ensures |name| == |prefix| + |Padded(n)| + |Extension|
    ensures name[..|prefix|] == prefix && name[|name| - |Extension|..] == Extension
  {
    prefix + Padded(n) + Extension
  }

  /** Reads a frame name back: the prefix, at least one digit, then ".png". */
  function ParseFrameName(prefix: string, name: string): Option<nat>
  {
    if |name| < |prefix| + |Extension| + 1 then None
    else if name[..|prefix|] != prefix || name[|name| - |Extension|..] != Extension then None
    else
      var digits := name[|prefix|..|name| - |Extension|];
      if AllDigits(digits) then Some(Value(digits)) else None
  }

  // ---------------------------------------------------------------------------
  // Arithmetic of digit strings

  lemma {:induction false} ValueBound(s: string)
    requires AllDigits(s)
    ensures Value(s) < Pow10(|s|)
  {
    if s != [] {
      ValueBound(s[1..]);
      var d, p := DigitValue(s[0]), Pow10(|s| - 1);
      MulMonotone(d, 9, p);
      assert Value(s) == d * p + Value(s[1..]);
      assert Pow10(|s|) == 10 * p;
    }
  }

  lemma {:induction false} ValueSnoc(s: string, c: char)
    requires AllDigits(s) && IsDigit(c)
    ensures AllDigits(s + [c]) && Value(s + [c]) == 10 * Value(s) + DigitValue(c)
  {
    var t := s + [c];
    DigitsSnoc(s, c);
    if s != [] {
      var s1 := s[1..];
      assert t[0] == s[0] && t[1..] == s1 + [c];
      ValueSnoc(s1, c);
      var d, p := DigitValue(s[0]), Pow10(|s1|);
      assert Value(s) == d * p + Value(s1);
      assert Value(t) == d * Pow10(|s|) + Value(s1 + [c]);
      assert Pow10(|s|) == 10 * p;
      ShiftDigit(d, p, Value(s1), DigitValue(c));
    } else {
      assert t[1..] == [];
    }
  }

  lemma DigitsSnoc(s: string, c: char)
    requires AllDigits(s) && IsDigit(c)
    ensures AllDigits(s + [c])
  {
    var t := s + [c];
    forall i | 0 <= i < |t| ensures IsDigit(t[i]) {
      if i < |s| { assert t[i] == s[i]; }
    }
  }

  lemma ShiftDigit(d: int, p: int, a: int, b: int)
    ensures d * (10 * p) + (10 * a + b) == 10 * (d * p + a) + b
  {
  }

  lemma {:induction false} ValueDecimal(n: nat)
    ensures Value(Decimal(n)) == n
  {
    if n >= 10 {
      ValueDecimal(n / 10);
      ValueSnoc(Decimal(n / 10), DigitChar(n % 10));
    } else {
      assert Decimal(n)[1..] == [];
    }
  }

  lemma {:induction false} ValueLeadingZeros(k: nat, s: string)
    requires AllDigits(s)
    ensures AllDigits(Zeros(k) + s) && Value(Zeros(k) + s) == Value(s)
  {
    var t := Zeros(k) + s;
    assert AllDigits(t) by {
      forall i | 0 <= i < |t| ensures IsDigit(t[i]) {
        if i >= k { assert t[i] == s[i - k]; }
      }
    }
    if k > 0 {
      assert t[0] == '0' && DigitValue(t[0]) == 0;
      assert t[1..] == Zeros(k - 1) + s;
      ValueLeadingZeros(k - 1, s);
      assert Value(t) == DigitValue(t[0]) * Pow10(|t| - 1) + Value(t[1..]);
    } else {
      assert t == s;
    }
  }

  lemma {:induction false} PowMonotone(a: nat, b: nat)
    requires a <= b
    ensures Pow10(a) <= Pow10(b)
  {
    if a < b { PowMonotone(a, b - 1); }
  }

  /** A number needs more than `k` digits only if it is at least 10^k. */
  lemma {:induction false} DecimalLength(n: nat)
    ensures n < Pow10(|Decimal(n)|)
    ensures |Decimal(n)| > 1 ==> Pow10(|Decimal(n)| - 1) <= n
  {
    ValueDecimal(n);
    ValueBound(Decimal(n));
    if n >= 10 {
      DecimalLength(n / 10);
      var k := |Decimal(n / 10)|;
      assert |Decimal(n)| == k + 1;
      if k > 1 {
        assert Pow10(k - 1) <= n / 10;
      } else {
        assert Pow10(k) == 10;
      }
    }
  }

  lemma PaddedValue(n: nat)
    ensures Value(Padded(n)) == n
  {
    var d := Decimal(n);
    ValueDecimal(n);
    if |d| < Width { ValueLeadingZeros(Width - |d|, d); }
  }

  /** Below 10^8 the digit field is exactly eight characters wide. */
  lemma PaddedWidth(n: nat)
    requires n < Pow10(Width)
    ensures |Padded(n)| == Width
  {
    DecimalLength(n);
    if |Decimal(n)| > Width {
      PowMonotone(Width, |Decimal(n)| - 1);
    }
  }

  /** Round trip: the number is read back from the name it was given. */
  lemma ParseFrameNameRoundTrip(prefix: string, n: nat)
    ensures ParseFrameName(prefix, FrameName(prefix, n)) == Some(n)
  {
    var name := FrameName(prefix, n);
    var digits := Padded(n);
    assert name[..|prefix|] == prefix;
    assert name[|name| - |Extension|..] == Extension;
    assert name[|prefix|..|name| - |Extension|] == digits;
    PaddedValue(n);
  }

  /** Distinct numbers give distinct names. */
  lemma FrameNameInjective(prefix: string, m: nat, n: nat)
    requires m != n
    ensures FrameName(prefix, m) != FrameName(prefix, n)
  {
    ParseFrameNameRoundTrip(prefix, m);
    ParseFrameNameRoundTrip(prefix, n);
  }

  // ---------------------------------------------------------------------------
  // Lexicographic order (byte, i.e. code-point, order, as Rust's `str` comparison)

  predicate LexLess(a: string, b: string)
  {
    if a == [] then b != []
    else if b == [] then false
    else a[0] < b[0] || (a[0] == b[0] && LexLess(a[1..], b[1..]))
  }

  lemma {:induction false} LexLessCommonPrefix(p: string, a: string, b: string)
    ensures LexLess(p + a, p + b) == LexLess(a, b)
  {
    if p != [] {
      assert (p + a)[1..] == p[1..] + a;
      assert (p + b)[1..] == p[1..] + b;
      LexLessCommonPrefix(p[1..], a, b);
    } else {
      assert p + a == a && p + b == b;
    }
  }

  lemma {:induction false} LexLessCommonSuffix(a: string, b: string, x: string)
    requires |a| == |b|
    ensures LexLess(a + x, b + x) == LexLess(a, b)
  {
    if a == [] {
      assert a + x == x && b + x == x;
      LexLessIrreflexive(x);
    } else {
      assert (a + x)[0] == a[0] && (b + x)[0] == b[0];
      assert (a + x)[1..] == a[1..] + x;
      assert (b + x)[1..] == b[1..] + x;
      LexLessCommonSuffix(a[1..], b[1..], x);
    }
  }

  lemma {:induction false} LexLessIrreflexive(a: string)
    ensures !LexLess(a, a)
  {
    if a != [] { LexLessIrreflexive(a[1..]); }
  }

  lemma LeadingDigitDecides(da: nat, db: nat, p: nat, x: nat, y: nat)
    requires da < db && x < p
    ensures da * p + x < db * p + y
  {
    MulMonotone(da + 1, db, p);
    assert (da + 1) * p == da * p + p;
  }


  /** On digit strings of one length, lexicographic order is numeric order. */
  lemma {:induction false} LexLessDigits(a: string, b: string)
    requires |a| == |b| && AllDigits(a) && AllDigits(b)
    ensures LexLess(a, b) <==> Value(a) < Value(b)
  {
    if a != [] {
      var p := Pow10(|a| - 1);
      var da, db := DigitValue(a[0]), DigitValue(b[0]);
      ValueBound(a[1..]);
      ValueBound(b[1..]);
      if a[0] < b[0] {
        LeadingDigitDecides(da, db, p, Value(a[1..]), Value(b[1..]));
      } else if a[0] > b[0] {
        LeadingDigitDecides(db, da, p, Value(b[1..]), Value(a[1..]));
      } else {
        LexLessDigits(a[1..], b[1..]);
      }
    }
  }

  /** While the sequence number stays below 10^8, a listing of the capture directory
      sorted by name is sorted by frame number. */
  lemma FrameNameOrder(prefix: string, m: nat, n: nat)
    requires m < Pow10(Width) && n < Pow10(Width)
    ensures LexLess(FrameName(prefix, m), FrameName(prefix, n)) <==> m < n
  {
    PaddedWidth(m);
    PaddedWidth(n);
    PaddedValue(m);
    PaddedValue(n);
    assert FrameName(prefix, m) == prefix + (Padded(m) + Extension);
    assert FrameName(prefix, n) == prefix + (Padded(n) + Extension);
    LexLessCommonPrefix(prefix, Padded(m) + Extension, Padded(n) + Extension);
    LexLessCommonSuffix(Padded(m), Padded(n), Extension);
    LexLessDigits(Padded(m), Padded(n));
  }

  /** From 10^8 on the names no longer sort numerically: frame 10^8 lists before frame 10^8 - 1. */
  lemma FrameNameOrderEndsAtEightDigits(prefix: string)
    ensures LexLess(FrameName(prefix, Pow10(Width)), FrameName(prefix, Pow10(Width) - 1))
  {
    var big, small := Pow10(Width), Pow10(Width) - 1;
    assert big == 100000000;
    assert Decimal(1) == "1";
    assert Decimal(10) == "10";
    assert Decimal(100) == "100";
    assert Decimal(1000) == "1000";
    assert Decimal(10000) == "10000";
    assert Decimal(100000) == "100000";
    assert Decimal(1000000) == "1000000";
    assert Decimal(10000000) == "10000000";
    assert Decimal(big) == "100000000";
    assert Decimal(9) == "9";
    assert Decimal(99) == "99";
    assert Decimal(999) == "999";
    assert Decimal(9999) == "9999";
    assert Decimal(99999) == "99999";
    assert Decimal(999999) == "999999";
    assert Decimal(9999999) == "9999999";
    assert Decimal(small) == "99999999";
    assert Padded(big) + Extension == "100000000.png";
    assert Padded(small) + Extension == "99999999.png";
    assert FrameName(prefix, big) == prefix + "100000000.png";
    assert FrameName(prefix, small) == prefix + "99999999.png";
    LexLessCommonPrefix(prefix, "100000000.png", "99999999.png");
  }
}
