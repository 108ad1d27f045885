/** Decimal renderings used by the logger's printf formats: "%u"/"%llu"
    (shortest digits), "%0Nd"/"%03u" (zero padded) and "%d" (signed). */
module Decimal {

  function Pow10(k: nat): (p: nat)
    ensures p >= 1
  {
    if k == 0 then 1 else 10 * Pow10(k - 1)
  }

  function DigitChar(d: nat): (c: char)
    requires d < 10
  {
    ('0' as int + d) as char
  }

  predicate IsDigits(s: string) {
    forall i :: 0 <= i < |s| ==> '0' <= s[i] <= '9'
  }

  /** "%u": the shortest decimal text of n (no leading zero, "0" for zero). */
  function Text(n: nat): (s: string)
    decreases n
  {
    if n < 10 then [DigitChar(n)] else Text(n / 10) + [DigitChar(n % 10)]
  }

  /** The value a string of digits denotes; the inverse of Text. */
  function Value(s: string): nat
    requires IsDigits(s)
  {
    if s == [] then 0 else 10 * Value(s[..|s| - 1]) + (s[|s| - 1] as int - '0' as int)
  }

  function Zeros(k: nat): (z: string)
    ensures |z| == k
  {
    if k == 0 then [] else Zeros(k - 1) + ['0']
  }

  /** "%0wu" for a non-negative value: at least w digits, zero padded on the left. */
  function Padded(n: nat, w: nat): string {
    var t := Text(n);
    if |t| >= w then t else Zeros(w - |t|) + t
  }

  /** "%d": a minus sign in front of the magnitude of a negative value. */
  function Signed(i: int): string {
    if i < 0 then "-" + Text(-i) else Text(i)
  }

  /** Text renders only digits, never starts with a superfluous zero,
      and reading it back gives n. */
  lemma {:induction false} TextRoundTrip(n: nat)
    ensures IsDigits(Text(n)) && |Text(n)| >= 1
    ensures Value(Text(n)) == n
    ensures |Text(n)| > 1 ==> Text(n)[0] != '0'
    decreases n
  {
    if n >= 10 {
      TextRoundTrip(n / 10);
      var t := Text(n);
      assert t[..|t| - 1] == Text(n / 10);
    }
  }

  /** A value below 10^k needs at most k digits (and at least one). */
  lemma {:induction false} TextLength(n: nat, k: nat)
    requires 1 <= k && n < Pow10(k)
    ensures 1 <= |Text(n)| <= k
    decreases n
  {
    if n >= 10 {
      TextLength(n / 10, k - 1);
    }
  }

  lemma {:induction false} ZerosDigits(k: nat)
    ensures IsDigits(Zeros(k)) && Value(Zeros(k)) == 0
  {
    if k > 0 {
      ZerosDigits(k - 1);
      assert Zeros(k)[..k - 1] == Zeros(k - 1);
    }
  }

  /** Appending digits on the right: the value of a concatenation. */
  lemma {:induction false} ValueAppend(a: string, b: string)
    requires IsDigits(a) && IsDigits(b)
    ensures IsDigits(a + b) && Value(a + b) == Value(a) * Pow10(|b|) + Value(b)
    decreases |b|
  {
    assert IsDigits(a + b);
    if b != [] {
      var b' := b[..|b| - 1];
      var d := b[|b| - 1] as int - '0' as int;
      assert (a + b)[..|a + b| - 1] == a + b';
      assert b[..|b| - 1] == b';
      ValueAppend(a, b');
      assert Value(a + b) == 10 * Value(a + b') + d;
      assert Value(b) == 10 * Value(b') + d;
      MulShift(Value(a), Pow10(|b'|));
    } else {
      assert a + b == a;
    }
  }

  lemma MulShift(x: nat, p: nat)
    ensures 10 * (x * p) == x * (10 * p)
  {
  }

  /** "%0wu" of a value below 10^w is exactly w digits denoting that value. */
  lemma PaddedExact(n: nat, w: nat)
    requires 1 <= w && n < Pow10(w)
    ensures |Padded(n, w)| == w && IsDigits(Padded(n, w)) && Value(Padded(n, w)) == n
  {
    TextLength(n, w);
    TextRoundTrip(n);
    var t := Text(n);
    if |t| < w {
      ZerosDigits(w - |t|);
      ValueAppend(Zeros(w - |t|), t);
    }
  }

  lemma {:induction false} Pow10Add(a: nat, b: nat)
    ensures Pow10(a + b) == Pow10(a) * Pow10(b)
    decreases a
  {
    if a > 0 {
      Pow10Add(a - 1, b);
    }
  }

  /** A uint64 thread id has at most 20 decimal digits. */
  lemma Uint64Digits(n: nat)
    requires n < 0x1_0000_0000_0000_0000
    ensures 1 <= |Text(n)| <= 20
  {
    assert Pow10(5) == 100000;
    Pow10Add(5, 5);
    Pow10Add(10, 10);
    TextLength(n, 20);
  }

  /** "%d" of a 32-bit int takes at most 11 characters. */
  lemma SignedInt32Length(i: int)
    requires -0x8000_0000 <= i < 0x8000_0000
    ensures 1 <= |Signed(i)| <= 11
  {
    assert Pow10(5) == 100000;
    Pow10Add(5, 5);
    TextLength(if i < 0 then -i else i, 10);
  }
}
