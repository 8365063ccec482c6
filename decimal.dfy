/**
 * Decimal renderings of natural numbers: the array-index keys that
 * `Object.entries` produces ("0", "1", ...), the canonical index strings a
 * property access on an array accepts, and the zero-padded fields of the
 * output file-name prefix (`padStart` in JavaScript, `%02d`-style in Python).
 */
module Decimal {

  import opened Wrappers

  predicate IsDigit(c: char) { '0' <= c <= '9' }

  predicate AllDigits(s: string) { forall i :: 0 <= i < |s| ==> IsDigit(s[i]) }

  function DigitChar(d: nat): (c: char)
    requires d < 10
    ensures IsDigit(c) && (c as int) - ('0' as int) == d
  {
    (('0' as int) + d) as char
  }

  function DigitValue(c: char): (d: nat)
    requires IsDigit(c)
    ensures d < 10 && DigitChar(d) == c
  {
    (c as int) - ('0' as int)
  }

  /** The shortest decimal rendering of n, as `n.toString()` and `str(n)` give it. */
  function NatStr(n: nat): (s: string)
    ensures |s| >= 1 && AllDigits(s)
  {
    if n < 10 then [DigitChar(n)] else NatStr(n / 10) + [DigitChar(n % 10)]
  }

  /** The number a string of digits denotes (leading zeros allowed). */
  function Value(s: string): nat
    requires AllDigits(s)
  {
    if s == [] then 0 else Value(s[..|s| - 1]) * 10 + DigitValue(s[|s| - 1])
  }

  /** A non-empty digit string without a superfluous leading zero. */
  predicate Canonical(s: string)
  {
    |s| >= 1 && AllDigits(s) && (|s| == 1 || s[0] != '0')
  }

  /** The array index a property name denotes, if it is a canonical index string. */
  function ParseIndex(s: string): Option<nat>
  {
    if Canonical(s) then Some(Value(s)) else None
  }

  lemma {:induction false} ValueOfNatStr(n: nat)
    ensures Value(NatStr(n)) == n
  {
    if n >= 10 {
      var s := NatStr(n);
      assert s[..|s| - 1] == NatStr(n / 10);
      ValueOfNatStr(n / 10);
    }
  }

  lemma {:induction false} NatStrLeading(n: nat)
    ensures NatStr(n)[0] == '0' <==> n == 0
  {
    if n >= 10 {
      NatStrLeading(n / 10);
    }
  }

  lemma NatStrCanonical(n: nat)
    ensures Canonical(NatStr(n))
  {
    NatStrLeading(n);
  }

  lemma {:induction false} PositiveValue(s: string)
    requires Canonical(s) && s[0] != '0'
    ensures Value(s) > 0
  {
    if |s| > 1 {
      var p := s[..|s| - 1];
      assert p[0] == s[0];
      PositiveValue(p);
    }
  }

  lemma {:induction false} NatStrOfValue(s: string)
    requires Canonical(s)
    ensures NatStr(Value(s)) == s
  {
    if |s| > 1 {
      var p := s[..|s| - 1];
      assert p[0] == s[0];
      PositiveValue(p);
      NatStrOfValue(p);
      assert s == p + [s[|s| - 1]];
    }
  }

  /** Decimal rendering and index parsing are inverse to each other. */
  lemma ParseNatStr(n: nat)
    ensures ParseIndex(NatStr(n)) == Some(n)
  {
    NatStrCanonical(n);
    ValueOfNatStr(n);
  }

  lemma ParseIndexSound(s: string, n: nat)
    requires ParseIndex(s) == Some(n)
    ensures NatStr(n) == s
  {
    NatStrOfValue(s);
  }

  lemma NatStrInjective(m: nat, n: nat)
    requires NatStr(m) == NatStr(n)
    ensures m == n
  {
    ValueOfNatStr(m);
    ValueOfNatStr(n);
  }

  function Zeros(k: nat): (s: string)
    ensures |s| == k && AllDigits(s)
  {
    if k == 0 then [] else Zeros(k - 1) + ['0']
  }

  /** `n.toString().padStart(w, '0')`: zeros on the left up to width w, never truncated. */
  function Pad(n: nat, w: nat): (s: string)
    ensures AllDigits(s)
  {
    var digits := NatStr(n);
    if |digits| >= w then digits else Zeros(w - |digits|) + digits
  }

  function Pow10(k: nat): (p: nat)
    ensures p >= 1
  {
    if k == 0 then 1 else 10 * Pow10(k - 1)
  }

  lemma {:induction false} NatStrLength(n: nat, w: nat)
    requires 1 <= w && n < Pow10(w)
    ensures |NatStr(n)| <= w
  {
    if n >= 10 {
      NatStrLength(n / 10, w - 1);
    }
  }

  lemma {:induction false} ValueLeadingZeros(k: nat, s: string)
    requires AllDigits(s)
    ensures Value(Zeros(k) + s) == Value(s)
  {
    if s == [] {
      assert Zeros(k) + s == Zeros(k);
      ZerosValue(k);
    } else {
      var p := s[..|s| - 1];
      assert (Zeros(k) + s)[..|Zeros(k) + s| - 1] == Zeros(k) + p;
      ValueLeadingZeros(k, p);
    }
  }

  lemma {:induction false} ZerosValue(k: nat)
    ensures Value(Zeros(k)) == 0
  {
    if k > 0 {
      assert Zeros(k)[..k - 1] == Zeros(k - 1);
      ZerosValue(k - 1);
    }
  }

  /** A field padded to width w, when it fits, is exactly w digits long and reads back as n. */
  lemma {:induction false} PadRoundTrip(n: nat, w: nat)
    requires 1 <= w && n < Pow10(w)
    ensures |Pad(n, w)| == w && Value(Pad(n, w)) == n
  {
    NatStrLength(n, w);
    PadValue(n, w);
  }

  lemma PadValue(n: nat, w: nat)
    requires |NatStr(n)| <= w
    ensures |Pad(n, w)| == w && Value(Pad(n, w)) == n
  {
    var digits := NatStr(n);
    ValueOfNatStr(n);
    if |digits| < w {
      assert Pad(n, w) == Zeros(w - |digits|) + digits;
      ValueLeadingZeros(w - |digits|, digits);
    } else {
      assert Pad(n, w) == digits;
    }
  }
}
