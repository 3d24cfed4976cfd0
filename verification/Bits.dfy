/** Powers of two, bitwise or, and numbers as digit lists. */
module Bits {

  function Pow2(n: nat): (r: nat)
    ensures r >= 1
  {
    if n == 0 then 1 else 2 * Pow2(n - 1)
  }

  lemma {:induction false} Pow2Add(m: nat, n: nat)
    ensures Pow2(m + n) == Pow2(m) * Pow2(n)
  {
    if m > 0 { Pow2Add(m - 1, n); }
  }

  lemma WordBits()
    ensures Pow2(8) == 0x100 && Pow2(32) == 0x1_0000_0000
  {
    assert Pow2(4) == 16;
    Pow2Add(4, 4);
    Pow2Add(8, 8);
    Pow2Add(16, 16);
  }

  /** Bitwise or. */
  function Or(a: nat, b: nat): nat
    decreases a + b
  {
    if a == 0 && b == 0 then 0
    else (if a % 2 == 0 && b % 2 == 0 then 0 else 1) + 2 * Or(a / 2, b / 2)
  }

  lemma {:induction false} OrZero(a: nat)
    ensures Or(a, 0) == a && Or(0, a) == a
  {
    if a > 0 { OrZero(a / 2); }
  }

  /** Disjoint bit ranges: or is addition. */
  lemma {:induction false} OrDisjoint(a: nat, b: nat, n: nat)
    requires a < Pow2(n)
    ensures Or(a, b * Pow2(n)) == a + b * Pow2(n)
  {
    if n == 0 {
      OrZero(b);
    } else if a == 0 {
      OrZero(b * Pow2(n));
    } else {
      Halve(b, n);
      OrDisjoint(a / 2, b, n - 1);
      OrStep(a, b * Pow2(n));
    }
  }

  lemma Halve(b: nat, n: nat)
    requires n > 0
    ensures b * Pow2(n) == 2 * (b * Pow2(n - 1))
  {
  }

  lemma OrStep(a: nat, b: nat)
    ensures Or(a, b) == (if a % 2 == 0 && b % 2 == 0 then 0 else 1) + 2 * Or(a / 2, b / 2)
  {
  }

  // ----- masks and shifts -----------------------------------------------------------------

  /** The low b bits. */
  function Low(v: nat, b: nat): (r: nat)
    ensures r < Pow2(b)
  {
    v % Pow2(b)
  }

  /** v shifted right by b bits. */
  function High(v: nat, b: nat): (q: nat) {
    Quotient(v, Pow2(b));
    v / Pow2(b)
  }

  lemma Quotient(v: nat, m: nat)
    requires m > 0
    ensures v / m >= 0 && v == v % m + v / m * m
  {
  }

  lemma LowHigh(v: nat, b: nat)
    ensures v == Low(v, b) + High(v, b) * Pow2(b)
  {
    Quotient(v, Pow2(b));
  }

  /** The split into low and high part is unique. */
  lemma Split(low: nat, high: nat, b: nat)
    requires low < Pow2(b)
    ensures Low(low + high * Pow2(b), b) == low && High(low + high * Pow2(b), b) == high
  {
    var m := Pow2(b);
    var v := low + high * m;
    Quotient(v, m);
    SameQuotient(low, high, v % m, v / m, m);
  }

  lemma SameQuotient(r: int, q: nat, s: int, t: nat, m: nat)
    requires 0 <= r < m && 0 <= s < m && r + q * m == s + t * m
    ensures q == t && r == s
  {
    if q < t { Monotone(q + 1, t, m); OneMore(q, m); }
    if t < q { Monotone(t + 1, q, m); OneMore(t, m); }
  }

  lemma OneMore(a: nat, m: nat)
    ensures (a + 1) * m == a * m + m
  {
  }

  /** Shifting out bits shrinks the bound accordingly. */
  lemma HighFits(v: nat, b: nat, n: nat)
    requires b <= n && v < Pow2(n)
    ensures High(v, b) < Pow2(n - b)
  {
    Pow2Add(b, n - b);
    LowHigh(v, b);
    var q, m, k := High(v, b), Pow2(b), Pow2(n - b);
    if q >= k { Monotone(k, q, m); }
  }

  lemma Monotone(a: nat, b: nat, m: nat)
    requires a <= b
    ensures a * m <= b * m
  {
  }

  /** Shifting bits in above n bits. */
  lemma JoinFits(a: nat, c: nat, n: nat, b: nat)
    requires a < Pow2(n) && c < Pow2(b)
    ensures a + c * Pow2(n) < Pow2(n + b)
  {
    Pow2Add(b, n);
    Monotone(c + 1, Pow2(b), Pow2(n));
    OneMore(c, Pow2(n));
  }

  // ----- digits ---------------------------------------------------------------------------

  /** The number whose base-2^b digits, least significant first, are ds. */
  function FromDigits(ds: seq<nat>, b: nat): nat {
    if ds == [] then 0 else FromDigits(ds[..|ds| - 1], b) + ds[|ds| - 1] * Pow2(b * (|ds| - 1))
  }

  /** The first n base-2^b digits of v. */
  function Digits(v: nat, b: nat, n: nat): (ds: seq<nat>)
    ensures |ds| == n
  {
    if n == 0 then [] else Digits(v, b, n - 1) + [Low(High(v, b * (n - 1)), b)]
  }

  predicate AreDigits(ds: seq<nat>, b: nat) {
    forall i | 0 <= i < |ds| :: ds[i] < Pow2(b)
  }

  lemma FromDigitsSnoc(ds: seq<nat>, d: nat, b: nat)
    ensures FromDigits(ds + [d], b) == FromDigits(ds, b) + d * Pow2(b * |ds|)
  {
    assert (ds + [d])[..|ds|] == ds;
  }

  lemma {:induction false} FromDigitsFits(ds: seq<nat>, b: nat)
    requires AreDigits(ds, b)
    ensures FromDigits(ds, b) < Pow2(b * |ds|)
  {
    if ds != [] {
      var n := |ds| - 1;
      FromDigitsFits(ds[..n], b);
      Times(b, n);
      JoinFits(FromDigits(ds[..n], b), ds[n], b * n, b);
    }
  }

  /** Digits are read back from any number that continues them. */
  lemma {:induction false} DigitsUnique(ds: seq<nat>, b: nat, v: nat, rest: nat)
    requires AreDigits(ds, b) && v == FromDigits(ds, b) + rest * Pow2(b * |ds|)
    ensures Digits(v, b, |ds|) == ds
  {
    hide Low, High, Digits, FromDigits, Pow2;
    if ds == [] {
      assert Digits(v, b, |ds|) == ds;
    } else {
      var n, d := |ds| - 1, ds[|ds| - 1];
      var above := d + rest * Pow2(b);
      assert ds[..n] + [d] == ds;
      FromDigitsSnoc(ds[..n], d, b);
      Regroup(d, rest, b, n);
      DigitsUnique(ds[..n], b, v, above);
      FromDigitsFits(ds[..n], b);
      Split(FromDigits(ds[..n], b), above, b * n);
      Split(d, rest, b);
      DigitsStep(v, b, n);
    }
  }

  lemma DigitsStep(v: nat, b: nat, n: nat)
    ensures Digits(v, b, n + 1) == Digits(v, b, n) + [Low(High(v, b * n), b)]
  {
  }

  lemma NoDigits(ds: seq<nat>, b: nat)
    requires ds == []
    ensures FromDigits(ds, b) == 0
  {
  }

  lemma Peel(v: nat, m: nat, b: nat)
    ensures Low(v, m) + Low(High(v, m), b) * Pow2(m) == Low(v, b + m)
  {
    hide Low, High, Pow2;
    var q := High(v, m);
    LowHigh(v, m);
    LowHigh(q, b);
    JoinFits(Low(v, m), Low(q, b), m, b);
    Pow2Add(b, m);
    Distribute(Low(q, b), High(q, b), Pow2(b), Pow2(m));
    Split(Low(v, m) + Low(q, b) * Pow2(m), High(q, b), b + m);
  }

  lemma Regroup(d: nat, rest: nat, b: nat, n: nat)
    ensures d * Pow2(b * n) + rest * Pow2(b * (n + 1)) == (d + rest * Pow2(b)) * Pow2(b * n)
  {
    hide Pow2;
    Times(b, n);
    Pow2Add(b, b * n);
    Distribute(d, rest, Pow2(b), Pow2(b * n));
  }

  lemma Times(b: nat, n: nat)
    ensures b * (n + 1) == b + b * n
  {
  }

  lemma Distribute(d: nat, r: nat, p: nat, q: nat)
    ensures d * q + r * (p * q) == (d + r * p) * q
  {
    assert r * (p * q) == (r * p) * q;
  }
}
