/** Integer facts used by the word-level proofs: powers of two, bitwise or, floor division. */
module Arith {

  function Pow2(n: nat): (r: nat)
    ensures r > 0
  {
    if n == 0 then 1 else 2 * Pow2(n - 1)
  }

  lemma {:induction false} Pow2Adds(a: nat, b: nat)
    ensures Pow2(a + b) == Pow2(a) * Pow2(b)
  {
    if a > 0 {
      Pow2Adds(a - 1, b);
    }
  }

  lemma {:induction false} Pow2Grows(a: nat, b: nat)
    requires a <= b
    ensures Pow2(a) <= Pow2(b)
  {
    if a < b {
      Pow2Grows(a, b - 1);
    }
  }

  lemma Pow2Of64()
    ensures Pow2(64) == 0x1_0000_0000_0000_0000
  {
    assert Pow2(8) == 0x100;
    Pow2Adds(8, 8);
    Pow2Adds(16, 16);
    Pow2Adds(32, 32);
  }

  lemma Pow2Of128()
    ensures Pow2(128) == 0x1_0000_0000_0000_0000_0000_0000_0000_0000
  {
    Pow2Of64();
    Pow2Adds(64, 64);
  }

  lemma Pow2Of127()
    ensures Pow2(127) == 0x8000_0000_0000_0000_0000_0000_0000_0000
  {
    Pow2Of128();
    Pow2Adds(1, 127);
  }

  lemma MulMono(a: int, b: int, c: int)
    requires a <= b && c >= 0
    ensures a * c <= b * c
  {
  }

  /** A non-zero multiple of d is at least d away from zero. */
  lemma MulFar(k: int, d: int)
    requires d > 0
    ensures k >= 1 ==> k * d >= d
    ensures k <= -1 ==> k * d <= -d
  {
    if k >= 1 {
      MulMono(1, k, d);
    } else if k <= -1 {
      MulMono(k, -1, d);
    }
  }

  /** q and r are the quotient and remainder of n by d. */
  lemma DivModUnique(n: int, d: int, q: int, r: int)
    requires d > 0 && n == q * d + r && 0 <= r < d
    ensures n / d == q && n % d == r
  {
    MulFar(q - n / d, d);
    assert (q - n / d) * d == q * d - (n / d) * d;
  }

  /** The bounds that pin a floor down. */
  lemma FloorBounds(n: int, d: int)
    requires d > 0
    ensures (n / d) * d <= n < (n / d) * d + d
  {
    MulCommutes(n / d, d);
  }

  /** Integer division as Rust and BigInt do it: toward zero. */
  function TruncDiv(a: int, b: int): int
    requires b > 0
  {
    if a >= 0 then a / b else -((-a) / b)
  }

  /** n / d is the greatest q with q * d <= n. */
  lemma FloorIsGreatest(n: int, d: int, q: int)
    requires d > 0
    ensures q <= n / d <==> q * d <= n
  {
    MulFar(q - n / d, d);
    assert (q - n / d) * d == q * d - (n / d) * d;
    MulFar(n / d - q, d);
    assert (n / d - q) * d == (n / d) * d - q * d;
  }

  lemma DivDiv(n: nat, a: int, b: int)
    requires a > 0 && b > 0
    ensures a * b > 0 && (n / a) / b == n / (a * b)
  {
    var q, r := n / a, n % a;
    var q2, r2 := q / b, q % b;
    assert n == (q2 * b + r2) * a + r == q2 * (a * b) + (r2 * a + r) by {
      assert (q2 * b + r2) * a == q2 * (a * b) + r2 * a;
    }
    assert r2 * a + r < a * b by {
      MulMono(r2, b - 1, a);
    }
    DivModUnique(n, a * b, q2, r2 * a + r);
  }

  lemma DivShrinks(n: nat, d: int)
    requires d > 0
    ensures 0 <= n / d <= n && 0 <= n % d < d
  {
    FloorIsGreatest(n, d, 0);
    FloorIsGreatest(n, d, n + 1);
    MulMono(1, d, n + 1);
    assert (n + 1) * d == d * (n + 1);
  }

  lemma MulDistributes(a: int, b: int, c: int)
    ensures (a + b) * c == a * c + b * c
  {
  }

  lemma MulCommutes(a: int, b: int)
    ensures a * b == b * a
  {
  }

  lemma MulAssociates(a: int, b: int, c: int)
    ensures (a * b) * c == a * (b * c) == b * (a * c)
  {
  }

  /** Multiplying a by p inside a word of size p * q: the top a / q crosses out of the word. */
  lemma ShiftSplits(a: nat, p: nat, q: nat)
    requires p > 0 && q > 0 && a < p * q
    ensures a * p == (a / q) * (p * q) + (a % q) * p
    ensures (a * p) % (p * q) == (a % q) * p
    ensures (a % q) * p <= p * q - p
    ensures 0 <= a / q < p
  {
    var h, l := a / q, a % q;
    MulDistributes(h * q, l, p);
    MulAssociates(h, q, p);
    MulMono(l, q - 1, p);
    MulDistributes(q, -1, p);
    DivModUnique(a * p, p * q, h, l * p);
    FloorIsGreatest(a, q, p);
  }

  /** Dividing a two-digit number by p: the upper digit's remainder moves down by q. */
  lemma ShrTwoDigits(lo: nat, hi: nat, p: nat, q: nat)
    requires p > 0 && q > 0
    ensures (lo + hi * (p * q)) / p == lo / p + (hi % p) * q + (hi / p) * (p * q)
  {
    var g, h, l := lo / p, hi / p, hi % p;
    var w := p * q;
    assert hi * w == (h * w) * p + (l * q) * p by {
      MulDistributes(h * p, l, w);
      MulAssociates(h, p, w);
      MulAssociates(p, h, w);
      MulAssociates(l, q, p);
    }
    MulDistributes(g + l * q, h * w, p);
    MulDistributes(g, l * q, p);
    DivModUnique(lo + hi * w, p, g + l * q + h * w, lo % p);
  }

  lemma MultipleMod(v: nat, w: nat, m: nat)
    requires w > 0
    ensures (v * (w * m)) % w == 0
  {
    MulAssociates(w, m, v);
    DivModUnique(v * (w * m), w, v * m, 0);
  }

  /** Rust's bitwise or of two unsigned words, bit by bit. */
  function BitOr(a: nat, b: nat): (r: nat)
    decreases a + b
  {
    if a == 0 then b
    else if b == 0 then a
    else 2 * BitOr(a / 2, b / 2) + (if a % 2 == 1 || b % 2 == 1 then 1 else 0)
  }

  lemma {:induction false} BitOrCommutes(a: nat, b: nat)
    ensures BitOr(a, b) == BitOr(b, a)
    decreases a + b
  {
    if a != 0 && b != 0 {
      BitOrCommutes(a / 2, b / 2);
    }
  }

  /** With no bit in common, or is addition. */
  lemma {:induction false} BitOrDisjoint(a: nat, b: nat, k: nat)
    requires a % Pow2(k) == 0 && b < Pow2(k)
    ensures BitOr(a, b) == a + b
    decreases k
  {
    if a != 0 && b != 0 {
      assert k > 0;
      var p := Pow2(k - 1);
      var m := a / Pow2(k);
      assert a == m * Pow2(k) == 2 * (m * p);
      assert a / 2 == m * p;
      DivModUnique(a / 2, p, m, 0);
      BitOrDisjoint(a / 2, b / 2, k - 1);
    }
  }

  /** Bit i of a number is not set. */
  predicate BitClear(x: nat, i: nat) {
    (x / Pow2(i)) % 2 == 0
  }

  /** Adding an even multiple of p changes no parity at p. */
  lemma ParityAbove(x: nat, y: nat, p: nat, m: nat)
    requires p > 0
    ensures ((x + y * (p * (2 * m))) / p) % 2 == (x / p) % 2
  {
    var k := m * y;
    MulAssociates(y, p, 2 * m);
    MulAssociates(2, m, y);
    MulCommutes(2 * m, y);
    MulCommutes(p, y * (2 * m));
    MulDistributes(x / p, 2 * k, p);
    MulCommutes(p, 2 * k);
    DivModUnique(x + y * (p * (2 * m)), p, x / p + 2 * k, x % p);
    Halves(x / p, k);
  }

  lemma Halves(a: int, k: int)
    ensures (a + 2 * k) % 2 == a % 2
  {
  }

  /** Or with a single bit sets it if it is clear, and changes nothing otherwise. */
  lemma {:induction false} BitOrSets(x: nat, i: nat)
    ensures BitOr(x, Pow2(i)) == if BitClear(x, i) then x + Pow2(i) else x
    decreases i
  {
    if i == 0 {
      assert x == 2 * (x / 2) + x % 2;
    } else if x > 0 {
      BitOrSets(x / 2, i - 1);
      DivDiv(x, 2, Pow2(i - 1));
    } else {
      DivModUnique(0, Pow2(i), 0, 0);
    }
  }

  /** A number without a bit up to i has bit i clear. */
  lemma MultipleIsClear(x: nat, i: nat)
    requires x % Pow2(i + 1) == 0
    ensures BitClear(x, i)
  {
    var m, p := x / Pow2(i + 1), Pow2(i);
    MulAssociates(2, p, m);
    MulAssociates(2, m, p);
    MulCommutes(p, m);
    MulCommutes(Pow2(i + 1), m);
    DivModUnique(x, p, 2 * m, 0);
  }

  lemma {:induction false} BitOrBound(a: nat, b: nat, k: nat)
    requires a < Pow2(k) && b < Pow2(k)
    ensures BitOr(a, b) < Pow2(k)
    decreases k
  {
    if a != 0 && b != 0 {
      BitOrBound(a / 2, b / 2, k - 1);
    }
  }

  /** Number of significant bits; 128 - BitLen(x) is Rust's leading_zeros on u128. */
  function BitLen(x: nat): (n: nat)
    ensures x < Pow2(n)
    ensures x > 0 ==> n > 0 && Pow2(n - 1) <= x
  {
    if x == 0 then 0 else 1 + BitLen(x / 2)
  }

  lemma BitLenBound(x: nat, k: nat)
    ensures x < Pow2(k) <==> BitLen(x) <= k
  {
    if BitLen(x) <= k {
      Pow2Grows(BitLen(x), k);
    } else {
      Pow2Grows(k, BitLen(x) - 1);
    }
  }

  lemma TwoDigitBounds(hi: nat, lo: nat, p: nat, a: nat, b: nat)
    requires a <= hi < b && lo < p
    ensures a * p <= hi * p + lo < b * p
  {
    MulMono(a, hi, p);
    MulMono(hi + 1, b, p);
    assert (hi + 1) * p == hi * p + p;
  }

  /** The length of a two-digit number whose upper digit is not zero. */
  lemma BitLenHigh(hi: nat, lo: nat, k: nat)
    requires hi > 0 && lo < Pow2(k)
    ensures BitLen(hi * Pow2(k) + lo) == BitLen(hi) + k
  {
    var n, x := BitLen(hi), hi * Pow2(k) + lo;
    TwoDigitBounds(hi, lo, Pow2(k), Pow2(n - 1), Pow2(n));
    Pow2Adds(n, k);
    Pow2Adds(n - 1, k);
    BitLenBound(x, n + k);
    BitLenBound(x, n - 1 + k);
  }
}
