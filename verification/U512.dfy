/**
 * The private 512-bit intermediate of crates/engine/src/wide_math.rs: four 128-bit limbs,
 * least significant first. Its shifts, subtraction and comparison are loops over the limbs.
 */
module Uint512 {
  import opened Wrappers
  import opened Arith
  import opened Words
  import opened Uint256
  import opened Division

  const W384: int := W256 * W128
  const W512: int := W256 * W256

  type Limbs = s: seq<u128> | |s| == 4 witness [0, 0, 0, 0]

  function LimbsValue(w: Limbs): (v: int)
    ensures 0 <= v < W512
  {
    w[0] + w[1] * W128 + w[2] * W256 + w[3] * W384
  }

  datatype U512 = U512(w: Limbs) {
    static const ZERO := U512([0, 0, 0, 0])

    static function FromU256(v: U256): (r: U512)
      ensures r.Value() == v.Value()
    {
      U512([v.Lo(), v.Hi(), 0, 0])
    }

    function Value(): (v: int)
      ensures 0 <= v < W512
    {
      LimbsValue(w)
    }

    predicate IsZero()
      ensures IsZero() <==> Value() == 0
    {
      w[0] == 0 && w[1] == 0 && w[2] == 0 && w[3] == 0
    }

    function TryIntoU256(): (r: Option<U256>)
      ensures r.Some? <==> Value() < W256
      ensures r.Some? ==> r.value.Value() == Value()
    {
      if w[2] != 0 || w[3] != 0 then None else Some(U256.New(w[0], w[1]))
    }

    /** set_bit. */
    function SetBit(bit: nat): (r: U512) {
      if bit >= 512 then this
      else U512(w[bit / 128 := Or(w[bit / 128], Shl(1, bit % 128))])
    }
  }

  // ---------- multiplication ----------

  lemma ProductBound(a: int, b: int)
    requires 0 <= a < W256 && 0 <= b < W256
    ensures 0 <= a * b < W512
  {
    TwoDigitBounds(a, 0, b + 1, 0, W256);
    MulMono(0, a, b);
    assert a * (b + 1) == a * b + a;
  }

  /** Adds the four partial products column by column, carrying into the next limb. */
  function AddColumns(c0: u128, x: (u128, u128), y: (u128, u128), z: (u128, u128)): (r: (u128, u128, int))
    ensures r.0 * W128 + r.1 * W256 + r.2 * W384
         == (c0 + x.0 + y.0) * W128 + (x.1 + y.1 + z.0) * W256 + z.1 * W384
    ensures r.2 >= 0
  {
    var (s1, carry1a) := OverflowingAdd(c0, x.0);
    var (r1, carry1b) := OverflowingAdd(s1, y.0);
    var carry1 := Bit(carry1a) + Bit(carry1b);
    var (s2, carry2a) := OverflowingAdd(x.1, y.1);
    var (t2, carry2b) := OverflowingAdd(s2, z.0);
    var (r2, carry2c) := OverflowingAdd(t2, carry1);
    var carry2 := Bit(carry2a) + Bit(carry2b) + Bit(carry2c);
    (r1, r2, z.1 + carry2)
  }

  /** The schoolbook columns add up to the product, and the top one fits its limb. */
  lemma ColumnsAreProduct(a: (u128, u128), b: (u128, u128))
    ensures var (r0, c0) := WideningMul(a.0, b.0);
            var r := AddColumns(c0, WideningMul(a.0, b.1), WideningMul(a.1, b.0), WideningMul(a.1, b.1));
            r0 + r.0 * W128 + r.1 * W256 + r.2 * W384 == PairValue(a) * PairValue(b) && r.2 < W128
  {
    hide WideningMul, AddColumns;
    PairProduct(a, b);
    ProductBound(PairValue(a), PairValue(b));
  }

  /** mul_u256: the exact 512-bit product; the last addition r3 = z3 + carry2 cannot overflow. */
  function MulU256(a: U256, b: U256): (r: U512)
    ensures r.Value() == a.Value() * b.Value()
  {
    ColumnsAreProduct(a.Pair(), b.Pair());
    var (r0, c0) := WideningMul(a.Lo(), b.Lo());
    var r := AddColumns(c0, WideningMul(a.Lo(), b.Hi()), WideningMul(a.Hi(), b.Lo()), WideningMul(a.Hi(), b.Hi()));
    U512([r0, r.0, r.1, r.2])
  }

  // ---------- comparison and length ----------

  lemma TopLimbDecides(a: Limbs, b: Limbs, i: nat)
    requires i < 4 && a[i] < b[i] && forall k :: i < k < 4 ==> a[k] == b[k]
    ensures LimbsValue(a) < LimbsValue(b)
  {
    assert i == 0 || i == 1 || i == 2 || i == 3;
  }

  /** cmp_u512: from the top limb down, the first difference decides. */
  method CmpU512(a: U512, b: U512) returns (o: Ordering)
    ensures o == Compare(a.Value(), b.Value())
  {
    var i := 3;
    while i >= 0
      invariant -1 <= i <= 3
      invariant forall k :: i < k < 4 ==> a.w[k] == b.w[k]
    {
      if a.w[i] != b.w[i] {
        if a.w[i] < b.w[i] {
          TopLimbDecides(a.w, b.w, i);
          return Less;
        }
        TopLimbDecides(b.w, a.w, i);
        return Greater;
      }
      i := i - 1;
    }
    assert a.w == b.w;
    return Equal;
  }

  /** The length of a number whose limbs above i are zero and whose limb i is not. */
  lemma LimbsLength(w: Limbs, i: nat)
    requires i < 4 && w[i] != 0 && forall k :: i < k < 4 ==> w[k] == 0
    ensures BitLen(LimbsValue(w)) == BitLen(w[i]) + 128 * i
  {
    hide BitLen;
    if i == 1 {
      LengthAbove(w[1], w[0]);
    } else if i == 2 {
      LengthOfThree(w[0], w[1], w[2]);
    } else if i == 3 {
      LengthOfFour(w[0], w[1], w[2], w[3]);
    }
  }

  lemma LengthOfThree(a: u128, b: u128, c: u128)
    requires c != 0
    ensures BitLen(a + b * W128 + c * W256) == BitLen(c) + 256
  {
    hide BitLen;
    LengthAbove(c, b);
    LengthAbove(c * W128 + b, a);
    assert a + b * W128 + c * W256 == (c * W128 + b) * W128 + a;
  }

  lemma LengthOfFour(a: u128, b: u128, c: u128, d: u128)
    requires d != 0
    ensures BitLen(a + b * W128 + c * W256 + d * W384) == BitLen(d) + 384
  {
    hide BitLen;
    LengthOfThree(b, c, d);
    LengthAbove(b + c * W128 + d * W256, a);
    assert a + b * W128 + c * W256 + d * W384 == (b + c * W128 + d * W256) * W128 + a;
  }

  lemma LengthAbove(hi: nat, lo: u128)
    requires hi > 0
    ensures BitLen(hi * W128 + lo) == BitLen(hi) + 128
  {
    Pow2Of128();
    BitLenHigh(hi, lo, 128);
  }

  /** leading_zeros. */
  method LeadingZerosU512(v: U512) returns (n: nat)
    ensures n + BitLen(v.Value()) == 512
  {
    var i := 3;
    while i >= 0
      invariant -1 <= i <= 3
      invariant forall k :: i < k < 4 ==> v.w[k] == 0
    {
      if v.w[i] != 0 {
        LimbsLength(v.w, i);
        return (3 - i) * 128 + LeadingZeros(v.w[i]);
      }
      i := i - 1;
    }
    return 512;
  }

  // ---------- subtraction ----------

  function Weight(i: nat): (r: int)
    requires i <= 4
  {
    if i == 0 then 1 else if i == 1 then W128 else if i == 2 then W256 else if i == 3 then W384 else W512
  }

  function LowValue(w: seq<u128>, n: nat): int
    requires n <= |w| == 4
  {
    if n == 0 then 0 else LowValue(w, n - 1) + w[n - 1] * Weight(n - 1)
  }

  lemma LowValueAll(w: Limbs)
    ensures LowValue(w, 4) == LimbsValue(w)
  {
    assert LowValue(w, 1) == w[0];
    assert LowValue(w, 2) == w[0] + w[1] * W128;
    assert LowValue(w, 3) == LowValue(w, 2) + w[2] * W256;
  }

  lemma LowValueFrame(w: seq<u128>, v: seq<u128>, n: nat)
    requires n <= |w| == |v| == 4 && forall k :: 0 <= k < n ==> w[k] == v[k]
    ensures LowValue(w, n) == LowValue(v, n)
  {
  }

  /** One limb of the borrow chain. */
  lemma BorrowStep(n: nat, x: int, y: int, d: int, borrowIn: int, borrowOut: int)
    requires n < 4 && d - borrowOut * W128 == x - y - borrowIn
    ensures d * Weight(n) - borrowOut * Weight(n + 1) == x * Weight(n) - y * Weight(n) - borrowIn * Weight(n)
  {
    assert n == 0 || n == 1 || n == 2 || n == 3;
  }

  /** sub_u512: the exact difference when the subtrahend is not larger. */
  method SubU512(a: U512, b: U512) returns (r: U512)
    requires b.Value() <= a.Value()
    ensures r.Value() == a.Value() - b.Value()
  {
    var result := new u128[4](_ => 0);
    var borrow := false;
    var i := 0;
    while i < 4
      invariant 0 <= i <= 4
      invariant LowValue(result[..], i) - Bit(borrow) * Weight(i) == LowValue(a.w, i) - LowValue(b.w, i)
    {
      var (d1, b1) := OverflowingSub(a.w[i], b.w[i]);
      var (d2, b2) := OverflowingSub(d1, Bit(borrow));
      ghost var before := result[..];
      BorrowStep(i, a.w[i], b.w[i], d2, Bit(borrow), Bit(b1 || b2));
      result[i] := d2;
      LowValueFrame(before, result[..], i);
      borrow := b1 || b2;
      i := i + 1;
    }
    r := U512(result[..]);
    LowValueAll(a.w);
    LowValueAll(b.w);
    LowValueAll(r.w);
  }

  // ---------- shifts ----------

  /** Limb i of the word-and-bit left shift. */
  function ShlLimb(w: Limbs, words: nat, bits: nat, i: nat): u128
    requires i < 4 && bits < 128
  {
    if i < words then 0
    else if bits > 0 && i > words then Or(Shl(w[i - words], bits), Shr(w[i - words - 1], 128 - bits))
    else Shl(w[i - words], bits)
  }

  /** Limb i of the word-and-bit right shift. */
  function ShrLimb(w: Limbs, words: nat, bits: nat, i: nat): u128
    requires i < 4 && bits < 128
  {
    if i + words >= 4 then 0
    else if bits > 0 && i + words + 1 < 4 then Or(Shr(w[i + words], bits), Shl(w[i + words + 1], 128 - bits))
    else Shr(w[i + words], bits)
  }

  function ShlAll(w: Limbs, words: nat, bits: nat): Limbs
    requires bits < 128
  {
    [ShlLimb(w, words, bits, 0), ShlLimb(w, words, bits, 1), ShlLimb(w, words, bits, 2), ShlLimb(w, words, bits, 3)]
  }

  function ShrAll(w: Limbs, words: nat, bits: nat): Limbs
    requires bits < 128
  {
    [ShrLimb(w, words, bits, 0), ShrLimb(w, words, bits, 1), ShrLimb(w, words, bits, 2), ShrLimb(w, words, bits, 3)]
  }

  /** Moving up by whole words multiplies by a power of 2^128 modulo 2^512. */
  lemma WordsUp(w: Limbs, words: nat)
    requires words < 4
    ensures LimbsValue(ShlAll(w, words, 0)) == (LimbsValue(w) * Weight(words)) % W512
  {
    var moved := ShlAll(w, words, 0);
    assert moved == if words == 0 then w else if words == 1 then [0, w[0], w[1], w[2]]
                    else if words == 2 then [0, 0, w[0], w[1]] else [0, 0, 0, w[0]] by {
      assert forall x: u128 :: Shl(x, 0) == x;
    }
    hide ShlLimb, ShlAll;
    var v := LimbsValue(w);
    if words == 0 {
      DivModUnique(v, W512, 0, v);
    } else if words == 1 {
      DivModUnique(v * W128, W512, w[3], LimbsValue(moved));
    } else if words == 2 {
      DivModUnique(v * W256, W512, w[2] + w[3] * W128, LimbsValue(moved));
    } else {
      DivModUnique(v * W384, W512, w[1] + w[2] * W128 + w[3] * W256, LimbsValue(moved));
    }
  }

  /** A shift by fewer than 128 bits multiplies by a power of two; the top bits fall out. */
  lemma BitsUp(w: Limbs, bits: nat)
    requires 0 < bits < 128
    ensures LimbsValue(w) * Pow2(bits) == LimbsValue(ShlAll(w, 0, bits)) + Shr(w[3], 128 - bits) * W512
  {
    hide *;
    var c, r := 128 - bits, ShlAll(w, 0, bits);
    LowLimbUp(w, bits);
    LimbUp(w, bits, 1);
    LimbUp(w, bits, 2);
    LimbUp(w, bits, 3);
    ShlAllLimbs(w, 0, bits, 0);
    ShlAllLimbs(w, 0, bits, 1);
    ShlAllLimbs(w, 0, bits, 2);
    ShlAllLimbs(w, 0, bits, 3);
    UpSum(w, r, Shr(w[0], c), Shr(w[1], c), Shr(w[2], c), Shr(w[3], c), Pow2(bits));
  }

  lemma UpSum(w: Limbs, r: Limbs, t0: int, t1: int, t2: int, t3: int, p: nat)
    requires r[0] + t0 * W128 == w[0] * p
    requires r[1] + t1 * W128 == w[1] * p + t0
    requires r[2] + t2 * W128 == w[2] * p + t1
    requires r[3] + t3 * W128 == w[3] * p + t2
    ensures LimbsValue(w) * p == LimbsValue(r) + t3 * W512
  {
    FourDigitsTimes(w[0], w[1], w[2], w[3], p);
  }

  lemma ShlAllLimbs(w: Limbs, words: nat, bits: nat, i: nat)
    requires bits < 128 && i < 4
    ensures ShlAll(w, words, bits)[i] == ShlLimb(w, words, bits, i)
  {
  }

  lemma LowLimbUp(w: Limbs, bits: nat)
    requires 0 < bits < 128
    ensures ShlLimb(w, 0, bits, 0) + Shr(w[0], 128 - bits) * W128 == w[0] * Pow2(bits)
  {
    ShlSplits(w[0], bits, 128 - bits);
  }

  lemma LimbUp(w: Limbs, bits: nat, i: nat)
    requires 0 < bits < 128 && 0 < i < 4
    ensures ShlLimb(w, 0, bits, i) + Shr(w[i], 128 - bits) * W128 == w[i] * Pow2(bits) + Shr(w[i - 1], 128 - bits)
  {
    ShlSplits(w[i], bits, 128 - bits);
    OrShifted(w[i], w[i - 1], bits, 128 - bits);
  }

  lemma FourDigitsTimes(a: int, b: int, c: int, d: int, p: int)
    ensures (a + b * W128 + c * W256 + d * W384) * p == a * p + (b * p) * W128 + (c * p) * W256 + (d * p) * W384
  {
    MulDistributes(a + b * W128 + c * W256, d * W384, p);
    MulDistributes(a + b * W128, c * W256, p);
    MulDistributes(a, b * W128, p);
    MulAssociates(b, W128, p);
    MulAssociates(c, W256, p);
    MulAssociates(d, W384, p);
  }

  lemma WeightIsPow2(words: nat)
    requires words < 4
    ensures Weight(words) == Pow2(128 * words)
  {
    Pow2Of128();
    if words == 2 {
      Pow2Adds(128, 128);
    } else if words == 3 {
      Pow2Adds(128, 128);
      Pow2Adds(256, 128);
    }
  }

  lemma DropMultiple(v: int, top: int, weight: nat, m: int)
    requires m > 0
    ensures ((v - top * m) * weight) % m == (v * weight) % m
  {
    var q, r := (v * weight) / m, (v * weight) % m;
    MulDistributes(v, -(top * m), weight);
    MulAssociates(top, m, weight);
    MulAssociates(m, top, weight);
    MulDistributes(q, -(top * weight), m);
    MulCommutes(top * weight, m);
    DivModUnique((v - top * m) * weight, m, q - top * weight, r);
  }

  lemma ShlAllSplits(w: Limbs, words: nat, bits: nat)
    requires words < 4 && bits < 128
    ensures ShlAll(w, words, bits) == ShlAll(ShlAll(w, 0, bits), words, 0)
  {
    assert forall x: u128 :: Shl(x, 0) == x;
    assert words == 0 || words == 1 || words == 2 || words == 3;
  }

  /** A left shift multiplies by a power of two modulo 2^512. */
  lemma ShlAllIsMul(w: Limbs, words: nat, bits: nat)
    requires words < 4 && bits < 128
    ensures LimbsValue(ShlAll(w, words, bits)) == (LimbsValue(w) * Pow2(128 * words + bits)) % W512
  {
    hide *;
    var v, low, weight := LimbsValue(w), ShlAll(w, 0, bits), Weight(words);
    ShlAllSplits(w, words, bits);
    WordsUp(low, words);
    WeightIsPow2(words);
    Pow2Adds(128 * words, bits);
    MulAssociates(v, Pow2(bits), weight);
    MulCommutes(Pow2(bits), weight);
    if bits == 0 {
      NoBits(w);
    } else {
      BitsUp(w, bits);
      NoBits(w);
      DropMultiple(v * Pow2(bits), Shr(w[3], 128 - bits), weight, W512);
    }
  }

  lemma NoBits(w: Limbs)
    ensures ShlAll(w, 0, 0) == ShrAll(w, 0, 0) == w && Pow2(0) == 1 && W512 > 0
  {
    assert forall x: u128 :: Shl(x, 0) == Shr(x, 0) == x;
  }

  /** What limb i of a right shift weighs: its own quotient and the next limb's remainder. */
  lemma LimbDown(w: Limbs, bits: nat, i: nat)
    requires 0 < bits < 128 && i < 3
    ensures ShrLimb(w, 0, bits, i) * Pow2(bits)
         == w[i] - w[i] % Pow2(bits) + (w[i + 1] % Pow2(bits)) * W128
  {
    var q := Pow2(128 - bits);
    assert ShrLimb(w, 0, bits, i) == w[i] / Pow2(bits) + (w[i + 1] % Pow2(bits)) * q by {
      ShlSplits(w[i + 1], 128 - bits, bits);
      OrShifted(w[i + 1], w[i], 128 - bits, bits);
    }
    assert Pow2(bits) * q == W128 by {
      ShlSplits(w[i], bits, 128 - bits);
    }
    LimbDownSum(w[i], w[i + 1] % Pow2(bits), Pow2(bits), q);
  }

  lemma LimbDownSum(x: nat, l: nat, p: nat, q: nat)
    requires p > 0
    ensures (x / p + l * q) * p == x - x % p + l * (p * q)
  {
    MulDistributes(x / p, l * q, p);
    MulAssociates(l, q, p);
    MulCommutes(p, q);
  }

  lemma DownSum(w: Limbs, r: Limbs, m0: int, m1: int, m2: int, m3: int, p: nat)
    requires r[0] * p == w[0] - m0 + m1 * W128
    requires r[1] * p == w[1] - m1 + m2 * W128
    requires r[2] * p == w[2] - m2 + m3 * W128
    requires r[3] * p == w[3] - m3
    ensures LimbsValue(w) == LimbsValue(r) * p + m0
  {
    FourDigitsTimes(r[0], r[1], r[2], r[3], p);
  }

  lemma TopLimbDown(w: Limbs, bits: nat)
    requires 0 < bits < 128
    ensures ShrLimb(w, 0, bits, 3) * Pow2(bits) == w[3] - w[3] % Pow2(bits)
  {
  }

  lemma ShrAllLimbs(w: Limbs, words: nat, bits: nat, i: nat)
    requires bits < 128 && i < 4
    ensures ShrAll(w, words, bits)[i] == ShrLimb(w, words, bits, i)
  {
  }

  /** A shift by fewer than 128 bits divides by a power of two, rounding down. */
  lemma BitsDown(w: Limbs, bits: nat)
    requires 0 < bits < 128
    ensures LimbsValue(ShrAll(w, 0, bits)) == LimbsValue(w) / Pow2(bits)
  {
    hide *;
    var p, r := Pow2(bits), ShrAll(w, 0, bits);
    LimbDown(w, bits, 0);
    LimbDown(w, bits, 1);
    LimbDown(w, bits, 2);
    TopLimbDown(w, bits);
    ShrAllLimbs(w, 0, bits, 0);
    ShrAllLimbs(w, 0, bits, 1);
    ShrAllLimbs(w, 0, bits, 2);
    ShrAllLimbs(w, 0, bits, 3);
    DownSum(w, r, w[0] % p, w[1] % p, w[2] % p, w[3] % p, p);
    DivModUnique(LimbsValue(w), p, LimbsValue(r), w[0] % p);
  }

  /** Moving down by whole words divides by a power of 2^128. */
  lemma WordsDown(w: Limbs, words: nat)
    requires words < 4
    ensures LimbsValue(ShrAll(w, words, 0)) == LimbsValue(w) / Weight(words)
  {
    var moved := ShrAll(w, words, 0);
    assert forall x: u128 :: Shr(x, 0) == x;
    var dropped := if words == 0 then 0 else if words == 1 then w[0] else if words == 2 then w[0] + w[1] * W128
                   else w[0] + w[1] * W128 + w[2] * W256;
    assert LimbsValue(w) == LimbsValue(moved) * Weight(words) + dropped;
    DivModUnique(LimbsValue(w), Weight(words), LimbsValue(moved), dropped);
  }

  lemma ShiftedZero(bits: nat)
    requires bits < 128
    ensures Shl(0, bits) == 0 && Shr(0, bits) == 0
  {
    DivModUnique(0, Pow2(bits), 0, 0);
  }

  lemma ShrLimbSplits(w: Limbs, words: nat, bits: nat, i: nat)
    requires words < 4 && bits < 128 && i < 4
    ensures ShrLimb(w, words, bits, i) == ShrLimb(ShrAll(w, words, 0), 0, bits, i)
  {
    assert forall x: u128 :: Shr(x, 0) == x;
    var moved := ShrAll(w, words, 0);
    assert forall k :: 0 <= k < 4 ==> moved[k] == if k + words < 4 then w[k + words] else 0;
    ShiftedZero(bits);
    if bits > 0 {
      ShiftedZero(128 - bits);
    }
  }

  lemma ShrAllSplits(w: Limbs, words: nat, bits: nat)
    requires words < 4 && bits < 128
    ensures ShrAll(w, words, bits) == ShrAll(ShrAll(w, words, 0), 0, bits)
  {
    ShrLimbSplits(w, words, bits, 0);
    ShrLimbSplits(w, words, bits, 1);
    ShrLimbSplits(w, words, bits, 2);
    ShrLimbSplits(w, words, bits, 3);
    hide ShrLimb;
  }

  /** A right shift divides by a power of two, rounding down. */
  lemma ShrAllIsDiv(w: Limbs, words: nat, bits: nat)
    requires words < 4 && bits < 128
    ensures LimbsValue(ShrAll(w, words, bits)) == LimbsValue(w) / Pow2(128 * words + bits)
  {
    ShrAllSplits(w, words, bits);
    WordsDown(w, words);
    WeightIsPow2(words);
    Pow2Adds(128 * words, bits);
    DivDiv(LimbsValue(w), Weight(words), Pow2(bits));
    if bits > 0 {
      BitsDown(ShrAll(w, words, 0), bits);
    } else {
      assert forall x: u128 :: Shr(x, 0) == x;
    }
  }

  lemma BeyondLimbs(v: nat, bits: nat)
    requires v < W512 && bits >= 512
    ensures (v * Pow2(bits)) % W512 == 0 && v / Pow2(bits) == 0
  {
    var extra := Pow2(bits - 512);
    assert Pow2(bits) == W512 * extra by {
      Pow2Of256(bits - 256);
      Pow2Of256(bits - 512);
    }
    MultipleMod(v, W512, extra);
    MulMono(1, extra, W512);
    DivModUnique(v, Pow2(bits), 0, v);
  }

  /** shl_u512. */
  method ShlU512(a: U512, bits: nat) returns (r: U512)
    ensures r.Value() == (a.Value() * Pow2(bits)) % W512
  {
    if bits >= 512 {
      BeyondLimbs(a.Value(), bits);
      return U512.ZERO;
    }
    if bits == 0 {
      return a;
    }
    var words, bitShift := bits / 128, bits % 128;
    var result := new u128[4](_ => 0);
    var i := words;
    while i < 4
      invariant words <= i <= 4
      invariant forall k :: 0 <= k < i ==> result[k] == ShlLimb(a.w, words, bitShift, k)
    {
      result[i] := Shl(a.w[i - words], bitShift);
      if bitShift > 0 && i > words {
        result[i] := Or(result[i], Shr(a.w[i - words - 1], 128 - bitShift));
      }
      i := i + 1;
    }
    assert result[..] == ShlAll(a.w, words, bitShift);
    ShlAllIsMul(a.w, words, bitShift);
    return U512(result[..]);
  }

  /** shr_u512. */
  method ShrU512(a: U512, bits: nat) returns (r: U512)
    ensures r.Value() == a.Value() / Pow2(bits)
  {
    if bits >= 512 {
      BeyondLimbs(a.Value(), bits);
      return U512.ZERO;
    }
    if bits == 0 {
      return a;
    }
    var words, bitShift := bits / 128, bits % 128;
    var result := new u128[4](_ => 0);
    var i := 0;
    while i < 4 - words
      invariant 0 <= i <= 4 - words
      invariant forall k :: 0 <= k < i ==> result[k] == ShrLimb(a.w, words, bitShift, k)
      invariant forall k :: i <= k < 4 ==> result[k] == 0
    {
      result[i] := Shr(a.w[i + words], bitShift);
      if bitShift > 0 && i + words + 1 < 4 {
        result[i] := Or(result[i], Shl(a.w[i + words + 1], 128 - bitShift));
      }
      i := i + 1;
    }
    assert result[..] == ShrAll(a.w, words, bitShift);
    ShrAllIsDiv(a.w, words, bitShift);
    return U512(result[..]);
  }

  // ---------- division ----------

  /** A bit of the number is a bit of one limb. */
  lemma LimbBit(w: Limbs, words: nat, b: nat)
    requires words < 4 && b < 128
    ensures BitClear(LimbsValue(w), 128 * words + b) == BitClear(w[words], b)
  {
    var moved := ShrAll(w, words, 0);
    assert moved[0] == w[words] by {
      assert forall x: u128 :: Shr(x, 0) == x;
    }
    WordsDown(w, words);
    WeightIsPow2(words);
    Pow2Adds(128 * words, b);
    LowDigitBit(moved[0], moved[1] + moved[2] * W128 + moved[3] * W256, b);
    hide Pow2, ShrAll, Weight;
    DivDiv(LimbsValue(w), Pow2(128 * words), Pow2(b));
  }

  lemma LimbUpdate(w: Limbs, i: nat, d: nat)
    requires i < 4 && w[i] + d < W128
    ensures LimbsValue(w[i := w[i] + d]) == LimbsValue(w) + d * Weight(i)
  {
    assert i == 0 || i == 1 || i == 2 || i == 3;
  }

  /** set_bit sets the bit: it adds 2^bit when the bit is clear, and changes nothing otherwise. */
  lemma SetBitAdds(q: U512, bit: nat)
    requires bit < 512
    ensures q.SetBit(bit).Value() == if BitClear(q.Value(), bit) then q.Value() + Pow2(bit) else q.Value()
  {
    hide *;
    var words, b := bit / 128, bit % 128;
    LimbBit(q.w, words, b);
    OrWordBit(q.w[words], b);
    WeightIsPow2(words);
    Pow2Adds(128 * words, b);
    MulCommutes(Pow2(b), Weight(words));
    SetBitLimb(q, bit);
    if BitClear(q.w[words], b) {
      LimbUpdate(q.w, words, Pow2(b));
    } else {
      LimbUpdate(q.w, words, 0);
    }
  }

  lemma SetBitLimb(q: U512, bit: nat)
    requires bit < 512
    ensures q.SetBit(bit).Value() == LimbsValue(q.w[bit / 128 := Or(q.w[bit / 128], Shl(1, bit % 128))])
    ensures q.Value() == LimbsValue(q.w)
  {
    hide LimbsValue, Or, Shl;
  }

  lemma FirstDivisor512(num: U512, den: U512, shift: nat)
    requires 0 < den.Value() <= num.Value()
    requires shift == BitLen(num.Value()) - BitLen(den.Value()) && BitLen(num.Value()) <= 512
    ensures Dividing(num.Value(), den.Value(), 0, num.Value(), shift)
    ensures (den.Value() * Pow2(shift)) % W512 == Scaled(den.Value(), shift)
  {
    hide *;
    var d, len := den.Value(), BitLen(num.Value());
    AlignedStart(num.Value(), d, shift);
    Pow2Grows(len, 512);
    Pow2Of512();
    ScaledIsProduct(d, shift);
    DivModUnique(Scaled(d, shift), W512, 0, Scaled(d, shift));
  }

  lemma Pow2Of512()
    ensures Pow2(512) == W512 > 0
  {
    hide Pow2;
    Pow2Of256(256);
    Pow2Of256(0);
    assert Pow2(0) == 1 by {
      Pow2Adds(0, 0);
      MulFar(Pow2(0) - 1, Pow2(0));
    }
  }

  lemma ZeroValue512()
    ensures U512.ZERO.Value() == 0
  {
  }

  /** One iteration: subtract the shifted divisor if it fits, and record the bit. */
  method TryBit512(ghost n: nat, ghost d: nat, quotient: U512, remainder: U512, divisor: U512, i: nat)
    returns (q: U512, r: U512)
    requires d > 0 && i < 512 && divisor.Value() == Scaled(d, i)
    requires Dividing(n, d, quotient.Value(), remainder.Value(), i)
    ensures Dividing(n, d, q.Value(), r.Value(), i - 1)
  {
    DividingStep(n, d, quotient.Value(), remainder.Value(), i);
    hide *;
    q, r := quotient, remainder;
    var order := CmpU512(remainder, divisor);
    ComparisonMeans(remainder.Value(), divisor.Value());
    if !order.Less? {
      r := SubU512(remainder, divisor);
      SetBitAdds(quotient, i);
      q := quotient.SetBit(i);
    }
  }

  /** The shift that ends an iteration. */
  method HalveDivisor512(divisor: U512, ghost d: nat, ghost i: nat) returns (r: U512)
    requires divisor.Value() == Scaled(d, i)
    ensures i > 0 ==> r.Value() == Scaled(d, i - 1)
  {
    hide *;
    if i > 0 {
      ScaledDoubles(d, i - 1);
      HalfByShift(divisor.Value(), Scaled(d, i - 1));
    }
    r := ShrU512(divisor, 1);
  }

  /** The loop of checked_div_rem_by_u256: quotient and remainder of an aligned pair. */
  method LongDivide512(num: U512, den: U512, shift: nat) returns (quotient: U512, remainder: U512)
    requires 0 < den.Value() <= num.Value()
    requires shift == BitLen(num.Value()) - BitLen(den.Value()) && BitLen(num.Value()) <= 512 && shift < 512
    ensures quotient.Value() == num.Value() / den.Value()
    ensures remainder.Value() == num.Value() % den.Value()
  {
    hide *;
    ghost var n, d := num.Value(), den.Value();
    FirstDivisor512(num, den, shift);
    ZeroValue512();
    remainder, quotient := num, U512.ZERO;
    var divisor := ShlU512(den, shift);
    var i: int := shift;
    while i >= 0
      invariant -1 <= i < 512
      invariant Dividing(n, d, quotient.Value(), remainder.Value(), i)
      invariant i >= 0 ==> divisor.Value() == Scaled(d, i)
    {
      quotient, remainder := TryBit512(n, d, quotient, remainder, divisor, i);
      divisor := HalveDivisor512(divisor, d, i);
      i := i - 1;
    }
    DividingDone(n, d, quotient.Value(), remainder.Value());
  }

  lemma HalfByShift(x: nat, half: nat)
    requires x == 2 * half
    ensures x / Pow2(1) == half
  {
    assert Pow2(1) == 2;
  }

  lemma QuotientWithin(num: nat, den: nat)
    requires den > 0
    ensures num / den <= num && num % den < den
    ensures num < den ==> num / den == 0 && num % den == num
  {
    DivShrinks(num, den);
    if num < den {
      DivModUnique(num, den, 0, num);
    }
  }

  /**
   * checked_div_rem_by_u256: the exact quotient and remainder of a 512-bit number, and
   * nothing exactly when the quotient needs more than 256 bits.
   */
  method CheckedDivRemByU256(num: U512, den: U256) returns (r: Outcome<Option<(U256, U256)>>)
    ensures r.Panicked? <==> den.Value() == 0
    ensures r.Returned? ==> (r.value.Some? <==> num.Value() / den.Value() < W256)
    ensures r.Returned? && r.value.Some? ==> r.value.value.0.Value() == num.Value() / den.Value()
    ensures r.Returned? && r.value.Some? ==> r.value.value.1.Value() == num.Value() % den.Value()
  {
    hide *;
    ZeroValue();
    if den.IsZero() {
      return Panicked;
    }
    QuotientWithin(num.Value(), den.Value());
    if num.IsZero() {
      return Returned(Some((U256.ZERO, U256.ZERO)));
    }
    var den512 := U512.FromU256(den);
    var order := CmpU512(num, den512);
    ComparisonMeans(num.Value(), den.Value());
    if order.Less? {
      return Returned(Some((U256.ZERO, num.TryIntoU256().value)));
    }
    if num.w[2] == 0 && num.w[3] == 0 {
      LowLimbs(num);
      var small := DivRemU256(U256.New(num.w[0], num.w[1]), den);
      return Returned(Some(small.value));
    }
    var numLz := LeadingZerosU512(num);
    var denLz := LeadingZerosU512(den512);
    LengthsOrdered(num.Value(), den.Value());
    if denLz < numLz {
      // The source returns num as the remainder here; num >= den rules the branch out.
      assert false;
    }
    LengthPositive(den.Value());
    var quotient, remainder := LongDivide512(num, den512, denLz - numLz);
    var q := quotient.TryIntoU256();
    if q.None? {
      return Returned(None);
    }
    return Returned(Some((q.value, remainder.TryIntoU256().value)));
  }

  lemma ComparisonMeans(a: int, b: int)
    ensures Compare(a, b).Less? <==> a < b
    ensures 0 <= W256
  {
  }

  lemma LengthPositive(x: nat)
    ensures x > 0 ==> BitLen(x) > 0
  {
  }

  lemma LowLimbs(num: U512)
    requires num.w[2] == 0 && num.w[3] == 0
    ensures U256.New(num.w[0], num.w[1]).Value() == num.Value()
  {
  }
}
