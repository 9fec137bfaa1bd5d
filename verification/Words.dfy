/**
 * The 64- and 128-bit machine words of crates/engine/src/wide_math.rs, as bounded integers,
 * with Rust's overflowing, wrapping and bitwise operators on them.
 */
module Words {
  import opened Arith

  const W64: int := 0x1_0000_0000_0000_0000
  const W128: int := 0x1_0000_0000_0000_0000_0000_0000_0000_0000
  const W256: int :=
    0x1_0000_0000_0000_0000_0000_0000_0000_0000_0000_0000_0000_0000_0000_0000_0000_0000
  /** i128::MAX + 1, the weight of an i128 sign bit. */
  const HALF128: int := 0x8000_0000_0000_0000_0000_0000_0000_0000
  /** I256::MAX + 1, the weight of an I256 sign bit. */
  const HALF256: int :=
    0x8000_0000_0000_0000_0000_0000_0000_0000_0000_0000_0000_0000_0000_0000_0000_0000

  type u64 = x: int | 0 <= x < W64
  type u128 = x: int | 0 <= x < W128
  type i128 = x: int | -HALF128 <= x < HALF128

  const U64_MAX: u64 := W64 - 1
  const U128_MAX: u128 := W128 - 1

  datatype Ordering = Less | Equal | Greater

  function Compare(a: int, b: int): (o: Ordering)
    ensures o.Less? <==> a < b
    ensures o.Greater? <==> a > b
  {
    if a < b then Less else if a == b then Equal else Greater
  }

  function SaturatingAdd(a: u128, b: nat): u128 {
    if a + b > U128_MAX then U128_MAX else a + b
  }

  function OverflowingAdd(a: u128, b: u128): (r: (u128, bool))
    ensures r.0 + (if r.1 then W128 else 0) == a + b
  {
    if a + b >= W128 then (a + b - W128, true) else (a + b, false)
  }

  function OverflowingSub(a: u128, b: u128): (r: (u128, bool))
    ensures r.0 - (if r.1 then W128 else 0) == a - b
  {
    if a < b then (a - b + W128, true) else (a - b, false)
  }

  function Bit(b: bool): u128 {
    if b then 1 else 0
  }

  /** The bitwise complement !a. */
  function Not(a: u128): u128 {
    W128 - 1 - a
  }

  function Or(a: u128, b: u128): u128 {
    Pow2Of128();
    BitOrBound(a, b, 128);
    BitOr(a, b)
  }

  function Shl(a: u128, bits: nat): u128
    requires bits < 128
  {
    (a * Pow2(bits)) % W128
  }

  function Shr(a: u128, bits: nat): (r: u128)
    requires bits < 128
  {
    DivShrinks(a, Pow2(bits));
    a / Pow2(bits)
  }

  function LeadingZeros(a: u128): (n: nat)
    ensures n + BitLen(a) == 128
  {
    Pow2Of128();
    BitLenBound(a, 128);
    128 - BitLen(a)
  }

  /** add_u128_carry. */
  function AddCarry(a: u128, b: u128, carry: bool): (r: (u128, bool))
    ensures r.0 + (if r.1 then W128 else 0) == a + b + Bit(carry)
  {
    var (s1, c1) := OverflowingAdd(a, b);
    var (s2, c2) := OverflowingAdd(s1, Bit(carry));
    (s2, c1 || c2)
  }

  /** sub_u128_borrow. */
  function SubBorrow(a: u128, b: u128, borrow: bool): (r: (u128, bool))
    ensures r.0 - (if r.1 then W128 else 0) == a - b - Bit(borrow)
  {
    var (d1, b1) := OverflowingSub(a, b);
    var (d2, b2) := OverflowingSub(d1, Bit(borrow));
    (d2, b1 || b2)
  }

  /** A 128-bit word from its two 64-bit halves, as the code assembles it. */
  function Join(l: u64, h: u64): (r: u128)
    ensures r == l + h * W64
  {
    Pow2Of64();
    BitOrDisjoint(h * W64, l, 64);
    BitOrCommutes(h * W64, l);
    Or(l, Shl(h, 64))
  }

  function LowHalf(a: u128): u64 {
    a % W64
  }

  function HighHalf(a: u128): (r: u64)
    ensures a == LowHalf(a) + r * W64
  {
    Pow2Of64();
    Shr(a, 64) % W64
  }

  lemma MulHalves(al: int, ah: int, bl: int, bh: int)
    ensures (al + ah * W64) * (bl + bh * W64)
         == al * bl + (al * bh + ah * bl) * W64 + (ah * bh) * W128
  {
    MulDistributes(al, ah * W64, bl + bh * W64);
    MulDistributes(bl, bh * W64, al);
    MulDistributes(bl, bh * W64, ah * W64);
    MulCommutes(al, bl + bh * W64);
    MulCommutes(ah * W64, bl + bh * W64);
    MulCommutes(al, bl);
    Scale(bh, al);
    Scale(ah, bl);
    Scale(ah, bh * W64);
    Scale(bh, ah);
    MulCommutes(al, bh);
    MulCommutes(ah, bh);
  }

  lemma Scale(x: int, y: int)
    ensures (x * W64) * y == (x * y) * W64 == y * (x * W64)
  {
    MulAssociates(x, W64, y);
    MulAssociates(x, y, W64);
    MulCommutes(W64, y);
    MulCommutes(x * W64, y);
  }

  /** A product of two 64-bit words fits 128 bits with room for two more carries. */
  lemma HalfProduct(a: u64, b: u64)
    ensures 0 <= a * b <= W128 - 2 * W64 + 1
  {
    MulMono(0, a, b);
    MulMono(a, W64 - 1, b);
    MulMono(b, W64 - 1, W64 - 1);
    MulCommutes(W64 - 1, b);
  }

  /** Every partial product of two words is a word, and together they make up the product. */
  lemma PartialProducts(a: u128, b: u128)
    ensures var al, ah, bl, bh := LowHalf(a), HighHalf(a), LowHalf(b), HighHalf(b);
            var most := W128 - 2 * W64 + 1;
            && most < W128
            && 0 <= al * bl <= most && 0 <= al * bh <= most && 0 <= ah * bl <= most && 0 <= ah * bh <= most
            && a * b == al * bl + (al * bh + ah * bl) * W64 + (ah * bh) * W128
  {
    HalfProduct(LowHalf(a), LowHalf(b));
    HalfProduct(LowHalf(a), HighHalf(b));
    HalfProduct(HighHalf(a), LowHalf(b));
    HalfProduct(HighHalf(a), HighHalf(b));
    MulHalves(LowHalf(a), HighHalf(a), LowHalf(b), HighHalf(b));
    hide LowHalf, HighHalf;
  }

  /** A shift by half a word, up and down. */
  lemma HalfShifts(m: u128)
    ensures Shl(m, 64) == LowHalf(m) * W64
    ensures Shr(m, 64) == HighHalf(m)
    ensures m == LowHalf(m) + HighHalf(m) * W64
  {
    Pow2Of64();
    hide Pow2;
    DivModUnique(m, W64, HighHalf(m), LowHalf(m));
    DivModUnique(m * W64, W128, HighHalf(m), LowHalf(m) * W64);
  }

  /** The two words of the product, put together from the partial products and their carries. */
  lemma Recombine(ll: int, lh: int, hl: int, hh: int, midLow: int, midHigh: int, lo: int, midCarry: int, loCarry: int)
    requires var most := W128 - 2 * W64 + 1; ll <= most && lh <= most && hl <= most && hh <= most
    requires midLow + midHigh * W64 + midCarry * W128 == lh + hl
    requires lo + loCarry * W128 == ll + midLow * W64
    requires lo >= 0
    ensures var hi := hh + midHigh + midCarry * W64 + loCarry;
            hi < W128 && lo + hi * W128 == ll + (lh + hl) * W64 + hh * W128
  {
  }

  /** widening_mul_u128: the exact 256-bit product; no step overflows. */
  function WideningMul(a: u128, b: u128): (r: (u128, u128))
    ensures r.0 + r.1 * W128 == a * b
  {
    hide *;
    var al, ah := LowHalf(a), HighHalf(a);
    var bl, bh := LowHalf(b), HighHalf(b);
    PartialProducts(a, b);
    var (mid, midCarry) := OverflowingAdd(al * bh, ah * bl);
    var (lo, loCarry) := OverflowingAdd(al * bl, Shl(mid, 64));
    HalfShifts(mid);
    CarryShift(midCarry);
    CarryShift(loCarry);
    assert LowHalf(mid) + HighHalf(mid) * W64 + Bit(midCarry) * W128 == al * bh + ah * bl;
    assert lo + Bit(loCarry) * W128 == al * bl + LowHalf(mid) * W64;
    Recombine(al * bl, al * bh, ah * bl, ah * bh, LowHalf(mid), HighHalf(mid), lo, Bit(midCarry), Bit(loCarry));
    (lo, ah * bh + Shr(mid, 64) + Shl(Bit(midCarry), 64) + Bit(loCarry))
  }

  lemma CarryShift(c: bool)
    ensures Shl(Bit(c), 64) == Bit(c) * W64
    ensures Bit(c) == if c then 1 else 0
  {
    HalfShifts(Bit(c));
  }

  /**
   * A left shift by up = 128 - down splits the word at Pow2(down) into the low part, which
   * stays, and the high part, which crosses to the next word.
   */
  lemma ShlSplits(a: u128, up: nat, down: nat)
    requires 0 < up < 128 && up + down == 128
    ensures Pow2(up) * Pow2(down) == Pow2(down) * Pow2(up) == W128
    ensures Shl(a, up) == (a % Pow2(down)) * Pow2(up)
    ensures Shl(a, up) + Shr(a, down) * W128 == a * Pow2(up)
    ensures Shr(a, down) < Pow2(up)
  {
    Pow2Of128();
    Pow2Adds(up, down);
    MulCommutes(Pow2(up), Pow2(down));
    ShiftSplits(a, Pow2(up), Pow2(down));
  }

  /** The word a shift assembles from a word and its lower neighbour. */
  lemma OrShifted(a: u128, below: u128, up: nat, down: nat)
    requires 0 < up < 128 && up + down == 128
    ensures Or(Shl(a, up), Shr(below, down)) == Or(Shr(below, down), Shl(a, up)) == Shl(a, up) + Shr(below, down)
  {
    ShlSplits(a, up, down);
    ShlSplits(below, up, down);
    DivModUnique(Shl(a, up), Pow2(up), a % Pow2(down), 0);
    BitOrDisjoint(Shl(a, up), Shr(below, down), up);
    BitOrCommutes(Shl(a, up), Shr(below, down));
  }
}
