/**
 * The 256-bit unsigned integer of crates/engine/src/wide_math.rs in both of its layouts:
 * U256 is the deployed one ([u64; 4]), KaniU256 the one of the model-checking build
 * ([u128; 2]). Every operation of either layout is proved equal to the integer operation.
 */
module Uint256 {
  import opened Wrappers
  import opened Arith
  import opened Words

  /** The value of a little-endian pair of 128-bit words. */
  function PairValue(w: (u128, u128)): (v: int)
    ensures 0 <= v < W256
  {
    w.0 + w.1 * W128
  }

  lemma PairProduct(a: (u128, u128), b: (u128, u128))
    ensures PairValue(a) * PairValue(b)
         == a.0 * b.0 + (a.0 * b.1 + a.1 * b.0) * W128 + (a.1 * b.1) * W256
    ensures a.0 * b.0 >= 0 && a.0 * b.1 >= 0 && a.1 * b.0 >= 0 && a.1 * b.1 >= 0
    ensures a.1 > 0 && b.1 > 0 ==> a.1 * b.1 >= 1
  {
    calc {
      PairValue(a) * PairValue(b);
      a.0 * (b.0 + b.1 * W128) + (a.1 * W128) * (b.0 + b.1 * W128);
      a.0 * b.0 + a.0 * (b.1 * W128) + (a.1 * W128) * b.0 + (a.1 * W128) * (b.1 * W128);
      { assert a.0 * (b.1 * W128) == (a.0 * b.1) * W128; assert (a.1 * W128) * b.0 == (a.1 * b.0) * W128;
        assert (a.1 * W128) * (b.1 * W128) == (a.1 * b.1) * W256; }
      a.0 * b.0 + (a.0 * b.1) * W128 + (a.1 * b.0) * W128 + (a.1 * b.1) * W256;
    }
    MulMono(0, a.0, b.0);
    MulMono(0, a.0, b.1);
    MulMono(0, a.1, b.0);
    MulMono(0, a.1, b.1);
    if a.1 > 0 && b.1 > 0 {
      MulMono(1, a.1, b.1);
    }
  }

  /** A word product that must fit one word, skipped when the second factor is zero. */
  function CrossProduct(a: u128, b: u128): (r: Option<u128>)
    ensures r == if a * b < W128 then Some(a * b) else None
  {
    if b == 0 then Some(0)
    else
      var (c, overflow) := WideningMul(a, b);
      if overflow != 0 then None else Some(c)
  }

  function CheckedAddWord(a: u128, b: u128): Option<u128> {
    if a + b < W128 then Some(a + b) else None
  }

  /** checked_mul, whose text both layouts share. */
  function MulPair(a: (u128, u128), b: (u128, u128)): (r: Option<(u128, u128)>)
    ensures r.Some? <==> PairValue(a) * PairValue(b) < W256
    ensures r.Some? ==> PairValue(r.value) == PairValue(a) * PairValue(b)
  {
    PairProduct(a, b);
    if a.1 != 0 && b.1 != 0 then None
    else
      var (prodLo, prodHi) := WideningMul(a.0, b.0);
      var cross1 := CrossProduct(a.0, b.1);
      var cross2 := CrossProduct(b.0, a.1);
      if cross1.None? || cross2.None? then None
      else
        var hi := CheckedAddWord(prodHi, cross1.value);
        if hi.None? then None
        else
          var hi2 := CheckedAddWord(hi.value, cross2.value);
          if hi2.None? then None else Some((prodLo, hi2.value))
  }

  /** shl, whose text both layouts share. */
  function ShlPair(w: (u128, u128), bits: nat): (r: (u128, u128)) {
    if bits >= 256 then (0, 0)
    else if bits == 0 then w
    else if bits >= 128 then (0, Shl(w.0, bits - 128))
    else (Shl(w.0, bits), Or(Shl(w.1, bits), Shr(w.0, 128 - bits)))
  }

  /** shr, whose text both layouts share. */
  function ShrPair(w: (u128, u128), bits: nat): (r: (u128, u128)) {
    if bits >= 256 then (0, 0)
    else if bits == 0 then w
    else if bits >= 128 then (Shr(w.1, bits - 128), 0)
    else (Or(Shr(w.0, bits), Shl(w.1, 128 - bits)), Shr(w.1, bits))
  }

  /** A two-word number moved up by a word keeps only its low word. */
  lemma DropTopWord(l: nat, m: nat)
    ensures (l * W128 + m * W256) % W256 == (l % W128) * W128
  {
    var q, r := l / W128, l % W128;
    assert l * W128 + m * W256 == (m + q) * W256 + r * W128;
    DivModUnique(l * W128 + m * W256, W256, m + q, r * W128);
  }

  lemma ShlPairByWords(w: (u128, u128), s: nat)
    requires s < 128
    ensures PairValue((0, Shl(w.0, s))) == (PairValue(w) * Pow2(128 + s)) % W256
  {
    Pow2Of128();
    Pow2Adds(128, s);
    hide Pow2;
    var p := Pow2(s);
    MulMono(0, w.0, p);
    MulMono(0, w.1, p);
    ScaledPair(w, p);
    DropTopWord(w.0 * p, w.1 * p);
  }

  lemma ScaledPair(w: (u128, u128), p: nat)
    ensures PairValue(w) * (W128 * p) == (w.0 * p) * W128 + (w.1 * p) * W256
  {
    MulAssociates(W128, p, PairValue(w));
    MulDistributes(w.0, w.1 * W128, p);
    MulAssociates(w.1, W128, p);
  }

  lemma ShlPairByBits(w: (u128, u128), bits: nat)
    requires 0 < bits < 128
    ensures PairValue(ShlPair(w, bits)) == (PairValue(w) * Pow2(bits)) % W256
  {
    var p := Pow2(bits);
    ShlSplits(w.0, bits, 128 - bits);
    ShlSplits(w.1, bits, 128 - bits);
    OrShifted(w.1, w.0, bits, 128 - bits);
    MulDistributes(w.0, w.1 * W128, p);
    MulAssociates(w.1, W128, p);
    DivModUnique(PairValue(w) * p, W256, Shr(w.1, 128 - bits), PairValue(ShlPair(w, bits)));
  }

  lemma Pow2Of256(extra: nat)
    ensures Pow2(256 + extra) == W256 * Pow2(extra)
  {
    Pow2Of128();
    Pow2Adds(128, 128);
    Pow2Adds(256, extra);
  }

  /** A left shift multiplies by a power of two modulo 2^256. */
  lemma ShlPairIsMul(w: (u128, u128), bits: nat)
    ensures PairValue(ShlPair(w, bits)) == (PairValue(w) * Pow2(bits)) % W256
  {
    if bits >= 256 {
      assert Pow2(bits) == W256 * Pow2(bits - 256) by {
        Pow2Of256(bits - 256);
      }
      MultipleMod(PairValue(w), W256, Pow2(bits - 256));
    } else if bits >= 128 {
      ShlPairByWords(w, bits - 128);
    } else if bits > 0 {
      ShlPairByBits(w, bits);
    }
  }

  lemma ShrPairByBits(w: (u128, u128), bits: nat)
    requires 0 < bits < 128
    ensures PairValue(ShrPair(w, bits)) == PairValue(w) / Pow2(bits)
  {
    var p, q := Pow2(bits), Pow2(128 - bits);
    assert p * q == W128 && Shl(w.1, 128 - bits) == (w.1 % p) * q by {
      ShlSplits(w.1, 128 - bits, bits);
    }
    OrShifted(w.1, w.0, 128 - bits, bits);
    ShrTwoDigits(w.0, w.1, p, q);
  }

  lemma ShrPairByWords(w: (u128, u128), s: nat)
    requires s < 128
    ensures PairValue((Shr(w.1, s), 0)) == PairValue(w) / Pow2(128 + s)
  {
    Pow2Of128();
    Pow2Adds(128, s);
    DivModUnique(PairValue(w), W128, w.1, w.0);
    DivDiv(PairValue(w), W128, Pow2(s));
  }

  lemma ShrPairBeyond(w: (u128, u128), bits: nat)
    requires bits >= 256
    ensures PairValue(w) / Pow2(bits) == 0
  {
    Pow2Of256(0);
    Pow2Grows(256, bits);
    DivModUnique(PairValue(w), Pow2(bits), 0, PairValue(w));
  }

  /** A right shift divides by a power of two, rounding down. */
  lemma ShrPairIsDiv(w: (u128, u128), bits: nat)
    ensures PairValue(ShrPair(w, bits)) == PairValue(w) / Pow2(bits)
  {
    if bits >= 256 {
      ShrPairBeyond(w, bits);
    } else if bits >= 128 {
      ShrPairByWords(w, bits - 128);
    } else if bits > 0 {
      ShrPairByBits(w, bits);
    }
  }

  function ComparePair(a: (u128, u128), b: (u128, u128)): (o: Ordering)
    ensures o == Compare(PairValue(a), PairValue(b))
  {
    var hi := Compare(a.1, b.1);
    if hi.Equal? then Compare(a.0, b.0) else hi
  }

  /** The deployed layout: four 64-bit limbs, least significant first. */
  datatype U256 = U256(l0: u64, l1: u64, l2: u64, l3: u64) {
    static const ZERO := U256(0, 0, 0, 0)
    static const ONE := U256(1, 0, 0, 0)
    static const MAX := U256(U64_MAX, U64_MAX, U64_MAX, U64_MAX)

    static function New(lo: u128, hi: u128): (r: U256)
      ensures r.Lo() == lo && r.Hi() == hi
    {
      U256(LowHalf(lo), HighHalf(lo), LowHalf(hi), HighHalf(hi))
    }

    static function FromU128(v: u128): (r: U256)
      ensures r.Value() == v
    {
      New(v, 0)
    }

    function Lo(): (r: u128)
      ensures r == l0 + l1 * W64
    {
      Join(l0, l1)
    }

    function Hi(): (r: u128)
      ensures r == l2 + l3 * W64
    {
      Join(l2, l3)
    }

    function Pair(): (u128, u128) {
      (Lo(), Hi())
    }

    /** The integer this value stands for. */
    function Value(): (v: int)
      ensures 0 <= v < W256
    {
      PairValue(Pair())
    }

    predicate IsZero()
      ensures IsZero() <==> Value() == 0
    {
      l0 == 0 && l1 == 0 && l2 == 0 && l3 == 0
    }

    function TryIntoU128(): (r: Option<u128>)
      ensures r == if Value() < W128 then Some(Value()) else None
    {
      if l2 == 0 && l3 == 0 then Some(Lo()) else None
    }

    function OverflowingAdd(rhs: U256): (r: (U256, bool))
      ensures r.0.Value() + (if r.1 then W256 else 0) == Value() + rhs.Value()
    {
      var (lo, carry) := AddCarry(Lo(), rhs.Lo(), false);
      var (hi, overflow) := AddCarry(Hi(), rhs.Hi(), carry);
      (New(lo, hi), overflow)
    }

    function OverflowingSub(rhs: U256): (r: (U256, bool))
      ensures r.0.Value() - (if r.1 then W256 else 0) == Value() - rhs.Value()
    {
      var (lo, borrow) := SubBorrow(Lo(), rhs.Lo(), false);
      var (hi, underflow) := SubBorrow(Hi(), rhs.Hi(), borrow);
      (New(lo, hi), underflow)
    }

    function CheckedAdd(rhs: U256): (r: Option<U256>)
      ensures r.Some? <==> Value() + rhs.Value() < W256
      ensures r.Some? ==> r.value.Value() == Value() + rhs.Value()
    {
      var (lo, carry) := AddCarry(Lo(), rhs.Lo(), false);
      var (hi, overflow) := AddCarry(Hi(), rhs.Hi(), carry);
      if overflow then None else Some(New(lo, hi))
    }

    function CheckedSub(rhs: U256): (r: Option<U256>)
      ensures r.Some? <==> rhs.Value() <= Value()
      ensures r.Some? ==> r.value.Value() == Value() - rhs.Value()
    {
      var (lo, borrow) := SubBorrow(Lo(), rhs.Lo(), false);
      var (hi, underflow) := SubBorrow(Hi(), rhs.Hi(), borrow);
      if underflow then None else Some(New(lo, hi))
    }

    function CheckedMul(rhs: U256): (r: Option<U256>)
      ensures r.Some? <==> Value() * rhs.Value() < W256
      ensures r.Some? ==> r.value.Value() == Value() * rhs.Value()
    {
      var p := MulPair(Pair(), rhs.Pair());
      if p.None? then None else Some(New(p.value.0, p.value.1))
    }

    function SaturatingSub(rhs: U256): (r: U256)
      ensures r.Value() == if rhs.Value() <= Value() then Value() - rhs.Value() else 0
    {
      var d := CheckedSub(rhs);
      if d.Some? then d.value else ZERO
    }

    function SaturatingAdd(rhs: U256): (r: U256)
      ensures r.Value() == if Value() + rhs.Value() < W256 then Value() + rhs.Value() else W256 - 1
    {
      var s := CheckedAdd(rhs);
      if s.Some? then s.value else MAX
    }

    function ShlBits(bits: nat): (r: U256)
      ensures r.Value() == (Value() * Pow2(bits)) % W256
    {
      ShlPairIsMul(Pair(), bits);
      var p := ShlPair(Pair(), bits);
      New(p.0, p.1)
    }

    function ShrBits(bits: nat): (r: U256)
      ensures r.Value() == Value() / Pow2(bits)
    {
      ShrPairIsDiv(Pair(), bits);
      var p := ShrPair(Pair(), bits);
      New(p.0, p.1)
    }

    function BitwiseOr(rhs: U256): (r: U256)
      ensures r.Pair() == (Or(Lo(), rhs.Lo()), Or(Hi(), rhs.Hi()))
    {
      New(Or(Lo(), rhs.Lo()), Or(Hi(), rhs.Hi()))
    }

    function Cmp(other: U256): (o: Ordering)
      ensures o == Compare(Value(), other.Value())
    {
      ComparePair(Pair(), other.Pair())
    }
  }

  lemma PairInjective(a: (u128, u128), b: (u128, u128))
    requires PairValue(a) == PairValue(b)
    ensures a == b
  {
    DivModUnique(PairValue(a), W128, a.1, a.0);
    DivModUnique(PairValue(b), W128, b.1, b.0);
  }

  /** Equal values have equal limbs, so `==` on U256 is integer equality. */
  lemma U256Injective(a: U256, b: U256)
    requires a.Value() == b.Value()
    ensures a == b
  {
    PairInjective(a.Pair(), b.Pair());
    DivModUnique(a.Lo(), W64, a.l1, a.l0);
    DivModUnique(b.Lo(), W64, b.l1, b.l0);
    DivModUnique(a.Hi(), W64, a.l3, a.l2);
    DivModUnique(b.Hi(), W64, b.l3, b.l2);
  }

  /** The model-checking layout: two 128-bit words, least significant first. */
  datatype KaniU256 = KaniU256(lo: u128, hi: u128) {
    function Pair(): (u128, u128) {
      (lo, hi)
    }

    function Value(): (v: int)
      ensures 0 <= v < W256
    {
      PairValue(Pair())
    }

    function OverflowingAdd(rhs: KaniU256): (r: (KaniU256, bool))
      ensures r.0.Value() + (if r.1 then W256 else 0) == Value() + rhs.Value()
    {
      var (l, carry) := Words.OverflowingAdd(lo, rhs.lo);
      var (h, overflow1) := Words.OverflowingAdd(hi, rhs.hi);
      var (h2, overflow2) := if carry then Words.OverflowingAdd(h, 1) else (h, false);
      (KaniU256(l, h2), overflow1 || overflow2)
    }

    function OverflowingSub(rhs: KaniU256): (r: (KaniU256, bool))
      ensures r.0.Value() - (if r.1 then W256 else 0) == Value() - rhs.Value()
    {
      var (l, borrow) := Words.OverflowingSub(lo, rhs.lo);
      var (h, underflow1) := Words.OverflowingSub(hi, rhs.hi);
      var (h2, underflow2) := if borrow then Words.OverflowingSub(h, 1) else (h, false);
      (KaniU256(l, h2), underflow1 || underflow2)
    }

    function CheckedAdd(rhs: KaniU256): (r: Option<KaniU256>)
      ensures r.Some? <==> Value() + rhs.Value() < W256
      ensures r.Some? ==> r.value.Value() == Value() + rhs.Value()
    {
      var (l, carry) := Words.OverflowingAdd(lo, rhs.lo);
      var h := CheckedAddWord(hi, rhs.hi);
      if h.None? then None
      else
        var h2 := if carry then CheckedAddWord(h.value, 1) else h;
        if h2.None? then None else Some(KaniU256(l, h2.value))
    }

    function CheckedSub(rhs: KaniU256): (r: Option<KaniU256>)
      ensures r.Some? <==> rhs.Value() <= Value()
      ensures r.Some? ==> r.value.Value() == Value() - rhs.Value()
    {
      var (l, borrow) := Words.OverflowingSub(lo, rhs.lo);
      if hi < rhs.hi then None
      else
        var h := hi - rhs.hi;
        if !borrow then Some(KaniU256(l, h))
        else if h < 1 then None
        else Some(KaniU256(l, h - 1))
    }

    function CheckedMul(rhs: KaniU256): (r: Option<KaniU256>)
      ensures r.Some? <==> Value() * rhs.Value() < W256
      ensures r.Some? ==> r.value.Value() == Value() * rhs.Value()
    {
      var p := MulPair(Pair(), rhs.Pair());
      if p.None? then None else Some(KaniU256(p.value.0, p.value.1))
    }

    function Cmp(other: KaniU256): (o: Ordering)
      ensures o == Compare(Value(), other.Value())
    {
      ComparePair(Pair(), other.Pair())
    }
  }

  /** The same number in the other layout. */
  function ToKani(a: U256): (k: KaniU256)
    ensures k.Value() == a.Value()
  {
    KaniU256(a.Lo(), a.Hi())
  }

  function ToKaniOption(a: Option<U256>): Option<KaniU256> {
    if a.None? then None else Some(ToKani(a.value))
  }

  lemma KaniInjective(a: KaniU256, b: KaniU256)
    requires a.Value() == b.Value()
    ensures a == b
  {
    PairInjective(a.Pair(), b.Pair());
  }

  /** Both layouts compute the same function: converting commutes with every operation. */
  lemma U256LayoutsAgree(a: U256, b: U256)
    ensures ToKaniOption(a.CheckedAdd(b)) == ToKani(a).CheckedAdd(ToKani(b))
    ensures ToKaniOption(a.CheckedSub(b)) == ToKani(a).CheckedSub(ToKani(b))
    ensures ToKaniOption(a.CheckedMul(b)) == ToKani(a).CheckedMul(ToKani(b))
    ensures (ToKani(a.OverflowingAdd(b).0), a.OverflowingAdd(b).1) == ToKani(a).OverflowingAdd(ToKani(b))
    ensures (ToKani(a.OverflowingSub(b).0), a.OverflowingSub(b).1) == ToKani(a).OverflowingSub(ToKani(b))
    ensures a.Cmp(b) == ToKani(a).Cmp(ToKani(b))
  {
    AddAgrees(a, b);
    SubAgrees(a, b);
    SameOption(a.CheckedMul(b), ToKani(a).CheckedMul(ToKani(b)));
  }

  lemma AddAgrees(a: U256, b: U256)
    ensures ToKaniOption(a.CheckedAdd(b)) == ToKani(a).CheckedAdd(ToKani(b))
    ensures (ToKani(a.OverflowingAdd(b).0), a.OverflowingAdd(b).1) == ToKani(a).OverflowingAdd(ToKani(b))
  {
    SameOption(a.CheckedAdd(b), ToKani(a).CheckedAdd(ToKani(b)));
    KaniInjective(ToKani(a.OverflowingAdd(b).0), ToKani(a).OverflowingAdd(ToKani(b)).0);
  }

  lemma SubAgrees(a: U256, b: U256)
    ensures ToKaniOption(a.CheckedSub(b)) == ToKani(a).CheckedSub(ToKani(b))
    ensures (ToKani(a.OverflowingSub(b).0), a.OverflowingSub(b).1) == ToKani(a).OverflowingSub(ToKani(b))
  {
    SameOption(a.CheckedSub(b), ToKani(a).CheckedSub(ToKani(b)));
    KaniInjective(ToKani(a.OverflowingSub(b).0), ToKani(a).OverflowingSub(ToKani(b)).0);
  }

  lemma SameOption(a: Option<U256>, k: Option<KaniU256>)
    requires a.Some? <==> k.Some?
    requires a.Some? ==> a.value.Value() == k.value.Value()
    ensures ToKaniOption(a) == k
  {
    if a.Some? {
      KaniInjective(ToKani(a.value), k.value);
    }
  }
}
