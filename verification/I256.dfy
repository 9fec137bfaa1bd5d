/**
 * The 256-bit two's complement integer of crates/engine/src/wide_math.rs. The text the two
 * layouts share is written once over a pair of 128-bit words; I256 is the deployed layout
 * ([u64; 4]) and KaniI256 the model-checking one ([u128; 2]).
 */
module Int256 {
  import opened Wrappers
  import opened Arith
  import opened Words
  import opened Uint256

  const MIN_PAIR: (u128, u128) := (0, HALF128)
  const ONE_PAIR: (u128, u128) := (1, 0)

  /** The integer a pair of words stands for in two's complement. */
  function SignedValue(w: (u128, u128)): (v: int)
    ensures -HALF256 <= v < HALF256
  {
    if PairValue(w) < HALF256 then PairValue(w) else PairValue(w) - W256
  }

  predicate FitsI256(v: int) {
    -HALF256 <= v < HALF256
  }

  lemma SignedInjective(a: (u128, u128), b: (u128, u128))
    requires SignedValue(a) == SignedValue(b)
    ensures a == b
  {
    PairInjective(a, b);
  }

  /** Bit 127 of the high word. */
  predicate PairNegative(w: (u128, u128))
    ensures PairNegative(w) <==> SignedValue(w) < 0
  {
    Pow2Of127();
    Shr(w.1, 127) != 0
  }

  /** Invert every bit and add one, carrying from the low word into the high one. */
  function WrappingNeg(w: (u128, u128)): (r: (u128, u128))
    ensures PairValue(r) == if PairValue(w) == 0 then 0 else W256 - PairValue(w)
  {
    var (lo, carry) := OverflowingAdd(Not(w.0), 1);
    var (hi, _) := OverflowingAdd(Not(w.1), Bit(carry));
    (lo, hi)
  }

  function PairNeg(w: (u128, u128)): (r: Option<(u128, u128)>)
    ensures r.Some? <==> FitsI256(-SignedValue(w))
    ensures r.Some? ==> SignedValue(r.value) == -SignedValue(w)
  {
    if w == MIN_PAIR then None else Some(WrappingNeg(w))
  }

  /** Word-by-word addition, dropping the carry out of the top word. */
  function WrappingAdd(a: (u128, u128), b: (u128, u128)): (r: (u128, u128))
    ensures var sum := PairValue(a) + PairValue(b);
            PairValue(r) == if sum < W256 then sum else sum - W256
  {
    var (lo, carry) := OverflowingAdd(a.0, b.0);
    var (hi, _) := OverflowingAdd(a.1, b.1);
    var (hi2, _) := OverflowingAdd(hi, Bit(carry));
    (lo, hi2)
  }

  function WrappingSub(a: (u128, u128), b: (u128, u128)): (r: (u128, u128))
    ensures var diff := PairValue(a) - PairValue(b);
            PairValue(r) == if diff >= 0 then diff else diff + W256
  {
    var (lo, borrow) := OverflowingSub(a.0, b.0);
    var (hi, _) := OverflowingSub(a.1, b.1);
    var (hi2, _) := OverflowingSub(hi, Bit(borrow));
    (lo, hi2)
  }

  /** Overflow is seen in the signs: equal operand signs and a different result sign. */
  function PairAdd(a: (u128, u128), b: (u128, u128)): (r: Option<(u128, u128)>)
    ensures r.Some? <==> FitsI256(SignedValue(a) + SignedValue(b))
    ensures r.Some? ==> SignedValue(r.value) == SignedValue(a) + SignedValue(b)
  {
    var result := WrappingAdd(a, b);
    if PairNegative(a) == PairNegative(b) && PairNegative(result) != PairNegative(a) then None
    else Some(result)
  }

  /** Adds the negation, except for MIN, which has none. */
  function PairSub(a: (u128, u128), b: (u128, u128)): (r: Option<(u128, u128)>)
    ensures r.Some? <==> FitsI256(SignedValue(a) - SignedValue(b))
    ensures r.Some? ==> SignedValue(r.value) == SignedValue(a) - SignedValue(b)
  {
    var neg := PairNeg(b);
    if neg.Some? then PairAdd(a, neg.value)
    else
      var result := WrappingSub(a, b);
      if !PairNegative(a) && PairNegative(result) then None else Some(result)
  }

  /** |w| as an unsigned pair; the caller excludes MIN, where abs_u256 panics. */
  function PairAbs(w: (u128, u128)): (r: (u128, u128))
    requires w != MIN_PAIR
    ensures PairValue(r) == if SignedValue(w) < 0 then -SignedValue(w) else SignedValue(w)
  {
    if PairNegative(w) then WrappingNeg(w) else w
  }

  /** from_u256_or_overflow. */
  function PairFromUnsigned(w: (u128, u128)): (r: Option<(u128, u128)>)
    ensures r.Some? <==> PairValue(w) < HALF256
    ensures r.Some? ==> SignedValue(r.value) == PairValue(w)
  {
    Pow2Of127();
    if Shr(w.1, 127) != 0 then None else Some(w)
  }

  /** checked_mul_i256: magnitudes multiply, the sign is restored, MIN is special-cased. */
  function PairMul(a: (u128, u128), b: (u128, u128)): (r: Option<(u128, u128)>) {
    if SignedValue(a) == 0 || SignedValue(b) == 0 then Some((0, 0))
    else if a == MIN_PAIR then (if b == ONE_PAIR then Some(MIN_PAIR) else None)
    else if b == MIN_PAIR then (if a == ONE_PAIR then Some(MIN_PAIR) else None)
    else
      var product := MulPair(PairAbs(a), PairAbs(b));
      if product.None? then None
      else if PairNegative(a) != PairNegative(b) then
        if product.value == MIN_PAIR then Some(MIN_PAIR)
        else if ComparePair(product.value, MIN_PAIR).Greater? then None
        else
          var pos := PairFromUnsigned(product.value);
          if pos.None? then None else PairNeg(pos.value)
      else PairFromUnsigned(product.value)
  }

  function Abs(x: int): int {
    if x < 0 then -x else x
  }

  lemma AbsProduct(x: int, y: int)
    ensures x * y == if (x < 0) == (y < 0) then Abs(x) * Abs(y) else -(Abs(x) * Abs(y))
    ensures Abs(x) * Abs(y) >= 0
    ensures x != 0 && y != 0 ==> Abs(x) * Abs(y) >= Abs(x) && Abs(x) * Abs(y) >= Abs(y)
  {
    if x != 0 && y != 0 {
      MulMono(1, Abs(x), Abs(y));
      MulMono(1, Abs(y), Abs(x));
      MulCommutes(Abs(x), Abs(y));
    }
  }

  lemma AbsProductTwice(x: int, y: int)
    requires x != 0 && Abs(y) >= 2
    ensures Abs(x) * Abs(y) >= 2 * Abs(x)
  {
    MulMono(2, Abs(y), Abs(x));
    MulCommutes(Abs(x), Abs(y));
  }

  /** MIN times b fits only for b = 1 (and b = 0, handled before). */
  lemma MinProduct(a: int, b: int)
    requires a == -HALF256 && FitsI256(b) && b != 0
    ensures FitsI256(a * b) <==> b == 1
  {
    AbsProduct(a, b);
    if Abs(b) >= 2 {
      AbsProductTwice(a, b);
    }
  }

  lemma PairMulIsProduct(a: (u128, u128), b: (u128, u128))
    ensures PairMul(a, b).Some? <==> FitsI256(SignedValue(a) * SignedValue(b))
    ensures PairMul(a, b).Some? ==> SignedValue(PairMul(a, b).value) == SignedValue(a) * SignedValue(b)
  {
    var x, y := SignedValue(a), SignedValue(b);
    if x != 0 && y != 0 {
      if a == MIN_PAIR {
        MinProduct(x, y);
        if y == 1 {
          SignedInjective(b, ONE_PAIR);
        }
      } else if b == MIN_PAIR {
        MulCommutes(x, y);
        MinProduct(y, x);
        if x == 1 {
          SignedInjective(a, ONE_PAIR);
        }
      } else {
        PairMulGeneral(a, b);
      }
    }
  }

  lemma PairMulGeneral(a: (u128, u128), b: (u128, u128))
    requires SignedValue(a) != 0 && SignedValue(b) != 0 && a != MIN_PAIR && b != MIN_PAIR
    ensures PairMul(a, b).Some? <==> FitsI256(SignedValue(a) * SignedValue(b))
    ensures PairMul(a, b).Some? ==> SignedValue(PairMul(a, b).value) == SignedValue(a) * SignedValue(b)
  {
    var x, y := SignedValue(a), SignedValue(b);
    AbsProduct(x, y);
    assert PairValue(PairAbs(a)) == Abs(x) && PairValue(PairAbs(b)) == Abs(y);
    var product := MulPair(PairAbs(a), PairAbs(b));
    assert product.Some? <==> Abs(x) * Abs(y) < W256;
    if product.Some? && PairValue(product.value) == HALF256 {
      PairInjective(product.value, MIN_PAIR);
    }
  }

  /** The deployed layout: four 64-bit limbs, least significant first. */
  datatype I256 = I256(l0: u64, l1: u64, l2: u64, l3: u64) {
    static const ZERO := I256(0, 0, 0, 0)
    static const MIN := I256(0, 0, 0, 0x8000_0000_0000_0000)

    static function FromPair(w: (u128, u128)): (r: I256)
      ensures r.Pair() == w && r.Value() == SignedValue(w)
    {
      I256(LowHalf(w.0), HighHalf(w.0), LowHalf(w.1), HighHalf(w.1))
    }

    static function FromI128(v: i128): (r: I256)
      ensures r.Value() == v
    {
      FromPair((if v < 0 then v + W128 else v, if v < 0 then U128_MAX else 0))
    }

    /** from_raw_u256: the bits are reinterpreted, so values from 2^255 up come out negative. */
    static function FromRaw(u: U256): (r: I256)
      ensures r.Pair() == u.Pair()
      ensures r.Value() == if u.Value() < HALF256 then u.Value() else u.Value() - W256
    {
      FromPair(u.Pair())
    }

    function Pair(): (u128, u128) {
      (Join(l0, l1), Join(l2, l3))
    }

    /** The integer this value stands for. */
    function Value(): (v: int)
      ensures FitsI256(v)
    {
      SignedValue(Pair())
    }

    predicate IsZero()
      ensures IsZero() <==> Value() == 0
    {
      l0 == 0 && l1 == 0 && l2 == 0 && l3 == 0
    }

    /** Bit 63 of the top limb. */
    predicate IsNegative()
      ensures IsNegative() <==> Value() < 0
    {
      l3 / 0x8000_0000_0000_0000 != 0
    }

    predicate IsMin()
      ensures IsMin() <==> Value() == -HALF256
    {
      assert Value() == -HALF256 ==> this == MIN by {
        if Value() == -HALF256 {
          I256Injective(this, MIN);
        }
      }
      this == MIN
    }

    function TryIntoI128(): (r: Option<i128>)
      ensures r == if -HALF128 <= Value() < HALF128 then Some(Value()) else None
    {
      var (lo, hi) := Pair();
      var asI128: i128 := if lo < HALF128 then lo else lo - W128;
      var signExtension := if asI128 < 0 then U128_MAX else 0;
      if hi == signExtension then Some(asI128) else None
    }

    /** abs_u256, which panics on MIN. */
    function AbsU256(): (r: U256)
      requires !IsMin()
      ensures r.Value() == Abs(Value())
    {
      var w := PairAbs(Pair());
      U256.New(w.0, w.1)
    }

    function CheckedNeg(): (r: Option<I256>)
      ensures r.Some? <==> FitsI256(-Value())
      ensures r.Some? ==> r.value.Value() == -Value()
    {
      Wrap(PairNeg(Pair()))
    }

    function CheckedAdd(rhs: I256): (r: Option<I256>)
      ensures r.Some? <==> FitsI256(Value() + rhs.Value())
      ensures r.Some? ==> r.value.Value() == Value() + rhs.Value()
    {
      Wrap(PairAdd(Pair(), rhs.Pair()))
    }

    function CheckedSub(rhs: I256): (r: Option<I256>)
      ensures r.Some? <==> FitsI256(Value() - rhs.Value())
      ensures r.Some? ==> r.value.Value() == Value() - rhs.Value()
    {
      Wrap(PairSub(Pair(), rhs.Pair()))
    }

    function CheckedMulI256(rhs: I256): (r: Option<I256>)
      ensures r.Some? <==> FitsI256(Value() * rhs.Value())
      ensures r.Some? ==> r.value.Value() == Value() * rhs.Value()
    {
      PairMulIsProduct(Pair(), rhs.Pair());
      Wrap(PairMul(Pair(), rhs.Pair()))
    }

    function Cmp(other: I256): (o: Ordering)
      ensures o == Compare(Value(), other.Value())
    {
      if IsNegative() && !other.IsNegative() then Less
      else if !IsNegative() && other.IsNegative() then Greater
      else ComparePair(Pair(), other.Pair())
    }
  }

  function Wrap(w: Option<(u128, u128)>): Option<I256> {
    if w.None? then None else Some(I256.FromPair(w.value))
  }

  lemma I256Injective(a: I256, b: I256)
    requires a.Value() == b.Value()
    ensures a == b
  {
    SignedInjective(a.Pair(), b.Pair());
    DivModUnique(a.Pair().0, W64, a.l1, a.l0);
    DivModUnique(b.Pair().0, W64, b.l1, b.l0);
    DivModUnique(a.Pair().1, W64, a.l3, a.l2);
    DivModUnique(b.Pair().1, W64, b.l3, b.l2);
  }

  /** The model-checking layout: two 128-bit words, least significant first, with its own text. */
  datatype KaniI256 = KaniI256(lo: u128, hi: u128) {
    static const ZERO := KaniI256(0, 0)
    static const ONE := KaniI256(1, 0)
    static const MIN := KaniI256(0, HALF128)

    function Value(): (v: int)
      ensures FitsI256(v)
    {
      SignedValue((lo, hi))
    }

    predicate IsZero()
      ensures IsZero() <==> Value() == 0
    {
      lo == 0 && hi == 0
    }

    predicate IsNegative()
      ensures IsNegative() <==> Value() < 0
    {
      Pow2Of127();
      Shr(hi, 127) != 0
    }

    predicate IsMin()
      ensures IsMin() <==> Value() == -HALF256
    {
      this == MIN
    }

    /** Both words inverted, plus one. */
    function Negated(): (r: KaniI256)
      ensures !IsMin() ==> r.Value() == -Value()
    {
      var (negLo, carry) := OverflowingAdd(Not(lo), 1);
      var (negHi, _) := OverflowingAdd(Not(hi), Bit(carry));
      KaniI256(negLo, negHi)
    }

    function CheckedNeg(): (r: Option<KaniI256>)
      ensures r.Some? <==> FitsI256(-Value())
      ensures r.Some? ==> r.value.Value() == -Value()
    {
      if this == MIN then None else Some(Negated())
    }

    function CheckedAdd(rhs: KaniI256): (r: Option<KaniI256>)
      ensures r.Some? <==> FitsI256(Value() + rhs.Value())
      ensures r.Some? ==> r.value.Value() == Value() + rhs.Value()
    {
      var (sumLo, carry) := OverflowingAdd(lo, rhs.lo);
      var (sumHi, _) := OverflowingAdd(hi, rhs.hi);
      var (sumHi2, _) := OverflowingAdd(sumHi, Bit(carry));
      var result := KaniI256(sumLo, sumHi2);
      hide SignedValue, PairValue, Not, Shr, Bit, OverflowingAdd;
      WordSum(lo, hi, rhs.lo, rhs.hi);
      SignRule((lo, hi), (rhs.lo, rhs.hi), (sumLo, sumHi2));
      if IsNegative() == rhs.IsNegative() && result.IsNegative() != IsNegative() then None
      else Some(result)
    }

    function CheckedSub(rhs: KaniI256): (r: Option<KaniI256>)
      ensures r.Some? <==> FitsI256(Value() - rhs.Value())
      ensures r.Some? ==> r.value.Value() == Value() - rhs.Value()
    {
      var neg := rhs.CheckedNeg();
      if neg.Some? then CheckedAdd(neg.value)
      else
        var (diffLo, borrow) := OverflowingSub(lo, rhs.lo);
        var (diffHi, _) := OverflowingSub(hi, rhs.hi);
        var (diffHi2, _) := OverflowingSub(diffHi, Bit(borrow));
        var result := KaniI256(diffLo, diffHi2);
        if IsNegative() != true && result.IsNegative() != IsNegative() then None else Some(result)
    }

    /** abs_u256, which panics on MIN. */
    function AbsU256(): (r: KaniU256)
      requires !IsMin()
      ensures r.Value() == Abs(Value())
    {
      if IsNegative() then KaniU256(Negated().lo, Negated().hi) else KaniU256(lo, hi)
    }

    static function FromU256OrOverflow(v: KaniU256): (r: Option<KaniI256>)
      ensures r.Some? <==> v.Value() < HALF256
      ensures r.Some? ==> r.value.Value() == v.Value()
    {
      Pow2Of127();
      if Shr(v.hi, 127) != 0 then None else Some(KaniI256(v.lo, v.hi))
    }

    function CheckedMulI256(rhs: KaniI256): (r: Option<KaniI256>)
      ensures r.Some? <==> FitsI256(Value() * rhs.Value())
      ensures r.Some? ==> r.value.Value() == Value() * rhs.Value()
    {
      AbsProduct(Value(), rhs.Value());
      KaniMinProducts(this, rhs);
      if IsZero() || rhs.IsZero() then Some(ZERO)
      else if this == MIN then (if rhs == ONE then Some(MIN) else None)
      else if rhs == MIN then (if this == ONE then Some(MIN) else None)
      else
        var product := AbsU256().CheckedMul(rhs.AbsU256());
        if product.None? then None
        else if IsNegative() != rhs.IsNegative() then
          var order := product.value.Cmp(KaniU256(0, HALF128));
          if order.Equal? then Some(MIN)
          else if order.Greater? then None
          else
            var pos := FromU256OrOverflow(product.value);
            if pos.None? then None else pos.value.CheckedNeg()
        else FromU256OrOverflow(product.value)
    }

    function Cmp(other: KaniI256): (o: Ordering)
      ensures o == Compare(Value(), other.Value())
    {
      if IsNegative() && !other.IsNegative() then Less
      else if !IsNegative() && other.IsNegative() then Greater
      else KaniU256(lo, hi).Cmp(KaniU256(other.lo, other.hi))
    }
  }

  /** The word-by-word sum, modulo 2^256. */
  lemma WordSum(al: u128, ah: u128, bl: u128, bh: u128)
    ensures var (sl, carry) := OverflowingAdd(al, bl);
            var sh := OverflowingAdd(OverflowingAdd(ah, bh).0, Bit(carry)).0;
            (PairValue((sl, sh)) - PairValue((al, ah)) - PairValue((bl, bh))) % W256 == 0
  {
    var (sl, carry) := OverflowingAdd(al, bl);
    var sh := OverflowingAdd(OverflowingAdd(ah, bh).0, Bit(carry)).0;
    var d := PairValue((sl, sh)) - PairValue((al, ah)) - PairValue((bl, bh));
    assert d == 0 || d == -W256;
  }

  /** Two's complement addition overflows exactly when equal signs give the other sign. */
  lemma SignRule(a: (u128, u128), b: (u128, u128), r: (u128, u128))
    requires (PairValue(r) - PairValue(a) - PairValue(b)) % W256 == 0
    ensures var x, y, z := SignedValue(a), SignedValue(b), SignedValue(r);
            && (FitsI256(x + y) <==> !((x < 0) == (y < 0) && (z < 0) != (x < 0)))
            && (FitsI256(x + y) ==> z == x + y)
  {
    var d := PairValue(r) - PairValue(a) - PairValue(b);
    assert d == 0 || d == -W256;
  }

  /** The products with MIN that fit: by 0 and by 1. */
  lemma KaniMinProducts(a: KaniI256, b: KaniI256)
    ensures a.IsMin() && b.Value() != 0 ==> (FitsI256(a.Value() * b.Value()) <==> b == KaniI256.ONE)
    ensures b.IsMin() && a.Value() != 0 ==> (FitsI256(a.Value() * b.Value()) <==> a == KaniI256.ONE)
    ensures a == KaniI256.ONE ==> a.Value() * b.Value() == b.Value()
    ensures b == KaniI256.ONE ==> a.Value() * b.Value() == a.Value()
  {
    if a.IsMin() && b.Value() != 0 {
      MinProduct(a.Value(), b.Value());
    }
    if b.IsMin() && a.Value() != 0 {
      MulCommutes(a.Value(), b.Value());
      MinProduct(b.Value(), a.Value());
    }
  }

  function ToKaniSigned(a: I256): (k: KaniI256)
    ensures k.Value() == a.Value()
  {
    KaniI256(a.Pair().0, a.Pair().1)
  }

  function ToKaniSignedOption(a: Option<I256>): Option<KaniI256> {
    if a.None? then None else Some(ToKaniSigned(a.value))
  }

  lemma KaniI256Injective(a: KaniI256, b: KaniI256)
    requires a.Value() == b.Value()
    ensures a == b
  {
    SignedInjective((a.lo, a.hi), (b.lo, b.hi));
  }

  lemma SameSignedOption(a: Option<I256>, k: Option<KaniI256>)
    requires a.Some? <==> k.Some?
    requires a.Some? ==> a.value.Value() == k.value.Value()
    ensures ToKaniSignedOption(a) == k
  {
    if a.Some? {
      KaniI256Injective(ToKaniSigned(a.value), k.value);
    }
  }

  /** Both layouts compute the same signed operations and take the same sign tests. */
  lemma I256LayoutsAgree(a: I256, b: I256)
    ensures a.IsNegative() == ToKaniSigned(a).IsNegative()
    ensures ToKaniSignedOption(a.CheckedNeg()) == ToKaniSigned(a).CheckedNeg()
    ensures ToKaniSignedOption(a.CheckedAdd(b)) == ToKaniSigned(a).CheckedAdd(ToKaniSigned(b))
    ensures ToKaniSignedOption(a.CheckedSub(b)) == ToKaniSigned(a).CheckedSub(ToKaniSigned(b))
    ensures ToKaniSignedOption(a.CheckedMulI256(b)) == ToKaniSigned(a).CheckedMulI256(ToKaniSigned(b))
    ensures a.Cmp(b) == ToKaniSigned(a).Cmp(ToKaniSigned(b))
  {
    hide *;
    var x, y := ToKaniSigned(a), ToKaniSigned(b);
    SameSignedOption(a.CheckedNeg(), x.CheckedNeg());
    SameSignedOption(a.CheckedAdd(b), x.CheckedAdd(y));
    SameSignedOption(a.CheckedSub(b), x.CheckedSub(y));
    SameSignedOption(a.CheckedMulI256(b), x.CheckedMulI256(y));
  }
}
