/**
 * The rounding helpers of crates/engine/src/wide_math.rs that the risk engine settles with.
 * Each is proved equal to the floor or ceiling of the exact, unbounded quotient, and each
 * panic or error is given by an exact condition on the arguments.
 */
module MulDiv {
  import opened Wrappers
  import opened Arith
  import opened Words
  import opened Uint256
  import opened Int256
  import opened Division
  import opened Uint512

  /** The least c with n <= c * d. Dafny's n / d is the floor, since d > 0. */
  function Ceil(n: int, d: int): (c: int)
    requires d > 0
  {
    -((-n) / d)
  }

  /** A ceiling in the form the code computes it: quotient, plus one for a remainder. */
  lemma CeilFromRemainder(n: nat, d: int)
    requires d > 0
    ensures Ceil(n, d) == if n % d == 0 then n / d else n / d + 1
    ensures 0 <= n / d <= Ceil(n, d)
    ensures n > 0 ==> Ceil(n, d) > 0
  {
    DivShrinks(n, d);
    var q, r := n / d, n % d;
    if r == 0 {
      DivModUnique(0 - n, d, 0 - q, 0);
    } else {
      DivModUnique(0 - n, d, 0 - q - 1, d - r);
    }
  }

  lemma CeilBelow(n: nat, d: int)
    requires d > 0
    ensures Ceil(n, d) <= n
    ensures d >= 2 && n >= 2 ==> Ceil(n, d) < n
  {
    CeilFromRemainder(n, d);
    DivShrinks(n, d);
    if d >= 2 && n >= 2 {
      FloorIsGreatest(n, d, n - 1);
      MulMono(2, d, n - 1);
      MulCommutes(d, n - 1);
    }
  }

  /** q, or q + 1 when the remainder is not zero: the step every ceiling helper ends with. */
  function RoundUp(q: U256, r: U256): (c: Option<U256>) {
    if r.IsZero() then Some(q) else q.CheckedAdd(U256.ONE)
  }

  lemma RoundUpIsCeil(q: U256, r: U256, n: nat, d: int)
    requires d > 0 && q.Value() == n / d && r.Value() == n % d
    ensures RoundUp(q, r).Some? <==> Ceil(n, d) < W256
    ensures RoundUp(q, r).Some? ==> RoundUp(q, r).value.Value() == Ceil(n, d)
  {
    CeilFromRemainder(n, d);
    assert U256.ONE.Value() == 1;
    hide Ceil;
  }

  // ---------- unsigned helpers ----------

  /** ceil_div_positive_checked: the "+ 1" can never overflow. */
  method CeilDivPositiveChecked(n: U256, d: U256) returns (r: Outcome<U256>)
    ensures r.Panicked? <==> d.Value() == 0
    ensures r.Returned? ==> r.value.Value() == Ceil(n.Value(), d.Value())
  {
    hide *;
    var qr := DivRemU256(n, d);
    if qr.Panicked? {
      return Panicked;
    }
    RoundUpIsCeil(qr.value.0, qr.value.1, n.Value(), d.Value());
    CeilBelow(n.Value(), d.Value());
    return Returned(RoundUp(qr.value.0, qr.value.1).value);
  }

  /** mul_div_floor_u256_with_rem, through the 512-bit product. */
  method MulDivFloorWithRem(a: U256, b: U256, d: U256) returns (r: Outcome<(U256, U256)>)
    ensures r.Panicked? <==> d.Value() == 0 || (a.Value() * b.Value()) / d.Value() >= W256
    ensures r.Returned? ==> r.value.0.Value() == (a.Value() * b.Value()) / d.Value()
    ensures r.Returned? ==> r.value.1.Value() == (a.Value() * b.Value()) % d.Value()
  {
    hide *;
    var qr := CheckedDivRemByU256(MulU256(a, b), d);
    if qr.Panicked? || qr.value.None? {
      return Panicked;
    }
    return Returned(qr.value.value);
  }

  /** mul_div_floor_u256. */
  method MulDivFloorU256(a: U256, b: U256, d: U256) returns (r: Outcome<U256>)
    ensures r.Panicked? <==> d.Value() == 0 || (a.Value() * b.Value()) / d.Value() >= W256
    ensures r.Returned? ==> r.value.Value() == (a.Value() * b.Value()) / d.Value()
  {
    hide *;
    var qr := MulDivFloorWithRem(a, b, d);
    return if qr.Panicked? then Panicked else Returned(qr.value.0);
  }

  /** checked_mul_div_ceil_u256: a result exactly when the ceiling fits 256 bits. */
  method CheckedMulDivCeilU256(a: U256, b: U256, d: U256) returns (r: Option<U256>)
    ensures r.Some? <==> d.Value() != 0 && Ceil(a.Value() * b.Value(), d.Value()) < W256
    ensures r.Some? ==> r.value.Value() == Ceil(a.Value() * b.Value(), d.Value())
  {
    hide *;
    if d.IsZero() {
      return None;
    }
    var product := MulU256(a, b);
    ProductOfValues(a, b);
    var qr := CheckedDivRemByU256(product, d);
    CeilFromRemainder(a.Value() * b.Value(), d.Value());
    if qr.value.None? {
      return None;
    }
    RoundUpIsCeil(qr.value.value.0, qr.value.value.1, a.Value() * b.Value(), d.Value());
    return RoundUp(qr.value.value.0, qr.value.value.1);
  }

  lemma ProductOfValues(a: U256, b: U256)
    ensures 0 <= a.Value() * b.Value() < W512
  {
    ProductBound(a.Value(), b.Value());
  }

  /** mul_div_ceil_u256: panics exactly when the ceiling does not fit. */
  method MulDivCeilU256(a: U256, b: U256, d: U256) returns (r: Outcome<U256>)
    ensures r.Panicked? <==> d.Value() == 0 || Ceil(a.Value() * b.Value(), d.Value()) >= W256
    ensures r.Returned? ==> r.value.Value() == Ceil(a.Value() * b.Value(), d.Value())
  {
    hide *;
    var qr := MulDivFloorWithRem(a, b, d);
    ProductOfValues(a, b);
    if !d.IsZero() {
      CeilFromRemainder(a.Value() * b.Value(), d.Value());
    }
    if qr.Panicked? {
      return Panicked;
    }
    RoundUpIsCeil(qr.value.0, qr.value.1, a.Value() * b.Value(), d.Value());
    var c := RoundUp(qr.value.0, qr.value.1);
    return if c.None? then Panicked else Returned(c.value);
  }

  /** mul_div_floor_u128, the native form the share prices use: the product must fit. */
  function MulDivFloorU128(a: u128, b: u128, d: u128): (r: Outcome<u128>)
    ensures r.Panicked? <==> d == 0 || a * b > U128_MAX
    ensures r.Returned? ==> r.value == (a * b) / d
  {
    if d == 0 then Panicked
    else if a * b > U128_MAX then Panicked
    else
      MulMono(0, a, b);
      DivShrinks(a * b, d);
      Returned((a * b) / d)
  }

  /** wide_mul_div_floor_u128: only the result must fit, not the product. */
  method WideMulDivFloorU128(a: u128, b: u128, d: u128) returns (r: Outcome<u128>)
    ensures r.Panicked? <==> d == 0 || (a * b) / d >= W128
    ensures r.Returned? ==> r.value == (a * b) / d
  {
    if d == 0 {
      return Panicked;
    }
    var q := MulDivFloorU256(U256.FromU128(a), U256.FromU128(b), U256.FromU128(d));
    hide *;
    if q.Panicked? {
      return Panicked;
    }
    var v := q.value.TryIntoU128();
    return if v.None? then Panicked else Returned(v.value);
  }

  lemma CeilOfWordsFits(a: u128, b: u128, d: u128)
    requires d > 0
    ensures 0 <= a * b && Ceil(a * b, d) < W256
  {
    TwoDigitBounds(a, 0, b + 1, 0, W128);
    assert a * (b + 1) == a * b + a;
    MulMono(0, a, b);
    CeilBelow(a * b, d);
  }

  /**
   * wide_mul_div_ceil_u128_or_over_i128max: Ok exactly when the ceiling is an i128
   * magnitude; the only panic is the zero denominator.
   */
  method WideMulDivCeilOrOverI128Max(a: u128, b: u128, d: u128) returns (r: Outcome<Result<u128, ()>>)
    ensures r.Panicked? <==> d == 0
    ensures r.Returned? ==> (r.value.Ok? <==> Ceil(a * b, d) < HALF128)
    ensures r.Returned? && r.value.Ok? ==> r.value.value == Ceil(a * b, d)
  {
    if d == 0 {
      return Panicked;
    }
    var c := MulDivCeilU256(U256.FromU128(a), U256.FromU128(b), U256.FromU128(d));
    CeilOfWordsFits(a, b, d);
    var v := c.value.TryIntoU128();
    if v.Some? && v.value <= HALF128 - 1 {
      return Returned(Ok(v.value));
    }
    return Returned(Err(()));
  }

  // ---------- signed helpers ----------

  lemma FloorOfNegative(n: int, d: int)
    requires n <= 0 && d > 0
    ensures n / d == -Ceil(-n, d)
  {
  }

  /** Reinterprets a magnitude as signed and negates it, as the negative branches do. */
  function NegateMagnitude(mag: U256): (r: Outcome<I256>)
    ensures r.Panicked? <==> mag.Value() == HALF256
    ensures r.Returned? ==> r.value.Value() == if mag.Value() < HALF256 then -mag.Value() else W256 - mag.Value()
  {
    if mag.IsZero() then Returned(I256.ZERO)
    else
      var neg := I256.FromRaw(mag).CheckedNeg();
      if neg.None? then Panicked else Returned(neg.value)
  }

  lemma NegativeMagnitude(n: I256)
    requires n.Value() < 0
    ensures U256.New(Not(n.Pair().0), Not(n.Pair().1)).CheckedAdd(U256.ONE).Some?
    ensures U256.New(Not(n.Pair().0), Not(n.Pair().1)).CheckedAdd(U256.ONE).value.Value() == -n.Value()
  {
    assert U256.ONE.Value() == 1;
    assert U256.New(Not(n.Pair().0), Not(n.Pair().1)).Value() == W256 - 1 - PairValue(n.Pair());
  }

  /** floor_div_signed_conservative: exact on every input but a zero divisor and (MIN, 1). */
  method FloorDivSignedConservative(n: I256, d: U256) returns (r: Outcome<I256>)
    ensures r.Panicked? <==> d.Value() == 0 || (n.Value() == -HALF256 && d.Value() == 1)
    ensures r.Returned? ==> r.value.Value() == n.Value() / d.Value()
  {
    if d.IsZero() {
      return Panicked;
    }
    if n.IsZero() {
      DivModUnique(0, d.Value(), 0, 0);
      return Returned(I256.ZERO);
    }
    if !n.IsNegative() {
      var qr := DivRemU256(n.AbsU256(), d);
      DivShrinks(n.Value(), d.Value());
      return Returned(I256.FromRaw(qr.value.0));
    }
    NegativeMagnitude(n);
    var absN := U256.New(Not(n.Pair().0), Not(n.Pair().1)).CheckedAdd(U256.ONE).value;
    r := NegativeQuotient(absN, n, d);
  }

  lemma WideMagnitude(n: int, d: int)
    requires -HALF256 <= n < 0 && d > 0
    ensures n / d == -Ceil(-n, d)
    ensures 0 < Ceil(-n, d) <= HALF256 < W256
    ensures Ceil(-n, d) == HALF256 <==> n == -HALF256 && d == 1
  {
    CeilFromRemainder(-n, d);
    CeilBelow(-n, d);
    FloorOfNegative(n, d);
    assert d == 1 ==> Ceil(-n, d) == -n;
  }

  method NegativeQuotient(absN: U256, ghost n: I256, d: U256) returns (r: Outcome<I256>)
    requires -HALF256 <= n.Value() < 0 && absN.Value() == -n.Value() && d.Value() > 0
    ensures r.Panicked? <==> n.Value() == -HALF256 && d.Value() == 1
    ensures r.Returned? ==> r.value.Value() == n.Value() / d.Value()
  {
    hide *;
    WideMagnitude(n.Value(), d.Value());
    var qr := DivRemU256(absN, d);
    RoundUpIsCeil(qr.value.0, qr.value.1, -n.Value(), d.Value());
    r := NegateMagnitude(RoundUp(qr.value.0, qr.value.1).value);
  }

  /** The magnitude the native negative branch computes: below 2^127 but for (MIN, 1). */
  lemma NativeMagnitude(n: int, d: int)
    requires -HALF128 <= n < 0 && d > 0
    ensures n / d == -Ceil(-n, d)
    ensures Ceil(-n, d) == if (-n) % d != 0 then (-n) / d + 1 else (-n) / d
    ensures Ceil(-n, d) > HALF128 - 1 <==> n == -HALF128 && d == 1
  {
    CeilFromRemainder(-n, d);
    CeilBelow(-n, d);
    FloorOfNegative(n, d);
    assert d == 1 ==> Ceil(-n, d) == -n;
  }

  /** floor_div_signed_conservative_i128: exact but for a zero divisor and (i128::MIN, 1). */
  function FloorDivSignedI128(n: i128, d: u128): (r: Outcome<i128>)
    ensures r.Panicked? <==> d == 0 || (n == -HALF128 && d == 1)
    ensures r.Returned? ==> r.value == n / d
  {
    if d == 0 then Panicked
    else if n >= 0 then
      DivShrinks(n, d);
      Returned(n / d)
    else
      NativeMagnitude(n, d);
      var absN: int := 0 - n;
      var mag := if absN % d != 0 then absN / d + 1 else absN / d;
      if mag > HALF128 - 1 then Panicked else Returned(-mag)
  }

  /** The settlement the specification asks for, on unbounded integers. */
  function ExactSettlement(basis: int, k: int, den: int): int
    requires den > 0
  {
    (basis * k) / den
  }

  lemma SettlementBySign(basis: nat, k: int, den: int)
    requires den > 0
    ensures k >= 0 ==> ExactSettlement(basis, k, den) == (basis * k) / den >= 0
    ensures k < 0 ==> ExactSettlement(basis, k, den) == -Ceil(basis * (-k), den) <= 0
    ensures basis * Abs(k) >= 0
    ensures k < 0 ==> (basis * (-k)) / den <= Ceil(basis * (-k), den)
    ensures basis == 0 || k == 0 ==> ExactSettlement(basis, k, den) == 0
  {
    MulMono(0, basis, Abs(k));
    if k >= 0 {
      DivShrinks(basis * k, den);
    } else {
      assert basis * (-k) == -(basis * k);
      CeilFromRemainder(basis * (-k), den);
    }
    if basis == 0 || k == 0 {
      DivModUnique(0, den, 0, 0);
    }
  }

  /** A magnitude below 2^256 with its sign, reinterpreted as a signed 256-bit integer. */
  function Wrapped(exact: int): int {
    if exact >= HALF256 then exact - W256 else if exact < -HALF256 then exact + W256 else exact
  }

  /** What wide_signed_mul_div_floor does with three integers. */
  function WideOutcome(basis: int, k: int, den: nat): Outcome<int> {
    if den == 0 || (basis != 0 && k == -HALF256) then Panicked
    else
      var exact := ExactSettlement(basis, k, den);
      if !(-W256 < exact < W256) || exact == -HALF256 then Panicked else Returned(Wrapped(exact))
  }

  /**
   * wide_signed_mul_div_floor. It is exact only while the magnitude stays below 2^255: above
   * that the unchecked reinterpretation flips the sign (or, at exactly -2^255, panics).
   */
  method WideSignedMulDivFloor(basis: U256, k: I256, den: U256) returns (r: Outcome<I256>)
    ensures r.Panicked? <==> WideOutcome(basis.Value(), k.Value(), den.Value()).Panicked?
    ensures r.Returned? ==> WideOutcome(basis.Value(), k.Value(), den.Value()) == Returned(r.value.Value())
  {
    hide *;
    BoundsOf(basis, k);
    WideMeans(basis.Value(), k.Value(), den.Value());
    if den.IsZero() {
      return Panicked;
    }
    SettlementBySign(basis.Value(), k.Value(), den.Value());
    if k.IsZero() || basis.IsZero() {
      return Returned(I256.ZERO);
    }
    if k.IsMin() {
      return Panicked;
    }
    var absK := k.AbsU256();
    AbsMeans(k.Value());
    var qr := MulDivFloorWithRem(basis, absK, den);
    if !k.IsNegative() {
      if qr.Panicked? {
        return Panicked;
      }
      return Returned(I256.FromRaw(qr.value.0));
    }
    if qr.Panicked? {
      return Panicked;
    }
    RoundUpIsCeil(qr.value.0, qr.value.1, basis.Value() * -k.Value(), den.Value());
    var mag := RoundUp(qr.value.0, qr.value.1);
    if mag.None? {
      return Panicked;
    }
    r := NegateMagnitude(mag.value);
  }

  lemma WideMeans(basis: int, k: int, den: nat)
    ensures WideOutcome(basis, k, den).Panicked? <==>
              || den == 0
              || (basis != 0 && k == -HALF256)
              || ExactSettlement(basis, k, den) >= W256
              || ExactSettlement(basis, k, den) <= -W256
              || ExactSettlement(basis, k, den) == -HALF256
    ensures WideOutcome(basis, k, den).Returned? ==>
              var exact := ExactSettlement(basis, k, den);
              WideOutcome(basis, k, den).value == if exact >= HALF256 then exact - W256
                                                  else if exact < -HALF256 then exact + W256
                                                  else exact
  {
    hide ExactSettlement;
  }

  /**
   * The exact floor is returned if and only if the denominator is not zero, k is not MIN
   * against a basis, and the floor lies strictly between -2^255 and 2^255.
   */
  lemma WideExactly(basis: int, k: int, den: nat)
    ensures den > 0 && WideOutcome(basis, k, den) == Returned(ExactSettlement(basis, k, den)) <==>
              && den > 0
              && (basis == 0 || k != -HALF256)
              && -HALF256 < ExactSettlement(basis, k, den) < HALF256
  {
    hide ExactSettlement;
  }

  /** The limbs of 2^255 as a basis, and of -1 as a difference. */
  const TOP_BIT: U256 := U256(0, 0, 0, 0x8000_0000_0000_0000)
  const MINUS_ONE: I256 := I256(U64_MAX, U64_MAX, U64_MAX, U64_MAX)

  /** 2^255 * 1 / 1 comes back as -2^255; 2^255 * -1 / 1, whose floor is MIN, panics. */
  lemma WideCounterexamples()
    ensures TOP_BIT.Value() == HALF256 && I256(1, 0, 0, 0).Value() == 1
    ensures MINUS_ONE.Value() == -1 && U256.ONE.Value() == 1
    ensures WideOutcome(TOP_BIT.Value(), I256(1, 0, 0, 0).Value(), U256.ONE.Value()) == Returned(-HALF256)
    ensures ExactSettlement(TOP_BIT.Value(), I256(1, 0, 0, 0).Value(), U256.ONE.Value()) == HALF256
    ensures WideOutcome(TOP_BIT.Value(), MINUS_ONE.Value(), U256.ONE.Value()) == Panicked
    ensures ExactSettlement(TOP_BIT.Value(), MINUS_ONE.Value(), U256.ONE.Value()) == -HALF256
  {
    WideInputs();
    WideAtTopBit();
    hide WideOutcome, ExactSettlement, I256.Value, U256.Value;
  }

  lemma WideInputs()
    ensures TOP_BIT.Value() == HALF256 && I256(1, 0, 0, 0).Value() == 1
    ensures MINUS_ONE.Value() == -1 && U256.ONE.Value() == 1
  {
  }

  lemma WideAtTopBit()
    ensures WideOutcome(HALF256, 1, 1) == Returned(-HALF256) && ExactSettlement(HALF256, 1, 1) == HALF256
    ensures WideOutcome(HALF256, -1, 1) == Panicked && ExactSettlement(HALF256, -1, 1) == -HALF256
  {
  }

  lemma AbsMeans(x: int)
    ensures Abs(x) == if x < 0 then -x else x
  {
  }

  lemma BoundsOf(basis: U256, k: I256)
    ensures 0 <= basis.Value() < W256 && -HALF256 <= k.Value() < HALF256
    ensures I256.ZERO.Value() == 0 && W256 == 2 * HALF256 && HALF256 > 0
  {
  }
}
