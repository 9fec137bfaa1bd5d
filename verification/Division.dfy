/**
 * Binary long division on 256-bit integers (div_rem_u256). The integer facts behind one
 * step are stated once here and reused by the 512-bit division.
 */
module Division {
  import opened Wrappers
  import opened Arith
  import opened Words
  import opened Uint256

  /** den shifted left by i bits. */
  ghost function Scaled(den: nat, i: nat): (r: nat) {
    den * Pow2(i)
  }

  /**
   * The state of the loop before bit i is tried: q has no bit below i + 1 set, and what is
   * left of num is smaller than den shifted by i + 1.
   */
  ghost predicate Dividing(num: nat, den: nat, q: nat, rem: nat, i: int)
    requires -1 <= i
  {
    num == q * den + rem && rem < Scaled(den, i + 1) && q % Pow2(i + 1) == 0
  }

  /** The two numbers aligned at their top bits. */
  lemma AlignedStart(num: nat, den: nat, shift: nat)
    requires 0 < den <= num && shift == BitLen(num) - BitLen(den)
    ensures Dividing(num, den, 0, num, shift)
    ensures Scaled(den, shift) < Pow2(BitLen(num))
  {
    var n, len := BitLen(den), BitLen(num);
    assert num < Scaled(den, shift + 1) by {
      assert Pow2(len) == Pow2(n - 1) * Pow2(shift + 1) by {
        Pow2Adds(n - 1, shift + 1);
      }
      MulMono(Pow2(n - 1), den, Pow2(shift + 1));
    }
    assert Scaled(den, shift) < Pow2(len) by {
      Pow2Adds(n, shift);
      TwoDigitBounds(den, 0, Pow2(shift), 0, Pow2(n));
    }
    assert 0 % Pow2(shift + 1) == 0 by {
      DivModUnique(0, Pow2(shift + 1), 0, 0);
    }
  }

  lemma LengthsOrdered(num: nat, den: nat)
    requires den <= num
    ensures BitLen(den) <= BitLen(num)
  {
    BitLenBound(den, BitLen(num));
  }

  lemma MultipleOfHalf(q: nat, i: nat)
    requires q % Pow2(i + 1) == 0
    ensures q % Pow2(i) == 0 && (q + Pow2(i)) % Pow2(i) == 0
  {
    var k, p := q / Pow2(i + 1), Pow2(i);
    assert q == k * (2 * p) == (2 * k) * p;
    DivModUnique(q, p, 2 * k, 0);
    assert q + p == (2 * k + 1) * p;
    DivModUnique(q + p, p, 2 * k + 1, 0);
  }

  lemma ScaledDoubles(den: nat, i: nat)
    ensures Scaled(den, i + 1) == 2 * Scaled(den, i)
  {
    MulAssociates(2, den, Pow2(i));
    MulAssociates(den, 2, Pow2(i));
  }

  /** Trying bit i keeps the loop state, whether or not the divisor is subtracted. */
  lemma DividingStep(num: nat, den: nat, q: nat, rem: nat, i: nat)
    requires den > 0 && Dividing(num, den, q, rem, i)
    ensures BitClear(q, i)
    ensures rem < Scaled(den, i) ==> Dividing(num, den, q, rem, i - 1)
    ensures rem >= Scaled(den, i) ==> Dividing(num, den, q + Pow2(i), rem - Scaled(den, i), i - 1)
    ensures i > 0 ==> Scaled(den, i) == 2 * Scaled(den, i - 1)
  {
    MultipleIsClear(q, i);
    MultipleOfHalf(q, i);
    ScaledDoubles(den, i);
    hide BitClear;
    if i > 0 {
      ScaledDoubles(den, i - 1);
    }
    assert (q + Pow2(i)) * den == q * den + Scaled(den, i) by {
      MulDistributes(q, Pow2(i), den);
      MulCommutes(Pow2(i), den);
    }
  }

  /** When every bit has been tried the pair is the quotient and the remainder. */
  lemma DividingDone(num: nat, den: nat, q: nat, rem: nat)
    requires den > 0 && Dividing(num, den, q, rem, -1)
    ensures q == num / den && rem == num % den
  {
    DivModUnique(num, den, q, rem);
  }

  lemma PairLength(w: (u128, u128))
    ensures BitLen(PairValue(w)) == if w.1 != 0 then 128 + BitLen(w.1) else BitLen(w.0)
  {
    if w.1 != 0 {
      Pow2Of128();
      BitLenHigh(w.1, w.0, 128);
    }
  }

  /** leading_zeros_u256. */
  function LeadingZerosU256(v: U256): (n: nat)
    ensures n + BitLen(v.Value()) == 256
  {
    PairLength(v.Pair());
    if v.Hi() != 0 then LeadingZeros(v.Hi()) else 128 + LeadingZeros(v.Lo())
  }

  /** A power of two fits 256 bits when its exponent is below 256. */
  lemma Pow2Fits(i: nat)
    requires i <= 256
    ensures Pow2(i) <= W256 && (i < 256 ==> Pow2(i) < W256)
  {
    Pow2Of256(0);
    Pow2Grows(i, 256);
    if i < 256 {
      Pow2Grows(i, 255);
    }
  }

  /** The low 128 bits of a number are those of its lower word. */
  lemma LowDigitBit(x: nat, y: nat, i: nat)
    requires i < 128
    ensures BitClear(x + y * W128, i) == BitClear(x, i)
  {
    Pow2Of128();
    Pow2Adds(i, 128 - i);
    assert Pow2(128 - i) == 2 * Pow2(127 - i);
    hide Pow2;
    ParityAbove(x, y, Pow2(i), Pow2(127 - i));
  }

  /** The bits above are those of the upper word. */
  lemma HighDigitBit(x: nat, y: nat, i: nat)
    requires x < W128
    ensures BitClear(x + y * W128, 128 + i) == BitClear(y, i)
  {
    Pow2Of128();
    Pow2Adds(128, i);
    hide Pow2;
    DivModUnique(x + y * W128, W128, y, x);
    DivDiv(x + y * W128, W128, Pow2(i));
  }

  lemma WordBit(i: nat)
    requires i < 128
    ensures Pow2(i) < W128 && Shl(1, i) == Pow2(i)
  {
    Pow2Of127();
    Pow2Grows(i, 127);
    hide Pow2;
    DivModUnique(Pow2(i), W128, 0, Pow2(i));
  }

  lemma OrWordBit(x: u128, i: nat)
    requires i < 128
    ensures Pow2(i) < W128 && Shl(1, i) == Pow2(i)
    ensures Or(x, Pow2(i)) == if BitClear(x, i) then x + Pow2(i) else x
  {
    WordBit(i);
    BitOrSets(x, i);
    hide Pow2, BitOr, BitClear, Shl;
  }

  /** Or with bit i sets it: it adds 2^i when the bit is clear, and changes nothing otherwise. */
  lemma OrBit(q: U256, i: nat)
    requires i < 256
    ensures q.BitwiseOr(U256.ONE.ShlBits(i)).Value()
         == if BitClear(q.Value(), i) then q.Value() + Pow2(i) else q.Value()
  {
    if i < 128 {
      OrBitLow(q, i);
    } else {
      OrBitHigh(q, i - 128);
    }
  }

  lemma OneIsOne()
    ensures U256.ONE.Value() == 1
  {
  }

  lemma HighPower(i: nat)
    ensures Pow2(128 + i) == Pow2(i) * W128
  {
    Pow2Of128();
    Pow2Adds(128, i);
    hide Pow2;
  }

  lemma OneShifted(one: U256, i: nat)
    requires one.Value() == 1 && i < 256
    ensures one.ShlBits(i).Value() == Pow2(i)
  {
    hide *;
    Pow2Fits(i);
    DivModUnique(Pow2(i), W256, 0, Pow2(i));
  }

  lemma OrBitLow(q: U256, i: nat)
    requires i < 128
    ensures q.BitwiseOr(U256.ONE.ShlBits(i)).Value()
         == if BitClear(q.Value(), i) then q.Value() + Pow2(i) else q.Value()
  {
    hide *;
    LowDigitBit(q.Lo(), q.Hi(), i);
    OrWordBit(q.Lo(), i);
    var bit := U256.ONE.ShlBits(i);
    OneIsOne();
    OneShifted(U256.ONE, i);
    OrWords(q, bit, Pow2(i), 0);
  }

  lemma OrBitHigh(q: U256, i: nat)
    requires i < 128
    ensures q.BitwiseOr(U256.ONE.ShlBits(128 + i)).Value()
         == if BitClear(q.Value(), 128 + i) then q.Value() + Pow2(128 + i) else q.Value()
  {
    hide *;
    HighDigitBit(q.Lo(), q.Hi(), i);
    OrWordBit(q.Hi(), i);
    MulDistributes(q.Hi(), Pow2(i), W128);
    HighPower(i);
    var bit := U256.ONE.ShlBits(128 + i);
    OneIsOne();
    OneShifted(U256.ONE, 128 + i);
    OrWords(q, bit, 0, Pow2(i));
  }

  /** Or works word by word, and with no bits changes nothing. */
  lemma OrWords(q: U256, bit: U256, lo: u128, hi: u128)
    requires bit.Value() == lo + hi * W128
    ensures q.BitwiseOr(bit).Value() == Or(q.Lo(), lo) + Or(q.Hi(), hi) * W128
    ensures Or(q.Lo(), 0) == q.Lo() && Or(q.Hi(), 0) == q.Hi()
    ensures q.Value() == q.Lo() + q.Hi() * W128
  {
    PairInjective(bit.Pair(), (lo, hi));
    OrNothing(q.Lo());
    OrNothing(q.Hi());
    hide Or;
  }

  lemma OrNothing(x: u128)
    ensures Or(x, 0) == x
  {
  }

  /** A word that one more shift right halves. */
  lemma HalveDivisor(divisor: U256, half: nat)
    requires divisor.Value() == 2 * half
    ensures divisor.ShrBits(1).Value() == half
  {
    assert Pow2(1) == 2;
  }

  lemma ShlFits(v: U256, bits: nat, x: nat)
    requires v.Value() * Pow2(bits) == x < W256
    ensures v.ShlBits(bits).Value() == x
  {
    hide *;
    DivModUnique(x, W256, 0, x);
  }

  lemma FirstDivisor(num: U256, den: U256, shift: nat)
    requires 0 < den.Value() <= num.Value()
    requires shift == LeadingZerosU256(den) - LeadingZerosU256(num)
    ensures shift < 256
    ensures Dividing(num.Value(), den.Value(), 0, num.Value(), shift)
    ensures den.ShlBits(shift).Value() == Scaled(den.Value(), shift)
  {
    hide *;
    var d, len := den.Value(), BitLen(num.Value());
    AlignedStart(num.Value(), d, shift);
    Pow2Fits(len);
    ScaledIsProduct(d, shift);
    ShlFits(den, shift, Scaled(d, shift));
  }

  lemma ScaledIsProduct(den: nat, i: nat)
    ensures Scaled(den, i) == den * Pow2(i)
  {
  }

  lemma ZeroValue()
    ensures U256.ZERO.Value() == 0
  {
  }

  lemma SmallerQuotient(num: U256, den: U256)
    requires num.Value() < den.Value()
    ensures num.Value() / den.Value() == 0 == U256.ZERO.Value() && num.Value() % den.Value() == num.Value()
  {
    DivModUnique(num.Value(), den.Value(), 0, num.Value());
  }

  lemma ValueOfLow(v: U256)
    requires v.Hi() == 0
    ensures v.Value() == v.Lo()
  {
  }

  /** div_rem_u256: exact quotient and remainder for every non-zero denominator. */
  method DivRemU256(num: U256, den: U256) returns (r: Outcome<(U256, U256)>)
    ensures r.Panicked? <==> den.Value() == 0
    ensures r.Returned? ==> r.value.0.Value() == num.Value() / den.Value()
    ensures r.Returned? ==> r.value.1.Value() == num.Value() % den.Value()
  {
    hide *;
    ZeroValue();
    if den.IsZero() {
      return Panicked;
    }
    if num.IsZero() {
      DivModUnique(0, den.Value(), 0, 0);
      return Returned((U256.ZERO, U256.ZERO));
    }
    if den.Cmp(num).Greater? {
      SmallerQuotient(num, den);
      return Returned((U256.ZERO, num));
    }
    if num.Hi() == 0 && den.Hi() == 0 {
      ValueOfLow(num);
      ValueOfLow(den);
      DivShrinks(num.Lo(), den.Lo());
      return Returned((U256.FromU128(num.Lo() / den.Lo()), U256.FromU128(num.Lo() % den.Lo())));
    }
    r := LongDivide(num, den);
  }

  method LongDivide(num: U256, den: U256) returns (r: Outcome<(U256, U256)>)
    requires 0 < den.Value() <= num.Value()
    ensures r.Returned?
    ensures r.value.0.Value() == num.Value() / den.Value()
    ensures r.value.1.Value() == num.Value() % den.Value()
  {
    hide *;
    ghost var n, d := num.Value(), den.Value();
    LengthsOrdered(n, d);
    var shift := LeadingZerosU256(den) - LeadingZerosU256(num);
    var remainder, quotient, divisor := num, U256.ZERO, den.ShlBits(shift);
    FirstDivisor(num, den, shift);
    ZeroValue();
    var i := shift;
    while i >= 0
      invariant -1 <= i < 256
      invariant Dividing(n, d, quotient.Value(), remainder.Value(), i)
      invariant i >= 0 ==> divisor.Value() == Scaled(d, i)
    {
      DividingStep(n, d, quotient.Value(), remainder.Value(), i);
      if !remainder.Cmp(divisor).Less? {
        remainder := remainder.SaturatingSub(divisor);
        OrBit(quotient, i);
        quotient := quotient.BitwiseOr(U256.ONE.ShlBits(i));
      }
      if i > 0 {
        HalveDivisor(divisor, Scaled(d, i - 1));
      }
      divisor := divisor.ShrBits(1);
      i := i - 1;
    }
    DividingDone(n, d, quotient.Value(), remainder.Value());
    return Returned((quotient, remainder));
  }
}
