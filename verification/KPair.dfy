/**
 * K-pair settlement (wide_signed_mul_div_floor_from_k_pair): what an account is paid when
 * the cumulative index moves from one snapshot to the next, and how settling in steps
 * compares with settling once.
 */
module KPair {
  import opened Wrappers
  import opened Arith
  import opened Words
  import opened Uint256
  import opened Int256
  import opened Division
  import opened MulDiv

  lemma KDifference(kThen: i128, kNow: i128)
    ensures I256.FromI128(kNow).CheckedSub(I256.FromI128(kThen)).Some?
    ensures I256.FromI128(kNow).CheckedSub(I256.FromI128(kThen)).value.Value() == kNow - kThen
    ensures -W128 < kNow - kThen < W128
  {
  }

  /** The product of a 128-bit basis and a 129-bit difference never overflows 256 bits. */
  lemma BasisProduct(basis: u128, d: int)
    requires -W128 < d < W128
    ensures 0 <= basis * Abs(d) < W256
  {
    MulMono(0, basis, Abs(d));
    TwoDigitBounds(basis, 0, Abs(d) + 1, 0, W128);
    assert basis * (Abs(d) + 1) == basis * Abs(d) + basis;
    MulMono(basis, W128 - 1, W128 - 1);
  }

  /** What a settlement returns, on unbounded integers: see SettleFromKPair. */
  function Settlement(basis: u128, kThen: i128, kNow: i128, den: u128): Outcome<i128> {
    if den == 0 || !(-HALF128 < ExactSettlement(basis, kNow - kThen, den) < HALF128) then Panicked
    else Returned(ExactSettlement(basis, kNow - kThen, den))
  }

  /**
   * The exact floor of basis * (kNow - kThen) / den, and a panic exactly for a zero
   * denominator or a result outside -(2^127 - 1) .. 2^127 - 1.
   */
  method SettleFromKPair(basis: u128, kThen: i128, kNow: i128, den: u128) returns (r: Outcome<i128>)
    ensures r == Settlement(basis, kThen, kNow, den)
    ensures r.Panicked? <==>
              den == 0 || !(-HALF128 < ExactSettlement(basis, kNow - kThen, den) < HALF128)
    ensures r.Returned? ==> r.value == ExactSettlement(basis, kNow - kThen, den)
  {
    hide *;
    WordBounds();
    SettlementMeans(basis, kThen, kNow, den);
    if den == 0 {
      return Panicked;
    }
    KDifference(kThen, kNow);
    var d := I256.FromI128(kNow).CheckedSub(I256.FromI128(kThen)).value;
    SettlementBySign(basis, d.Value(), den);
    if d.IsZero() || basis == 0 {
      return Returned(0);
    }
    BasisProduct(basis, d.Value());
    r := SettleDifference(basis, d, den);
  }

  lemma SettlementMeans(basis: u128, kThen: i128, kNow: i128, den: u128)
    ensures var r := Settlement(basis, kThen, kNow, den);
            && (r.Panicked? <==> den == 0 || !(-HALF128 < ExactSettlement(basis, kNow - kThen, den) < HALF128))
            && (r.Returned? ==> r.value == ExactSettlement(basis, kNow - kThen, den))
  {
    hide ExactSettlement;
  }

  method SettleDifference(basis: u128, d: I256, den: u128) returns (r: Outcome<i128>)
    requires den > 0 && -W128 < d.Value() < W128 && 0 <= basis * Abs(d.Value()) < W256
    ensures r.Panicked? <==> !(-HALF128 < ExactSettlement(basis, d.Value(), den) < HALF128)
    ensures r.Returned? ==> r.value == ExactSettlement(basis, d.Value(), den)
  {
    hide *;
    WordBounds();
    SettlementBySign(basis, d.Value(), den);
    AbsMeans(d.Value());
    NotMin(d);
    var p := U256.FromU128(basis).CheckedMul(d.AbsU256()).value;
    var qr := DivRemU256(p, U256.FromU128(den));
    if d.IsNegative() {
      RoundUpIsCeil(qr.value.0, qr.value.1, p.Value(), den);
      CeilBelow(p.Value(), den);
      var mag := RoundUp(qr.value.0, qr.value.1).value.TryIntoU128();
      if mag.None? || mag.value > HALF128 - 1 {
        return Panicked;
      }
      return Returned(-mag.value);
    }
    var q := qr.value.0.TryIntoU128();
    if q.None? || q.value > HALF128 - 1 {
      return Panicked;
    }
    return Returned(q.value);
  }

  lemma WordBounds()
    ensures 0 < HALF128 && W128 == 2 * HALF128 && W128 < HALF256
  {
  }

  lemma NotMin(d: I256)
    requires -W128 < d.Value()
    ensures !d.IsMin()
  {
  }

  // ---------- settling in steps ----------

  /** What settling at every snapshot of a path pays in total. */
  function PathSettlement(basis: int, ks: seq<int>, den: int): int
    requires den > 0
  {
    if |ks| < 2 then 0
    else PathSettlement(basis, ks[..|ks| - 1], den)
         + ExactSettlement(basis, ks[|ks| - 1] - ks[|ks| - 2], den)
  }

  /** The sum of what the settlements along a path return, if none of them panics. */
  function SettleEach(basis: u128, ks: seq<i128>, den: u128): Outcome<int> {
    if |ks| < 2 then Returned(0)
    else
      var before := SettleEach(basis, ks[..|ks| - 1], den);
      var last := Settlement(basis, ks[|ks| - 2], ks[|ks| - 1], den);
      if before.Panicked? || last.Panicked? then Panicked else Returned(before.value + last.value)
  }

  /** No settlement along the path panics. */
  ghost predicate EachReturns(basis: u128, ks: seq<i128>, den: u128) {
    forall i :: 0 < i < |ks| ==> Settlement(basis, ks[i - 1], ks[i], den).Returned?
  }

  lemma {:induction false} SettleEachReturnsExactly(basis: u128, ks: seq<i128>, den: u128)
    ensures SettleEach(basis, ks, den).Returned? <==> EachReturns(basis, ks, den)
  {
    hide Settlement;
    if |ks| >= 2 {
      var n := |ks| - 1;
      SettleEachReturnsExactly(basis, ks[..n], den);
      assert EachReturns(basis, ks, den)
        <==> EachReturns(basis, ks[..n], den) && Settlement(basis, ks[n - 1], ks[n], den).Returned?;
    }
  }

  /**
   * Whenever every settlement of a path and the single one return, the path pays at most the
   * single settlement and less by at most one atom per stop.
   */
  lemma SettlingEachLosesAtMostOnePerStop(basis: u128, ks: seq<i128>, den: u128)
    requires |ks| >= 2
    ensures var each, single := SettleEach(basis, ks, den), Settlement(basis, ks[0], ks[|ks| - 1], den);
            && (each.Returned? <==> EachReturns(basis, ks, den))
            && (each.Returned? && single.Returned? ==> single.value - (|ks| - 2) <= each.value <= single.value)
  {
    SettleEachReturnsExactly(basis, ks, den);
    EachIsPathSettlement(basis, ks, den);
    if SettleEach(basis, ks, den).Returned? {
      PathLosesAtMostOnePerStop(basis, ks, den);
    }
    hide SettleEach, PathSettlement, ExactSettlement, EachReturns;
  }

  lemma {:induction false} EachIsPathSettlement(basis: u128, ks: seq<i128>, den: u128)
    ensures SettleEach(basis, ks, den).Returned? && |ks| >= 2 ==>
              den > 0 && SettleEach(basis, ks, den).value == PathSettlement(basis, ks, den)
  {
    if |ks| >= 2 && SettleEach(basis, ks, den).Returned? {
      EachIsPathSettlement(basis, ks[..|ks| - 1], den);
      hide ExactSettlement;
    }
  }

  /** Splitting one settlement in two never pays more and loses at most one atom. */
  lemma SettlementSplits(basis: int, x: int, y: int, den: int)
    requires den > 0
    ensures ExactSettlement(basis, x, den) + ExactSettlement(basis, y, den)
         <= ExactSettlement(basis, x + y, den)
         <= ExactSettlement(basis, x, den) + ExactSettlement(basis, y, den) + 1
  {
    FloorsAdd(basis * x, basis * y, den);
    assert basis * (x + y) == basis * x + basis * y;
  }

  lemma FloorsAdd(a: int, b: int, d: int)
    requires d > 0
    ensures a / d + b / d <= (a + b) / d <= a / d + b / d + 1
    ensures (a + b) / d == a / d + b / d <==> a % d + b % d < d
  {
    var r := a % d + b % d;
    var carry := if r < d then 0 else 1;
    MulDistributes(a / d, b / d, d);
    MulDistributes(a / d + b / d, carry, d);
    DivModUnique(a + b, d, a / d + b / d + carry, r - carry * d);
  }

  /**
   * Over any path k0 -> k1 -> ... -> kn, settling at every step pays at most what the single
   * settlement k0 -> kn pays, and less by at most n - 1 atoms.
   */
  lemma {:induction false} PathLosesAtMostOnePerStop(basis: int, ks: seq<int>, den: int)
    requires den > 0 && |ks| >= 2
    ensures var single := ExactSettlement(basis, ks[|ks| - 1] - ks[0], den);
            single - (|ks| - 2) <= PathSettlement(basis, ks, den) <= single
  {
    var n := |ks| - 1;
    if n == 1 {
      assert PathSettlement(basis, ks[..1], den) == 0;
    } else {
      PathLosesAtMostOnePerStop(basis, ks[..n], den);
      SettlementSplits(basis, ks[n - 1] - ks[0], ks[n] - ks[n - 1], den);
    }
  }

  /** The path that climbs by den - 1 at every one of its n steps. */
  function WorstPath(n: nat, den: int): (ks: seq<int>)
    ensures |ks| == n + 1 && ks[0] == 0 && ks[n] == n * (den - 1)
  {
    if n == 0 then [0] else WorstPath(n - 1, den) + [n * (den - 1)]
  }

  /** The bound of n - 1 atoms is reached, so it cannot be improved. */
  lemma {:induction false} WorstPathPaysNothing(n: nat, den: int)
    requires den > 0
    ensures PathSettlement(1, WorstPath(n, den), den) == 0
  {
    if n > 0 {
      WorstPathPaysNothing(n - 1, den);
      var ks := WorstPath(n, den);
      assert ks[..n] == WorstPath(n - 1, den);
      assert ks[n] - ks[n - 1] == den - 1 by {
        assert (n - 1) * (den - 1) + (den - 1) == n * (den - 1);
      }
      DivModUnique(den - 1, den, 0, den - 1);
    }
  }

  lemma SettlementOfOne(k: int, den: int)
    requires den > 0
    ensures ExactSettlement(1, k, den) == k / den
  {
  }

  lemma PathLossIsTight(n: nat, den: int)
    requires 1 <= n <= den
    ensures ExactSettlement(1, WorstPath(n, den)[n] - WorstPath(n, den)[0], den)
         == PathSettlement(1, WorstPath(n, den), den) + (n - 1)
  {
    hide PathSettlement, ExactSettlement;
    WorstPathPaysNothing(n, den);
    OneLessThanWhole(n, den);
    SettlementOfOne(n * (den - 1), den);
    hide WorstPath;
  }

  lemma OneLessThanWhole(n: nat, den: int)
    requires 1 <= n <= den
    ensures (n * (den - 1)) / den == n - 1
  {
    MulDistributes(den, -1, n);
    MulDistributes(n, -1, den);
    MulCommutes(den - 1, n);
    MulCommutes(n, den);
    DivModUnique(n * (den - 1), den, n - 1, den - n);
  }

  /** A round trip never pays; it costs one atom exactly when the product does not divide. */
  lemma RoundTripSettlement(basis: int, k0: int, k1: int, den: int)
    requires den > 0
    ensures var sum := ExactSettlement(basis, k1 - k0, den) + ExactSettlement(basis, k0 - k1, den);
            sum == if (basis * (k1 - k0)) % den == 0 then 0 else -1
  {
    var a := basis * (k1 - k0);
    assert basis * (k0 - k1) == -a;
    if a % den == 0 {
      DivModUnique(-a, den, -(a / den), 0);
    } else {
      DivModUnique(-a, den, -(a / den) - 1, den - a % den);
    }
  }
}
