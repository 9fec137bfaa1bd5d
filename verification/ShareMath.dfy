/**
 * The share price arithmetic of crates/program/src/hlp.rs, shared by both LP vaults, and
 * what it promises over single steps, lists of steps and round trips.
 */
module ShareMath {
  import opened Wrappers
  import opened Arith
  import opened Words
  import opened MulDiv

  const VIRTUAL_SHARES: u128 := 1_000_000
  const VIRTUAL_ASSETS: u128 := 1

  /** assets_to_shares. */
  function AssetsToShares(assets: u128, total: u128, nav: u128): Outcome<u128> {
    MulDivFloorU128(assets, SaturatingAdd(total, VIRTUAL_SHARES), SaturatingAdd(nav, VIRTUAL_ASSETS))
  }

  /** shares_to_assets. */
  function SharesToAssets(shares: u128, total: u128, nav: u128): Outcome<u128> {
    MulDivFloorU128(shares, SaturatingAdd(nav, VIRTUAL_ASSETS), SaturatingAdd(total, VIRTUAL_SHARES))
  }

  /** Assets per share, as a fraction: nav + 1 over total + 10^6. */
  function Assets(nav: int): int { nav + 1 }
  function Shares(total: int): int { total + 1_000_000 }

  /** The share price after is at least the share price before. */
  ghost predicate PriceHolds(total: int, nav: int, total': int, nav': int) {
    Assets(nav) * Shares(total') <= Assets(nav') * Shares(total)
  }

  lemma FractionsChain(a: int, b: int, c: int, d: int, e: int, f: int)
    requires b > 0 && d > 0 && f > 0
    requires a * d <= c * b && c * f <= e * d
    ensures a * f <= e * b
  {
    MulMono(a * d, c * b, f);
    MulMono(c * f, e * d, b);
    assert (a * d) * f == (a * f) * d;
    assert (c * b) * f == (c * f) * b;
    assert (e * d) * b == (e * b) * d;
    assert (a * f - e * b) * d <= 0;
    MulFar(a * f - e * b, d);
  }

  lemma PriceHoldsChains(t0: nat, n0: int, t1: nat, n1: int, t2: nat, n2: int)
    requires PriceHolds(t0, n0, t1, n1) && PriceHolds(t1, n1, t2, n2)
    ensures PriceHolds(t0, n0, t2, n2)
  {
    FractionsChain(Assets(n0), Shares(t0), Assets(n1), Shares(t1), Assets(n2), Shares(t2));
  }

  /** What a holding of s shares would redeem for at no fee. */
  function Claim(s: nat, total: nat, nav: nat): int {
    (s * Assets(nav)) / Shares(total)
  }

  /** A price that holds never lowers anybody's redeemable claim. */
  lemma ClaimHolds(s: nat, total: nat, nav: nat, total': nat, nav': nat)
    requires PriceHolds(total, nav, total', nav')
    ensures Claim(s, total, nav) <= Claim(s, total', nav')
  {
    var a, b, a', b' := Assets(nav), Shares(total), Assets(nav'), Shares(total');
    var q := Claim(s, total, nav);
    MulMono(a * b', a' * b, s);
    assert q * b <= s * a;
    MulMono(q * b, s * a, b');
    assert (s * a) * b' == s * (a * b');
    assert s * (a * b') == (a * b') * s;
    assert s * (a' * b) == (s * a') * b;
    assert (q * b) * b' == (q * b') * b;
    assert (q * b' - s * a') * b <= 0;
    MulFar(q * b' - s * a', b);
    FloorIsGreatest(s * a', b', q);
  }

  // ---------- one deposit, one redemption ----------

  /** Without saturation the code computes the floors of the exact fractions. */
  lemma PricesAreFloors(x: u128, total: u128, nav: u128)
    requires total + VIRTUAL_SHARES <= U128_MAX && nav + VIRTUAL_ASSETS <= U128_MAX
    ensures AssetsToShares(x, total, nav).Returned? ==>
              AssetsToShares(x, total, nav).value == (x * Shares(total)) / Assets(nav)
    ensures SharesToAssets(x, total, nav).Returned? ==>
              SharesToAssets(x, total, nav).value == Claim(x, total, nav)
  {
  }

  /** The one family of deposits that mints too much: nav + 1 saturates, the product is u128::MAX. */
  predicate Overminted(assets: int, total: int, nav: int) {
    nav == U128_MAX && Shares(total) <= U128_MAX && assets * Shares(total) == U128_MAX
  }

  /**
   * A deposit mints at most its fair share, unless nav is u128::MAX and the product
   * assets * (total + 10^6) is exactly u128::MAX; then, and only then, it mints one share too many.
   */
  lemma MintIsFairExactly(assets: u128, total: u128, nav: u128)
    requires AssetsToShares(assets, total, nav).Returned?
    ensures AssetsToShares(assets, total, nav).value * Assets(nav) <= assets * Shares(total)
       <==> !Overminted(assets, total, nav)
    ensures Overminted(assets, total, nav) ==> AssetsToShares(assets, total, nav).value == 1
  {
    var d := SaturatingAdd(total, VIRTUAL_SHARES);
    MulMono(d, Shares(total), assets);
    MulCommutes(assets, d);
    MulCommutes(assets, Shares(total));
    if nav < U128_MAX {
      FloorBounds(assets * d, Assets(nav));
    } else {
      MulMono(0, assets, d);
      SaturatedQuotient(assets * d);
      OneFactor(assets, d);
    }
  }

  /** A product of at most u128::MAX over u128::MAX. */
  lemma SaturatedQuotient(p: nat)
    requires p <= U128_MAX
    ensures p / U128_MAX == if p == U128_MAX then 1 else 0
  {
    DivModUnique(p, U128_MAX, if p == U128_MAX then 1 else 0, if p == U128_MAX then 0 else p);
  }

  /** u128::MAX is a multiple of itself only once. */
  lemma OneFactor(x: u128, d: u128)
    ensures d == U128_MAX ==> (x * d == U128_MAX <==> x == 1)
    ensures d == U128_MAX && x * d <= U128_MAX ==> x <= 1
  {
    if x >= 2 {
      MulMono(2, x, d);
    }
  }

  /** The family is real: 1 atom mints a share that is worth more than it. */
  lemma OvermintedCounterexample()
    ensures AssetsToShares(1, U128_MAX - VIRTUAL_SHARES, U128_MAX) == Returned(1)
    ensures 1 * Assets(U128_MAX) > 1 * Shares(U128_MAX - VIRTUAL_SHARES)
  {
    SaturatedQuotient(U128_MAX);
  }

  /**
   * The redemptions that are overpaid: total + 10^6 saturates, and either the product
   * shares * (nav + 1) is u128::MAX, or nav + 1 saturates too and a single share is redeemed.
   */
  predicate Overpaid(shares: int, total: int, nav: int) {
    Shares(total) > U128_MAX
    && (if nav < U128_MAX then shares * Assets(nav) == U128_MAX else shares == 1 && Shares(total) > W128)
  }

  /**
   * A redemption pays at most its fair share, outside the saturated family Overpaid; there,
   * and only there, it pays one atom where less is due.
   */
  lemma PayoutIsFairExactly(shares: u128, total: u128, nav: u128)
    requires SharesToAssets(shares, total, nav).Returned?
    ensures SharesToAssets(shares, total, nav).value * Shares(total) <= shares * Assets(nav)
       <==> !Overpaid(shares, total, nav)
    ensures Overpaid(shares, total, nav) ==> SharesToAssets(shares, total, nav).value == 1
  {
    var a := SaturatingAdd(nav, VIRTUAL_ASSETS);
    MulMono(0, shares, a);
    MulMono(a, Assets(nav), shares);
    MulCommutes(shares, a);
    MulCommutes(shares, Assets(nav));
    if Shares(total) <= U128_MAX {
      FloorBounds(shares * a, Shares(total));
    } else {
      SaturatedQuotient(shares * a);
      OneFactor(shares, a);
    }
  }

  /** Inputs of both kinds: the last share of a vault at NAV u128::MAX, and a third of one at NAV 2. */
  lemma OverpaidCounterexamples()
    ensures SharesToAssets(1, U128_MAX, U128_MAX) == Returned(1)
    ensures 1 * Shares(U128_MAX) > 1 * Assets(U128_MAX)
    ensures SharesToAssets(U128_MAX / 3, U128_MAX, 2) == Returned(1)
    ensures 1 * Shares(U128_MAX) > (U128_MAX / 3) * Assets(2)
  {
    SaturatedQuotient(U128_MAX);
  }

  /** A deposit of amount, of which net <= amount is priced, holds the price. */
  lemma DepositHoldsPrice(amount: nat, net: nat, minted: nat, total: nat, nav: nat)
    requires net <= amount && minted * Assets(nav) <= net * Shares(total)
    ensures PriceHolds(total, nav, total + minted, nav + amount)
  {
    MulMono(net, amount, Shares(total));
    assert Assets(nav) * (Shares(total) + minted) == Assets(nav) * Shares(total) + minted * Assets(nav);
    assert (Assets(nav) + amount) * Shares(total) == Assets(nav) * Shares(total) + amount * Shares(total);
  }

  /** A redemption that pays out <= gross holds the price for those who stay. */
  lemma RedeemHoldsPrice(shares: nat, gross: nat, out: nat, total: nat, nav: nat)
    requires out <= gross && gross * Shares(total) <= shares * Assets(nav) && shares <= total
    ensures PriceHolds(total, nav, total - shares, nav - out)
    ensures out <= nav
  {
    MulMono(out, gross, Shares(total));
    assert Assets(nav) * (Shares(total) - shares) == Assets(nav) * Shares(total) - shares * Assets(nav);
    assert (Assets(nav) - out) * Shares(total) == Assets(nav) * Shares(total) - out * Shares(total);
    MulMono(shares, total, Assets(nav));
    MulDistributes(total, VIRTUAL_SHARES, Assets(nav));
    MulCommutes(Shares(total), Assets(nav));
    MulCancels(out, Assets(nav), Shares(total));
  }

  lemma MulCancels(x: int, y: int, c: int)
    requires c > 0 && x * c < y * c
    ensures x < y
  {
    MulFar(x - y, c);
    MulDistributes(x, -y, c);
  }

  /** The price holding, read as a bound on what was paid for the shares burned. */
  lemma PriceBoundsPayout(total: int, nav: int, burned: int, paid: int)
    requires PriceHolds(total, nav, total - burned, nav - paid)
    ensures paid * Shares(total) <= burned * Assets(nav)
  {
    var a, b := Assets(nav), Shares(total);
    assert a * (b - burned) == a * b - burned * a;
    assert (a - paid) * b == a * b - paid * b;
  }

  lemma PriceBoundsMint(total: int, nav: int, minted: int, added: int)
    requires PriceHolds(total, nav, total + minted, nav + added)
    ensures minted * Assets(nav) <= added * Shares(total)
  {
    var a, b := Assets(nav), Shares(total);
    assert a * (b + minted) == a * b + minted * a;
    assert (a + added) * b == a * b + added * b;
  }

  /** More assets or fewer claims hold the price. */
  lemma GiftHoldsPrice(total: nat, nav: nat, gift: nat)
    ensures PriceHolds(total, nav, total, nav + gift)
  {
    MulMono(Assets(nav), Assets(nav + gift), Shares(total));
  }

  // ---------- lists and round trips at no fee ----------

  function Sum(xs: seq<nat>): nat {
    if |xs| == 0 then 0 else Sum(xs[..|xs| - 1]) + xs[|xs| - 1]
  }

  /** What a list of redemptions pays, each priced after the ones before it. */
  function RedeemEach(xs: seq<nat>, total: nat, nav: nat): (paid: nat)
    requires Sum(xs) <= total
    ensures PriceHolds(total, nav, total - Sum(xs), nav - paid) && paid <= nav
  {
    if |xs| == 0 then 0
    else
      var s := xs[|xs| - 1];
      var before := RedeemEach(xs[..|xs| - 1], total, nav);
      var total1, nav1 := total - Sum(xs[..|xs| - 1]), nav - before;
      var pay := Claim(s, total1, nav1);
      FloorIsGreatest(s * Assets(nav1), Shares(total1), 0);
      FloorBounds(s * Assets(nav1), Shares(total1));
      MulMono(0, s, Assets(nav1));
      RedeemHoldsPrice(s, pay, pay, total1, nav1);
      PriceHoldsChains(total, nav, total1, nav1, total1 - s, nav1 - pay);
      before + pay
  }

  /** Splitting a redemption into pieces never pays more than redeeming it at once. */
  lemma SplitRedemptionPaysLess(xs: seq<nat>, total: nat, nav: nat)
    requires Sum(xs) <= total
    ensures RedeemEach(xs, total, nav) <= Claim(Sum(xs), total, nav)
  {
    var paid := RedeemEach(xs, total, nav);
    hide *;
    PriceBoundsPayout(total, nav, Sum(xs), paid);
    FloorIsGreatest(Sum(xs) * Assets(nav), Shares(total), paid);
  }

  /** What a list of deposits mints, each priced after the ones before it. */
  function DepositEach(xs: seq<nat>, total: nat, nav: nat): (minted: nat)
    ensures PriceHolds(total, nav, total + minted, nav + Sum(xs))
  {
    if |xs| == 0 then 0
    else
      var x := xs[|xs| - 1];
      var before := DepositEach(xs[..|xs| - 1], total, nav);
      var total1, nav1 := total + before, nav + Sum(xs[..|xs| - 1]);
      var mint := (x * Shares(total1)) / Assets(nav1);
      MulMono(0, x, Shares(total1));
      FloorIsGreatest(x * Shares(total1), Assets(nav1), 0);
      FloorBounds(x * Shares(total1), Assets(nav1));
      DepositHoldsPrice(x, x, mint, total1, nav1);
      PriceHoldsChains(total, nav, total1, nav1, total1 + mint, nav1 + x);
      before + mint
  }

  /** Splitting a deposit into pieces never mints more than depositing it at once. */
  lemma SplitDepositMintsLess(xs: seq<nat>, total: nat, nav: nat)
    ensures DepositEach(xs, total, nav) <= (Sum(xs) * Shares(total)) / Assets(nav)
  {
    var minted := DepositEach(xs, total, nav);
    assert Assets(nav) > 0;
    hide *;
    PriceBoundsMint(total, nav, minted, Sum(xs));
    FloorIsGreatest(Sum(xs) * Shares(total), Assets(nav), minted);
  }

  /**
   * Depositing and redeeming at once returns at most the deposit, and loses less than
   * nav / (total + minted + 10^6) + 1 atoms of it.
   */
  lemma RoundTrip(assets: nat, total: nat, nav: nat)
    ensures var minted := (assets * Shares(total)) / Assets(nav);
            minted >= 0 &&
            var back := Claim(minted, total + minted, nav + assets);
            0 <= back <= assets && assets * Shares(total + minted) < (back + 1) * Shares(total + minted) + nav
  {
    var a, b := Assets(nav), Shares(total);
    MulMono(0, assets, b);
    FloorIsGreatest(assets * b, a, 0);
    var m := (assets * b) / a;
    FloorBounds(assets * b, a);
    var e, f := a + assets, b + m;
    MulMono(0, m, e);
    FloorIsGreatest(m * e, f, 0);
    FloorBounds(m * e, f);
    var back := (m * e) / f;
    assert m * e == m * a + m * assets;
    assert assets * f == assets * b + assets * m;
    assert m * e <= assets * f;
    MulFar(back - assets, f);
    assert (back - assets) * f == back * f - assets * f;
    assert assets * f - m * e < a;
    assert (back + 1) * f == back * f + f;
  }

  /**
   * A donation cannot take a later depositor's funds: an immediate exit loses at most one
   * atom plus a millionth of the assets already in the vault.
   */
  lemma DonationCannotCapture(assets: nat, total: nat, nav: nat)
    ensures var minted := (assets * Shares(total)) / Assets(nav);
            minted >= 0 &&
            var loss := assets - Claim(minted, total + minted, nav + assets);
            loss > 0 ==> (loss - 1) * VIRTUAL_SHARES < nav + 1
  {
    RoundTrip(assets, total, nav);
    var minted := (assets * Shares(total)) / Assets(nav);
    var f := Shares(total + minted);
    var loss := assets - Claim(minted, total + minted, nav + assets);
    if loss > 0 {
      assert (assets - (assets - loss) - 1) * f == assets * f - ((assets - loss) + 1) * f;
      MulMono(VIRTUAL_SHARES, f, loss - 1);
    }
  }
}
