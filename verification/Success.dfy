/**
 * Exactly when the instructions of the LP vaults, the insurance fund and the House succeed,
 * in terms a caller can check before calling.
 */
module Success {
  import opened Wrappers
  import opened Arith
  import opened Words
  import opened MulDiv
  import opened ShareMath
  import opened Sums
  import opened LpBook
  import opened MarketSteps
  import opened Custody
  import opened Effects

  function AtMostMax(x: int): int {
    if x > U128_MAX then U128_MAX else x
  }

  /** Enough for at least one share, and small enough for the price arithmetic, after the fee. */
  ghost predicate Mintable(b: Book, amount: nat, nav: nat) {
    && amount * b.feeBps <= U128_MAX
    && exists net: nat ::
         FeeKept(amount, net, b.feeBps) && AtMostMax(nav + 1) <= net * AtMostMax(b.total + 1_000_000) <= U128_MAX
  }

  lemma FeeIsUnique(amount: nat, net: nat, other: nat, feeBps: nat)
    requires FeeKept(amount, net, feeBps) && FeeKept(amount, other, feeBps)
    ensures net == other
  {
  }

  lemma DepositSharesSucceedsExactly(b: Book, amount: u128, nav: u128)
    ensures DepositShares(b, amount, nav).Ok? <==> Mintable(b, amount, nav)
  {
    if amount * b.feeBps <= U128_MAX {
      var net := NetOfFee(amount, b.feeBps).value;
      var d, n := AtMostMax(b.total + 1_000_000), AtMostMax(nav + 1);
      MulMono(0, net, d);
      FloorIsGreatest(net * d, n, 1);
      forall other: nat | FeeKept(amount, other, b.feeBps)
        ensures other == net
      {
        FeeIsUnique(amount, net, other, b.feeBps);
      }
      PricedShares(b, net, nav);
    }
    hide FairMint, FeeKept, NetOfFee, AssetsToShares;
  }

  lemma PricedShares(b: Book, net: u128, nav: u128)
    ensures var d, n := AtMostMax(b.total + 1_000_000), AtMostMax(nav + 1);
            && (AssetsToShares(net, b.total, nav).Returned? <==> net * d <= U128_MAX)
            && (net * d <= U128_MAX ==> AssetsToShares(net, b.total, nav).value == (net * d) / n)
  {
  }

  /** The shares are priced without overflow, and so is the fee on their worth. */
  ghost predicate Payable(b: Book, shares: nat, nav: nat) {
    var n, d := AtMostMax(nav + 1), AtMostMax(b.total + 1_000_000);
    && shares * n <= U128_MAX
    && exists gross: nat :: gross * d <= shares * n < (gross + 1) * d && gross * b.feeBps <= U128_MAX
  }

  lemma PayoutSucceedsExactly(b: Book, shares: u128, nav: u128)
    ensures Payout(b, shares, nav).Ok? <==> Payable(b, shares, nav)
  {
    var n, d := AtMostMax(nav + 1), AtMostMax(b.total + 1_000_000);
    MulMono(0, shares, n);
    PricedAssets(b, shares, nav);
    if shares * n <= U128_MAX {
      var gross := (shares * n) / d;
      FloorBounds(shares * n, d);
      MulDistributes(gross, 1, d);
      forall other: nat | other * d <= shares * n < (other + 1) * d
        ensures other == gross
      {
        MulDistributes(other, 1, d);
        DivModUnique(shares * n, d, other, shares * n - other * d);
      }
    }
    hide FairPayout, SharesToAssets;
  }

  lemma PricedAssets(b: Book, shares: u128, nav: u128)
    ensures var n, d := AtMostMax(nav + 1), AtMostMax(b.total + 1_000_000);
            && (SharesToAssets(shares, b.total, nav).Returned? <==> shares * n <= U128_MAX)
            && (shares * n <= U128_MAX ==> SharesToAssets(shares, b.total, nav).value == (shares * n) / d)
  {
  }

  /** The LP has shares queued, and their slot has come. */
  predicate Due(b: Book, now: nat, who: Owner) {
    who in b.positions && 0 < b.positions[who].pending && b.positions[who].unlock <= now
  }

  lemma RedeemableExactly(b: Book, now: u64, who: Owner)
    requires BookOk(b)
    ensures Redeemable(b, now, who).Ok? <==> Due(b, now, who)
    ensures Redeemable(b, now, who).Ok? ==> Redeemable(b, now, who).value == b.positions[who].pending
  {
    hide Holdings, SumMap;
  }

  lemma MintSucceedsExactly(b: Book, who: Owner, shares: u128)
    requires BookOk(b)
    ensures Mint(b, who, shares).Ok? <==> b.total + shares <= U128_MAX
  {
    HoldingsUpdate(b, 0, who, Position(0, 0, 0));
  }

  // ---------- the HLP vault ----------

  lemma DepositHlpSucceedsExactly(s: State, who: Owner, amount: u128)
    requires Inv(s)
    ensures DepositHlpStep(s, who, amount).Ok? <==>
              && s.houseReady && s.hlp.Some? && EquityInRange(s.house)
              && HlpNav(s).Ok?
              && amount >= s.hlp.value.minDeposit && amount <= Balance(s.tokens, Wallet(who))
              && Mintable(s.hlp.value, amount, HlpNav(s).value)
              && (var shares := DepositShares(s.hlp.value, amount, HlpNav(s).value);
                  shares.Ok? && s.hlp.value.total + shares.value <= U128_MAX)
  {
    BalanceWithin(s.tokens, Buffer);
    BalanceWithin(s.tokens, Wallet(who));
    if s.hlp.Some? && HlpNav(s).Ok? {
      var b, nav := s.hlp.value, HlpNav(s).value;
      DepositSharesSucceedsExactly(b, amount, nav);
      if DepositShares(b, amount, nav).Ok? {
        MintSucceedsExactly(b, who, DepositShares(b, amount, nav).value);
      }
    }
    hide SumMap, Mintable, DepositShares, FairMint, Mint, HlpNav, EquityInRange, Capitals, BookOk;
  }

  /** A due HLP redemption pays exactly when it can be priced and the buffer holds the payout. */
  lemma ExecuteHlpSucceedsExactly(s: State, now: u64, who: Owner)
    requires Inv(s)
    ensures ExecuteHlpStep(s, now, who).Ok? <==>
              && s.houseReady && s.hlp.Some? && EquityInRange(s.house)
              && HlpNav(s).Ok?
              && Due(s.hlp.value, now, who)
              && var b, nav := s.hlp.value, HlpNav(s).value;
              && Payable(b, b.positions[who].pending, nav)
              && var out := Payout(b, b.positions[who].pending, nav);
              && out.Ok? && out.value <= Balance(s.tokens, Buffer)
  {
    BalanceWithin(s.tokens, Buffer);
    if s.hlp.Some? && HlpNav(s).Ok? {
      RedeemableExactly(s.hlp.value, now, who);
      if Due(s.hlp.value, now, who) {
        PayoutSucceedsExactly(s.hlp.value, s.hlp.value.positions[who].pending, HlpNav(s).value);
      }
    }
    ExecuteHlpFrom(s, now, who);
    hide SumMap, Payable, Payout, FairPayout, Redeemable, HlpNav, EquityInRange, Capitals, BookOk, ExecuteHlpStep, Due;
  }

  lemma ExecuteHlpFrom(s: State, now: u64, who: Owner)
    requires Balance(s.tokens, Buffer) <= U64_MAX
    ensures ExecuteHlpStep(s, now, who).Ok? <==>
              && s.houseReady && s.hlp.Some? && HlpNav(s).Ok? && Redeemable(s.hlp.value, now, who).Ok?
              && var out := Payout(s.hlp.value, Redeemable(s.hlp.value, now, who).value, HlpNav(s).value);
              && out.Ok? && out.value <= Balance(s.tokens, Buffer)
  {
    hide Payout, FairPayout, Redeemable, Burn, HlpNav;
  }

  // ---------- insurance and InsLP ----------

  /** The engine takes the amount into the domain: its ledgers validate before and after. */
  predicate InsuranceAccepts(e: Engine, domain: nat, amount: nat) {
    && domain in e.domains && e.domains[domain].sound
    && e.domains[domain].spent <= e.domains[domain].budget && e.domains[domain].budget + amount <= U128_MAX
    && e.sound && e.cTot + e.insurance + e.claims <= e.vault && e.vault + amount <= 10_000_000_000_000_000
    && e.reserved <= e.insurance + amount && e.budgets <= e.insurance
  }

  /** The engine pays the amount out of the domain: no promise is broken and its ledgers validate. */
  predicate InsurancePays(e: Engine, domain: nat, amount: nat) {
    && domain in e.domains && e.domains[domain].sound
    && amount + e.reserved <= e.insurance
    && amount + e.domains[domain].spent + e.domains[domain].reserved <= e.domains[domain].budget
    && amount <= e.budgets <= e.insurance
    && e.sound && e.cTot + e.insurance + e.claims <= e.vault && e.vault - amount <= 10_000_000_000_000_000
  }

  lemma InsuranceInExactly(e: Engine, domain: nat, amount: u128)
    requires e.insurance <= e.vault <= U64_MAX
    ensures InsuranceIn(e, domain, amount).Ok? <==> InsuranceAccepts(e, domain, amount)
  {
  }

  lemma InsuranceOutExactly(e: Engine, domain: nat, amount: u128)
    requires e.insurance <= e.vault <= U64_MAX && amount > 0
    ensures InsuranceOut(e, domain, amount).Ok? <==> InsurancePays(e, domain, amount)
  {
  }

  lemma FundInsuranceSucceedsExactly(s: State, who: Owner, asset: nat, side: nat, amount: u128)
    requires Inv(s)
    ensures FundInsuranceStep(s, who, asset, side, amount).Ok? <==>
              && side <= 1 && asset < s.capacity
              && amount <= Balance(s.tokens, Wallet(who))
              && (amount > 0 ==> InsuranceAccepts(s.engine, 2 * asset + side, amount))
  {
    BalancesWithin(s, Wallet(who));
    InsuranceInExactly(s.engine, DomainIndex(asset, side), amount);
    hide SumMap, Capitals, InsuranceIn, InsuranceAccepts, BookOk;
  }

  lemma DepositInsLpSucceedsExactly(s: State, who: Owner, amount: u128)
    requires Inv(s)
    ensures DepositInsLpStep(s, who, amount).Ok? <==>
              && s.inslp.Some?
              && amount >= s.inslp.value.minDeposit && amount <= Balance(s.tokens, Wallet(who))
              && Mintable(s.inslp.value, amount, s.engine.insurance)
              && (var shares := DepositShares(s.inslp.value, amount, s.engine.insurance);
                  shares.Ok? && s.inslp.value.total + shares.value <= U128_MAX)
              && InsuranceAccepts(s.engine, 0, amount)
  {
    BalancesWithin(s, Wallet(who));
    InsuranceInExactly(s.engine, CANONICAL_DOMAIN, amount);
    if s.inslp.Some? {
      var b, nav := s.inslp.value, s.engine.insurance;
      DepositSharesSucceedsExactly(b, amount, nav);
      if DepositShares(b, amount, nav).Ok? {
        MintSucceedsExactly(b, who, DepositShares(b, amount, nav).value);
      }
    }
    hide SumMap, Mintable, DepositShares, FairMint, Mint, Capitals, BookOk, InsuranceIn, InsuranceAccepts;
  }

  /**
   * A due InsLP redemption pays exactly when it can be priced, leaves the floor, and the
   * engine can pay it: tokens and V never stand in the way.
   */
  lemma ExecuteInsLpSucceedsExactly(s: State, now: u64, who: Owner)
    requires Inv(s)
    ensures ExecuteInsLpStep(s, now, who).Ok? <==>
              && s.inslp.Some? && Due(s.inslp.value, now, who)
              && var b, nav := s.inslp.value, s.engine.insurance;
              && Payable(b, b.positions[who].pending, nav)
              && var out := Payout(b, b.positions[who].pending, nav);
              && out.Ok?
              && (s.insurance.Some? && out.value > 0 ==> out.value + s.insurance.value.floor <= nav)
              && (out.value > 0 ==> InsurancePays(s.engine, 0, out.value))
  {
    if s.inslp.Some? {
      RedeemableExactly(s.inslp.value, now, who);
      if Due(s.inslp.value, now, who) {
        PayoutSucceedsExactly(s.inslp.value, s.inslp.value.positions[who].pending, s.engine.insurance);
      }
    }
    ExecuteInsLpFrom(s, now, who);
    hide SumMap, Payable, Payout, FairPayout, Redeemable, Burn, BookOk, Capitals, InsurancePays, ExecuteInsLpStep, Due,
      CapitalCovered;
  }

  lemma ExecuteInsLpFrom(s: State, now: u64, who: Owner)
    requires Inv(s)
    ensures ExecuteInsLpStep(s, now, who).Ok? <==>
              && s.inslp.Some? && Redeemable(s.inslp.value, now, who).Ok?
              && var paid := Payout(s.inslp.value, Redeemable(s.inslp.value, now, who).value, s.engine.insurance);
              && paid.Ok?
              && (s.insurance.Some? && paid.value > 0 ==> paid.value + s.insurance.value.floor <= s.engine.insurance)
              && (paid.value > 0 ==> InsurancePays(s.engine, 0, paid.value))
  {
    BalancesWithin(s, Vault);
    forall amount: u128 | amount > 0
      ensures InsuranceOut(s.engine, CANONICAL_DOMAIN, amount).Ok? <==> InsurancePays(s.engine, 0, amount)
    {
      InsuranceOutExactly(s.engine, CANONICAL_DOMAIN, amount);
    }
    assert forall amount: nat :: InsurancePays(s.engine, 0, amount) ==> amount <= s.engine.insurance;
    hide SumMap, Payout, FairPayout, Redeemable, Burn, BookOk, Capitals, InsurancePays, InsuranceOut;
  }

  lemma RequestRedeemSucceedsExactly(s: State, now: u64, kind: LpKind, who: Owner, shares: u128)
    ensures RequestRedeemStep(s, now, kind, who, shares).Ok? <==>
              var book := if kind.Hlp? then s.hlp else s.inslp;
              book.Some? && who in book.value.positions && 0 < shares <= book.value.positions[who].shares
  {
  }

  lemma RequestInsuranceSucceedsExactly(s: State, now: u64, asset: nat, side: nat, amount: u128)
    ensures RequestInsuranceStep(s, now, asset, side, amount).Ok? <==>
              && side <= 1 && s.insurance.Some?
              && amount > 0 && amount + s.insurance.value.floor <= s.engine.insurance
  {
  }

  // ---------- the House ----------

  lemma WithdrawHouseSucceedsExactly(s: State, now: u64, who: Owner, amount: u128)
    requires Inv(s)
    ensures WithdrawHouseStep(s, now, who, amount).Ok? <==>
              && s.houseReady && (s.hlp.Some? ==> s.hlp.value.total == 0) && now >= s.houseLock
              && Withdrawable(s.engine, s.house, amount)
  {
    BalancesWithin(s, Vault);
    CoveredWithdrawal(s.engine, s.house, amount);
    hide SumMap, Capitals, EngineWithdraw, Withdrawable, BookOk;
  }
}
