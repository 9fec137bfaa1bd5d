/**
 * What each instruction does, as a caller sees it: which balances move and by how much, how
 * V, C_tot, I, budgets, capital and shares change, and that nothing else does.
 */
module Effects {
  import opened Wrappers
  import opened Words
  import opened Sums
  import opened LpBook
  import opened MarketSteps
  import opened Custody

  // ---------- what may change together ----------

  /** The amount leaves one account, arrives in the other, and touches no third one. */
  ghost predicate TokensMoved(s: State, s': State, from: Account, to: Account, amount: nat) {
    && Balance(s'.tokens, from) == Balance(s.tokens, from) - amount
    && Balance(s'.tokens, to) == Balance(s.tokens, to) + amount
    && forall a :: a != from && a != to ==> Balance(s'.tokens, a) == Balance(s.tokens, a)
  }

  /** Capital, C_tot and V rise by the amount; nothing else of the account or the engine changes. */
  ghost predicate CapitalRises(e: Engine, p: Portfolio, e': Engine, p': Portfolio, amount: nat) {
    && p'.capital == p.capital + amount
    && e'.cTot == e.cTot + amount
    && e'.vault == e.vault + amount
    && p' == p.(capital := p'.capital)
    && e' == e.(cTot := e'.cTot, vault := e'.vault)
  }

  /**
   * A live market pays the amount out of an idle account: its losses are settled in full, its
   * gains stay, capital plus PnL falls by the amount and still covers the fee credits, C_tot
   * falls with its capital and V by the amount.
   */
  ghost predicate CapitalPays(e: Engine, p: Portfolio, e': Engine, p': Portfolio, amount: nat) {
    && e.live && p.idle
    && p'.pnl == (if p.pnl < 0 then 0 else p.pnl)
    && p'.capital + p'.pnl == p.capital + p.pnl - amount
    && CoversFees(p'.capital, p'.pnl, p'.feeCredits)
    && e.cTot - e'.cTot == p.capital - p'.capital
    && e'.vault == e.vault - amount
    && p' == p.(capital := p'.capital, pnl := p'.pnl)
    && e' == e.(cTot := e'.cTot, vault := e'.vault)
  }

  /** CapitalPays, or nothing at all for a zero amount. */
  ghost predicate CapitalFalls(e: Engine, p: Portfolio, e': Engine, p': Portfolio, amount: nat) {
    if amount == 0 then e' == e && p' == p else CapitalPays(e, p, e', p', amount)
  }

  /** V, I and the budget of one domain change by delta; every other domain and counter stays. */
  ghost predicate InsuranceChanges(e: Engine, e': Engine, domain: nat, delta: int) {
    && domain in e.domains && domain in e'.domains
    && e'.vault == e.vault + delta
    && e'.insurance == e.insurance + delta
    && e'.domains[domain].budget == e.domains[domain].budget + delta
    && e'.budgets == e.budgets + delta
    && e'.domains == e.domains[domain := e.domains[domain].(budget := e'.domains[domain].budget)]
    && e' == e.(vault := e'.vault, insurance := e'.insurance, budgets := e'.budgets, domains := e'.domains)
  }

  /** Neither credit the engine reserved nor budget the domain spent or reserved was paid. */
  ghost predicate PromisesKept(e: Engine, domain: nat, paid: nat) {
    && domain in e.domains
    && paid + e.reserved <= e.insurance
    && paid + e.domains[domain].spent + e.domains[domain].reserved <= e.domains[domain].budget
  }

  /** Only this LP's position and the total differ; the terms of the vault do not. */
  ghost predicate OnlyPosition(b: Book, b': Book, who: Owner) {
    && who in b'.positions
    && b'.positions == b.positions[who := b'.positions[who]]
    && b' == b.(total := b'.total, positions := b'.positions)
  }

  /** The deposit mints its fair share, to the position and the total alike, and keeps the queue. */
  ghost predicate Minted(b: Book, b': Book, who: Owner, amount: u128, nav: u128) {
    var p, p' := PositionOf(b, who), PositionOf(b', who);
    && amount >= b.minDeposit
    && OnlyPosition(b, b', who)
    && p'.shares - p.shares == b'.total - b.total > 0
    && FairMint(b, amount, nav, b'.total - b.total)
    && p'.pending == p.pending && p'.unlock == p.unlock
  }

  /** The queued shares, due and held, are burned and the slot is empty; out is their fair payout. */
  ghost predicate Burned(b: Book, b': Book, now: u64, who: Owner, nav: u128, out: nat) {
    var p, p' := PositionOf(b, who), PositionOf(b', who);
    && OnlyPosition(b, b', who)
    && p.pending > 0 && p.unlock <= now
    && p'.shares == p.shares - p.pending && p'.pending == 0 == p'.unlock
    && b'.total == Clip(b.total - p.pending)
    && FairPayout(b, p.pending, nav, out)
  }

  // ---------- what each instruction does ----------

  ghost predicate Deposited(s: State, s': State, who: Owner, amount: nat, capShown: bool) {
    && who in s.portfolios && who in s'.portfolios
    && WithinCap(s, capShown, s'.portfolios[who].capital)
    && TokensMoved(s, s', Wallet(who), Vault, amount)
    && CapitalRises(s.engine, s.portfolios[who], s'.engine, s'.portfolios[who], amount)
    && s' == s.(tokens := s'.tokens, engine := s'.engine, portfolios := s.portfolios[who := s'.portfolios[who]])
  }

  ghost predicate Withdrawn(s: State, s': State, who: Owner, amount: nat) {
    && who in s.portfolios && who in s'.portfolios
    && TokensMoved(s, s', Vault, Wallet(who), amount)
    && CapitalFalls(s.engine, s.portfolios[who], s'.engine, s'.portfolios[who], amount)
    && s' == s.(tokens := s'.tokens, engine := s'.engine, portfolios := s.portfolios[who := s'.portfolios[who]])
  }

  ghost predicate HouseFunded(s: State, s': State, from: Account, amount: nat) {
    && TokensMoved(s, s', from, Vault, amount)
    && CapitalRises(s.engine, s.house, s'.engine, s'.house, amount)
    && s' == s.(tokens := s'.tokens, engine := s'.engine, house := s'.house)
  }

  ghost predicate HouseDrained(s: State, s': State, to: Account, amount: nat) {
    && TokensMoved(s, s', Vault, to, amount)
    && CapitalFalls(s.engine, s.house, s'.engine, s'.house, amount)
    && s' == s.(tokens := s'.tokens, engine := s'.engine, house := s'.house)
  }

  ghost predicate HlpDeposited(s: State, s': State, who: Owner, amount: u128) {
    && s.hlp.Some? && s'.hlp.Some? && HlpNav(s).Ok?
    && TokensMoved(s, s', Wallet(who), Buffer, amount)
    && Minted(s.hlp.value, s'.hlp.value, who, amount, HlpNav(s).value)
    && s' == s.(tokens := s'.tokens, hlp := s'.hlp)
  }

  ghost predicate HlpRedeemed(s: State, s': State, now: u64, who: Owner) {
    && s.hlp.Some? && s'.hlp.Some? && HlpNav(s).Ok?
    && var out := Balance(s.tokens, Buffer) - Balance(s'.tokens, Buffer);
    && out >= 0 && TokensMoved(s, s', Buffer, Wallet(who), out)
    && Burned(s.hlp.value, s'.hlp.value, now, who, HlpNav(s).value, out)
    && s' == s.(tokens := s'.tokens, hlp := s'.hlp)
  }

  ghost predicate InsLpDeposited(s: State, s': State, who: Owner, amount: u128) {
    && s.inslp.Some? && s'.inslp.Some?
    && TokensMoved(s, s', Wallet(who), Vault, amount)
    && InsuranceChanges(s.engine, s'.engine, 0, amount)
    && Minted(s.inslp.value, s'.inslp.value, who, amount, s.engine.insurance)
    && s' == s.(tokens := s'.tokens, engine := s'.engine, inslp := s'.inslp)
  }

  ghost predicate InsLpRedeemed(s: State, s': State, now: u64, who: Owner) {
    && s.inslp.Some? && s'.inslp.Some?
    && var out: int := s.engine.insurance - s'.engine.insurance;
    && out >= 0 && TokensMoved(s, s', Vault, Wallet(who), out)
    && (if out == 0 then s'.engine == s.engine
        else InsuranceChanges(s.engine, s'.engine, 0, 0 - out) && PromisesKept(s.engine, 0, out)
             && (s.insurance.Some? ==> s'.engine.insurance >= s.insurance.value.floor))
    && Burned(s.inslp.value, s'.inslp.value, now, who, s.engine.insurance, out)
    && s' == s.(tokens := s'.tokens, engine := s'.engine, inslp := s'.inslp)
  }

  /** Held shares are queued until the delay in force now has passed; no share and no token moves. */
  ghost predicate RedeemRequested(s: State, s': State, now: u64, kind: LpKind, who: Owner, shares: u128) {
    && BookFor(s, kind).Some? && BookFor(s', kind).Some?
    && var b, b' := BookFor(s, kind).value, BookFor(s', kind).value;
    var p, p' := PositionOf(b, who), PositionOf(b', who);
    && OnlyPosition(b, b', who) && b'.total == b.total
    && p'.shares == p.shares && 0 < p'.pending == shares <= p.shares
    && (p'.unlock == now + b.delay || (p'.unlock == U64_MAX && now + b.delay > U64_MAX))
    && s' == WithBook(s, kind, b')
  }

  ghost predicate InsuranceFunded(s: State, s': State, who: Owner, domain: nat, amount: nat) {
    if amount == 0 then s' == s
    else
      && TokensMoved(s, s', Wallet(who), Vault, amount)
      && InsuranceChanges(s.engine, s'.engine, domain, amount)
      && s' == s.(tokens := s'.tokens, engine := s'.engine)
  }

  /** An amount above the floor is announced, to be paid once the delay in force now has passed. */
  ghost predicate InsuranceRequested(s: State, s': State, now: u64, asset: nat, side: nat, amount: nat) {
    && s.insurance.Some? && s'.insurance.Some?
    && var c, c' := s.insurance.value, s'.insurance.value;
    && amount > 0 && amount + c.floor <= s.engine.insurance
    && c'.pending == amount && c'.asset == asset && c'.side == side
    && (c'.unlock == now + c.delay || (c'.unlock == U64_MAX && now + c.delay > U64_MAX))
    && c'.floor == c.floor && c'.delay == c.delay
    && s' == s.(insurance := s'.insurance)
  }

  /** The announced amount, due, leaves its domain, I stays at or above the floor, the slot is empty. */
  ghost predicate InsuranceExecuted(s: State, s': State, now: u64, who: Owner) {
    && s.insurance.Some? && s'.insurance.Some?
    && var c, c' := s.insurance.value, s'.insurance.value;
    && c.pending > 0 && c.unlock <= now
    && TokensMoved(s, s', Vault, Wallet(who), c.pending)
    && InsuranceChanges(s.engine, s'.engine, 2 * c.asset + c.side, 0 - c.pending)
    && PromisesKept(s.engine, 2 * c.asset + c.side, c.pending)
    && s'.engine.insurance >= c.floor
    && c' == InsuranceConfig(c.floor, c.delay, 0, 0, 0, 0)
    && s' == s.(tokens := s'.tokens, engine := s'.engine, insurance := s'.insurance)
  }

  // ---------- proofs ----------

  lemma EngineDepositRises(e: Engine, p: Portfolio, amount: u128)
    ensures EngineDeposit(e, p, amount).Ok? ==>
              CapitalRises(e, p, EngineDeposit(e, p, amount).value.0, EngineDeposit(e, p, amount).value.1, amount)
  {
  }

  lemma EngineWithdrawFalls(e: Engine, p: Portfolio, amount: u128)
    ensures EngineWithdraw(e, p, amount).Ok? ==>
              CapitalFalls(e, p, EngineWithdraw(e, p, amount).value.0, EngineWithdraw(e, p, amount).value.1, amount)
  {
  }

  lemma InsuranceInChanges(e: Engine, domain: nat, amount: u128)
    ensures InsuranceIn(e, domain, amount).Ok? ==>
              InsuranceChanges(e, InsuranceIn(e, domain, amount).value, domain, amount)
  {
  }

  lemma InsuranceOutChanges(e: Engine, domain: nat, amount: u128)
    ensures InsuranceOut(e, domain, amount).Ok? ==>
              InsuranceChanges(e, InsuranceOut(e, domain, amount).value, domain, 0 - amount)
    ensures InsuranceOut(e, domain, amount).Ok? && amount > 0 ==> PromisesKept(e, domain, amount)
  {
  }

  lemma DepositEffects(s: State, who: Owner, amount: u128, capShown: bool)
    ensures var r := DepositStep(s, who, amount, capShown);
            r.Ok? ==> Deposited(s, r.value, who, amount, capShown)
  {
    if DepositStep(s, who, amount, capShown).Ok? {
      CapMeans(s, capShown, DepositStep(s, who, amount, capShown).value.portfolios[who].capital);
      TransferMoves(s.tokens, Wallet(who), Vault, amount);
      EngineDepositRises(s.engine, s.portfolios[who], amount);
    }
    hide Moved, EngineDeposit, CapitalRises, SumMap;
  }

  lemma WithdrawEffects(s: State, who: Owner, amount: u128)
    ensures var r := WithdrawStep(s, who, amount);
            r.Ok? ==> Withdrawn(s, r.value, who, amount)
  {
    if WithdrawStep(s, who, amount).Ok? {
      TransferMoves(s.tokens, Vault, Wallet(who), amount);
      EngineWithdrawFalls(s.engine, s.portfolios[who], amount);
    }
    hide Moved, EngineWithdraw, CapitalFalls, SumMap;
  }

  lemma FundHouseEffects(s: State, from: Account, amount: u128)
    requires from != Vault
    ensures var r := FundHouseStep(s, from, amount);
            r.Ok? ==> HouseFunded(s, r.value, from, amount)
  {
    if FundHouseStep(s, from, amount).Ok? {
      TransferMoves(s.tokens, from, Vault, amount);
      EngineDepositRises(s.engine, s.house, amount);
    }
    hide Moved, EngineDeposit, CapitalRises, SumMap;
  }

  lemma DrainHouseEffects(s: State, to: Account, amount: u128)
    requires to != Vault
    ensures var r := DrainHouseStep(s, to, amount);
            r.Ok? ==> HouseDrained(s, r.value, to, amount)
  {
    if DrainHouseStep(s, to, amount).Ok? {
      TransferMoves(s.tokens, Vault, to, amount);
      EngineWithdrawFalls(s.engine, s.house, amount);
    }
    hide Moved, EngineWithdraw, CapitalFalls, SumMap;
  }

  lemma MintEffects(b: Book, who: Owner, amount: u128, nav: u128, shares: u128)
    requires DepositShares(b, amount, nav) == Ok(shares) && amount >= b.minDeposit
    ensures Mint(b, who, shares).Ok? ==> Minted(b, Mint(b, who, shares).value, who, amount, nav)
  {
    if Mint(b, who, shares).Ok? {
      MintedIsPositive(b, amount, nav, shares);
    }
    hide DepositShares, FairMint;
  }

  lemma MintedIsPositive(b: Book, amount: u128, nav: u128, shares: nat)
    requires FairMint(b, amount, nav, shares)
    ensures shares > 0
  {
  }

  lemma BurnEffects(b: Book, now: u64, who: Owner, nav: u128, out: u128)
    requires Redeemable(b, now, who).Ok? && Payout(b, PositionOf(b, who).pending, nav) == Ok(out)
    ensures Burned(b, Burn(b, who), now, who, nav, out)
  {
    hide Payout, FairPayout;
  }

  lemma DepositHlpEffects(s: State, who: Owner, amount: u128)
    ensures var r := DepositHlpStep(s, who, amount);
            r.Ok? ==> HlpDeposited(s, r.value, who, amount)
  {
    if DepositHlpStep(s, who, amount).Ok? {
      TransferMoves(s.tokens, Wallet(who), Buffer, amount);
      var nav := HlpNav(s).value;
      MintEffects(s.hlp.value, who, amount, nav, DepositShares(s.hlp.value, amount, nav).value);
    }
    hide Moved, SumMap, Mint, Minted, DepositShares, HlpNav;
  }

  lemma ExecuteHlpEffects(s: State, now: u64, who: Owner)
    ensures var r := ExecuteHlpStep(s, now, who);
            r.Ok? ==> HlpRedeemed(s, r.value, now, who)
  {
    if ExecuteHlpStep(s, now, who).Ok? {
      var nav := HlpNav(s).value;
      var out := Payout(s.hlp.value, PositionOf(s.hlp.value, who).pending, nav).value;
      TransferMoves(s.tokens, Buffer, Wallet(who), out);
      BurnEffects(s.hlp.value, now, who, nav, out);
    }
    hide Moved, SumMap, Burn, Burned, Payout, HlpNav;
  }

  lemma DepositInsLpEffects(s: State, who: Owner, amount: u128)
    ensures var r := DepositInsLpStep(s, who, amount);
            r.Ok? ==> InsLpDeposited(s, r.value, who, amount)
  {
    if DepositInsLpStep(s, who, amount).Ok? {
      TransferMoves(s.tokens, Wallet(who), Vault, amount);
      InsuranceInChanges(s.engine, CANONICAL_DOMAIN, amount);
      var nav := s.engine.insurance;
      MintEffects(s.inslp.value, who, amount, nav, DepositShares(s.inslp.value, amount, nav).value);
    }
    hide Moved, SumMap, Mint, Minted, DepositShares, InsuranceIn, InsuranceChanges;
  }

  lemma ExecuteInsLpEffects(s: State, now: u64, who: Owner)
    ensures var r := ExecuteInsLpStep(s, now, who);
            r.Ok? ==> InsLpRedeemed(s, r.value, now, who)
  {
    if ExecuteInsLpStep(s, now, who).Ok? {
      var nav := s.engine.insurance;
      var out := Payout(s.inslp.value, PositionOf(s.inslp.value, who).pending, nav).value;
      TransferMoves(s.tokens, Vault, Wallet(who), out);
      InsuranceOutChanges(s.engine, CANONICAL_DOMAIN, out);
      BurnEffects(s.inslp.value, now, who, nav, out);
    }
    hide Moved, SumMap, Burn, Burned, Payout, InsuranceOut, PromisesKept;
  }

  lemma RequestRedeemEffects(s: State, now: u64, kind: LpKind, who: Owner, shares: u128)
    ensures var r := RequestRedeemStep(s, now, kind, who, shares);
            r.Ok? ==> RedeemRequested(s, r.value, now, kind, who, shares)
  {
  }

  lemma FundInsuranceEffects(s: State, who: Owner, asset: nat, side: nat, amount: u128)
    ensures var r := FundInsuranceStep(s, who, asset, side, amount);
            r.Ok? ==> InsuranceFunded(s, r.value, who, 2 * asset + side, amount)
  {
    if FundInsuranceStep(s, who, asset, side, amount).Ok? && amount > 0 {
      TransferMoves(s.tokens, Wallet(who), Vault, amount);
      InsuranceInChanges(s.engine, DomainIndex(asset, side), amount);
    }
    hide Moved, SumMap, InsuranceIn, InsuranceChanges;
  }

  lemma RequestInsuranceEffects(s: State, now: u64, asset: nat, side: nat, amount: u128)
    ensures var r := RequestInsuranceStep(s, now, asset, side, amount);
            r.Ok? ==> InsuranceRequested(s, r.value, now, asset, side, amount)
  {
  }

  lemma ExecuteInsuranceEffects(s: State, now: u64, who: Owner)
    ensures var r := ExecuteInsuranceStep(s, now, who);
            r.Ok? ==> InsuranceExecuted(s, r.value, now, who)
  {
    if ExecuteInsuranceStep(s, now, who).Ok? {
      var c := s.insurance.value;
      TransferMoves(s.tokens, Vault, Wallet(who), c.pending);
      InsuranceOutChanges(s.engine, DomainIndex(c.asset, c.side), c.pending);
    }
    hide Moved, SumMap, InsuranceOut, PromisesKept;
  }

  /** New terms leave every share, every queued redemption and every token where it was. */
  lemma ParamsMoveNothing(s: State, kind: LpKind, delay: u64, feeBps: u64, minDeposit: u128, haircut: u64, o: Owner)
    ensures var s' := SetLpParamsStep(s, kind, delay, feeBps, minDeposit, haircut);
            && (BookFor(s, kind).Some? ==>
                  && BookFor(s', kind).Some?
                  && BookFor(s', kind).value.total == BookFor(s, kind).value.total
                  && PositionOf(BookFor(s', kind).value, o) == PositionOf(BookFor(s, kind).value, o))
            && s'.tokens == s.tokens && s'.engine == s.engine && s'.house == s.house
            && s'.portfolios == s.portfolios && s'.insurance == s.insurance
            && (forall other: LpKind :: other != kind ==> BookFor(s', other) == BookFor(s, other))
            && (kind.InsLp? ==> s'.haircutBps == s.haircutBps)
  {
  }

  // ---------- when the money is there ----------

  /** What the engine's validation asks for money to come in: nothing if none does. */
  predicate Accepts(e: Engine, p: Portfolio, amount: nat) {
    p.sound && (amount > 0 ==> ShapeAfter(e, 0, 0 - amount))
  }

  /**
   * In a reachable state a deposit succeeds exactly when the wallet covers it, the account
   * stays under the collateral cap and the engine accepts it: no counter can overflow.
   */
  lemma DepositSucceedsExactly(s: State, who: Owner, amount: u128, capShown: bool)
    requires Inv(s)
    ensures DepositStep(s, who, amount, capShown).Ok? <==>
              && who in s.portfolios
              && amount <= Balance(s.tokens, Wallet(who))
              && WithinCap(s, capShown, s.portfolios[who].capital + amount)
              && Accepts(s.engine, s.portfolios[who], amount)
  {
    BalancesWithin(s, Wallet(who));
    if who in s.portfolios {
      CapMeans(s, capShown, s.portfolios[who].capital + amount);
      CapitalUpdate(s.portfolios, who, s.portfolios[who]);
      AcceptedDeposit(s.engine, s.portfolios[who], if amount <= U64_MAX then amount else 0);
    }
    hide SumMap, Capitals, EngineDeposit, Accepts, DepositCap, WithinCap;
  }

  lemma AcceptedDeposit(e: Engine, p: Portfolio, amount: u128)
    requires p.capital <= e.cTot <= e.vault && amount <= U64_MAX && e.vault <= U64_MAX
    ensures EngineDeposit(e, p, amount).Ok? <==> Accepts(e, p, amount)
    ensures EngineDeposit(e, p, amount).Ok? ==> EngineDeposit(e, p, amount).value.1.capital == p.capital + amount
  {
  }

  lemma FundHouseSucceedsExactly(s: State, from: Account, amount: u128)
    requires Inv(s) && from != Vault
    ensures FundHouseStep(s, from, amount).Ok? <==>
              s.houseReady && amount <= Balance(s.tokens, from) && Accepts(s.engine, s.house, amount)
  {
    BalancesWithin(s, from);
    AcceptedDeposit(s.engine, s.house, if amount <= U64_MAX then amount else 0);
    hide SumMap, Capitals, EngineDeposit, Accepts;
  }

  /** Any account and the vault together hold no more than all tokens. */
  lemma BalancesWithin(s: State, a: Account)
    ensures Balance(s.tokens, a) <= SumMap(s.tokens) && Balance(s.tokens, Vault) <= SumMap(s.tokens)
    ensures a != Vault ==> Balance(s.tokens, a) + Balance(s.tokens, Vault) <= SumMap(s.tokens)
  {
    BalanceWithin(s.tokens, a);
    BalanceWithin(s.tokens, Vault);
    if a != Vault && a in s.tokens {
      SumSplits(s.tokens, a);
      BalanceWithin(s.tokens - {a}, Vault);
    }
  }

  /** The engine's shape validation, after the losses are settled and the amount has left V. */
  predicate ShapeAfter(e: Engine, settled: nat, amount: int) {
    && e.sound
    && e.cTot - settled + e.insurance + e.claims <= e.vault
    && e.vault - amount <= 10_000_000_000_000_000
    && e.reserved <= e.insurance && e.budgets <= e.insurance
  }

  /**
   * What an account can take out of a live market: what its capital and PnL leave after
   * covering the fee credits, and no more than its capital less its losses, in i128 arithmetic,
   * if the account and the market's shape validate.
   */
  predicate Withdrawable(e: Engine, p: Portfolio, amount: nat) {
    amount == 0
    || (&& p.sound && e.live && p.idle
        && CoversFees(p.capital - amount, p.pnl, p.feeCredits)
        && amount <= p.capital + p.pnl && amount <= p.capital
        && p.capital + p.pnl - amount < HALF128 && p.feeCredits > -HALF128
        && ShapeAfter(e, if p.pnl < 0 then -(p.pnl as int) else 0, amount))
  }

  /**
   * In a reachable state a withdrawal is refused only on the account's own side: C_tot, V and
   * the vault's tokens always cover what an idle account of a live market owns.
   */
  lemma WithdrawSucceedsExactly(s: State, who: Owner, amount: u128)
    requires Inv(s)
    ensures WithdrawStep(s, who, amount).Ok? <==>
              who in s.portfolios && Withdrawable(s.engine, s.portfolios[who], amount)
  {
    BalancesWithin(s, Vault);
    if who in s.portfolios {
      CapitalUpdate(s.portfolios, who, s.portfolios[who]);
      CoveredWithdrawal(s.engine, s.portfolios[who], amount);
    }
    hide SumMap, Capitals, EngineWithdraw, Withdrawable;
  }

  lemma CoveredWithdrawal(e: Engine, p: Portfolio, amount: u128)
    requires p.capital <= e.cTot <= e.vault <= U64_MAX
    ensures EngineWithdraw(e, p, amount).Ok? <==> Withdrawable(e, p, amount)
    ensures Withdrawable(e, p, amount) ==> amount <= e.vault
  {
  }

  lemma HarvestSucceedsExactly(s: State, amount: u128)
    requires Inv(s)
    ensures HarvestHlpStep(s, amount).Ok? <==> s.houseReady && Withdrawable(s.engine, s.house, amount)
  {
    BalancesWithin(s, Vault);
    CoveredWithdrawal(s.engine, s.house, amount);
    hide SumMap, Capitals, EngineWithdraw, Withdrawable;
  }

  /** An announced withdrawal that is due pays unless the floor, or a promise of the engine, is in the way. */
  lemma ExecuteInsuranceSucceedsExactly(s: State, now: u64, who: Owner)
    requires Inv(s)
    ensures ExecuteInsuranceStep(s, now, who).Ok? <==>
              && s.insurance.Some?
              && var c := s.insurance.value;
              && c.pending > 0 && c.unlock <= now && c.pending + c.floor <= s.engine.insurance
              && PromisesKept(s.engine, DomainIndex(c.asset, c.side), c.pending)
              && s.engine.domains[DomainIndex(c.asset, c.side)].sound
              && c.pending <= s.engine.budgets <= s.engine.insurance
              && s.engine.sound && s.engine.cTot + s.engine.insurance + s.engine.claims <= s.engine.vault
              && s.engine.vault - c.pending <= 10_000_000_000_000_000
  {
    BalancesWithin(s, Vault);
    hide SumMap, Capitals;
  }

  /** Over any run, all user and House capital, and I on top, is backed by tokens in the vault. */
  lemma EveryoneIsCovered(s: State, run: Run)
    requires Inv(s)
    ensures var c := After(s, run);
            c.house.capital + SumMap(Capitals(c.portfolios)) + c.engine.insurance <= Balance(c.tokens, Vault)
  {
    RunKeepsInv(s, run);
    hide After, SumMap, Capitals;
  }
}
