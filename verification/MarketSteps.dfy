/**
 * One market: its token accounts, the engine counters the wrapper moves, and the state of
 * both LP vaults and of the insurance governance. Every instruction of
 * crates/program/src/processor.rs that moves value is a function from state to state or an
 * error; an instruction that fails changes nothing, as the runtime reverts it.
 */
module MarketSteps {
  import opened Wrappers
  import opened Arith
  import opened Words
  import opened Sums
  import opened LpBook

  /** Token accounts: a user's, the market vault, the HLP free buffer. */
  datatype Account = Wallet(owner: Owner) | Vault | Buffer

  /**
   * The portfolio fields a deposit or withdrawal reads. idle: no leg, no close in progress.
   * sound: the engine's account validation passes; nothing modelled here reads more of it.
   */
  datatype Portfolio = Portfolio(capital: u128, pnl: i128, feeCredits: i128, idle: bool, sound: bool)

  const EMPTY_PORTFOLIO: Portfolio := Portfolio(0, 0, 0, true, true)

  /** One insurance domain; sound: the engine's validation of its source ledger passes. */
  datatype Domain = Domain(budget: u128, spent: u128, reserved: u128, sound: bool)

  /**
   * The engine header: vault counter V, total capital C_tot, insurance I with its reserved
   * part, its domains and the total of their unspent budgets. claims: what backing providers
   * are owed out of V. sound: the part of the engine's shape validation that reads none of these.
   */
  datatype Engine = Engine(
    live: bool, vault: u128, cTot: u128, insurance: u128, reserved: u128, claims: u128, budgets: u128,
    sound: bool, domains: map<nat, Domain>)

  datatype InsuranceConfig = InsuranceConfig(
    floor: u128, delay: u64, pending: u128, unlock: u64, asset: nat, side: nat)

  datatype State = State(
    tokens: map<Account, nat>,
    engine: Engine,
    capacity: nat,
    houseReady: bool,
    house: Portfolio,
    houseLock: u64,
    portfolios: map<Owner, Portfolio>,
    hlp: Option<Book>,
    haircutBps: u64,
    inslp: Option<Book>,
    insurance: Option<InsuranceConfig>,
    dexPriced: bool,
    capOverride: u128)

  datatype LpKind = Hlp | InsLp

  datatype Op =
    | CreateHouse
    | InitPortfolio(who: Owner)
    | SetDepositCap(capital: u128)
    | Deposit(who: Owner, amount: u128, capShown: bool)
    | Withdraw(who: Owner, amount: u128)
    | FundHouse(who: Owner, amount: u128)
    | WithdrawHouse(who: Owner, amount: u128)
    | SetHouseLock(slot: u64)
    | SetLpParams(kind: LpKind, delay: u64, feeBps: u64, minDeposit: u128, haircut: u64)
    | DepositHlp(who: Owner, amount: u128)
    | DeployHlp(amount: u128)
    | HarvestHlp(amount: u128)
    | ExecuteHlp(who: Owner)
    | DepositInsLp(who: Owner, amount: u128)
    | ExecuteInsLp(who: Owner)
    | RequestRedeem(kind: LpKind, who: Owner, shares: u128)
    | FundInsurance(who: Owner, asset: nat, side: nat, amount: u128)
    | SetInsuranceParams(floor: u128, delay: u64)
    | RequestInsurance(asset: nat, side: nat, amount: u128)
    | ExecuteInsurance(who: Owner)
    | Donate(who: Owner, to: Account, amount: u128)
    | EngineMove(engine: Engine, house: Portfolio, portfolios: map<Owner, Portfolio>)

  // ---------- tokens ----------

  function Balance(tokens: map<Account, nat>, a: Account): nat {
    if a in tokens then tokens[a] else 0
  }

  /** An SPL transfer of a u128 amount: it must fit u64 and be covered. */
  function Moved(tokens: map<Account, nat>, from: Account, to: Account, amount: u128)
    : Result<map<Account, nat>, Error>
  {
    if amount > U64_MAX then Err(ArithmeticOverflow) else
    if amount == 0 then Ok(tokens)
    else
      :- Need(amount <= Balance(tokens, from), TokenBalance);
      var debited := tokens[from := Balance(tokens, from) - amount];
      Ok(debited[to := Balance(debited, to) + amount])
  }

  // ---------- engine contracts ----------

  /** MAX_VAULT_TVL. */
  const MAX_VAULT_TVL: u128 := 10_000_000_000_000_000

  /** validate_shape: V is bounded and covers what is owed out of it, I covers what was promised from it. */
  predicate ShapeOk(e: Engine) {
    && e.sound
    && e.cTot + e.insurance + e.claims <= e.vault <= MAX_VAULT_TVL
    && e.reserved <= e.insurance
    && e.budgets <= e.insurance
  }

  /** deposit_not_atomic. */
  function EngineDeposit(e: Engine, p: Portfolio, amount: u128): Result<(Engine, Portfolio), Error> {
    if !p.sound then Err(EngineRejected)
    else if amount == 0 then Ok((e, p))
    else
      var capital :- CheckedAdd(p.capital, amount);
      var cTot :- CheckedAdd(e.cTot, amount);
      var vault :- CheckedAdd(e.vault, amount);
      var e' := e.(cTot := cTot, vault := vault);
      :- Need(ShapeOk(e'), EngineRejected);
      Ok((e', p.(capital := capital)))
  }

  /** What settling a negative pnl takes out of an account's own principal. */
  function Settled(p: Portfolio): u128 {
    if p.pnl >= 0 then 0
    else
      var debt: int := 0 - p.pnl;
      if debt <= p.capital then debt else p.capital
  }

  function Magnitude(x: int): int {
    if x < 0 then -x else x
  }

  /** capital + pnl - |fee credits|. */
  function RawEquity(p: Portfolio): int {
    p.capital + p.pnl - Magnitude(p.feeCredits)
  }

  /** withdraw_not_atomic: only an idle, solvent account of a live market, only from capital. */
  function EngineWithdraw(e: Engine, p: Portfolio, amount: u128): Result<(Engine, Portfolio), Error> {
    if amount == 0 then Ok((e, p))
    else
      :- Need(p.sound && e.live && p.idle, EngineRejected);
      var paid := Settled(p);
      :- Need(paid <= e.cTot, EngineRejected);
      var capital, pnl := p.capital - paid, p.pnl + paid;
      :- Need(pnl >= 0 && amount <= capital, EngineRejected);
      var p' := p.(capital := capital - amount, pnl := pnl);
      :- Need(EquityFits(p') && RawEquity(p') >= 0, EngineRejected);
      :- Need(amount <= e.cTot - paid && amount <= e.vault, EngineRejected);
      var e' := e.(cTot := e.cTot - paid - amount, vault := e.vault - amount);
      :- Need(ShapeOk(e'), EngineRejected);
      Ok((e', p'))
  }

  /** insurance_domain_index. */
  function DomainIndex(asset: nat, side: nat): nat {
    asset * 2 + side
  }

  const CANONICAL_DOMAIN: nat := 0

  /** deposit_domain_insurance_not_atomic. */
  function InsuranceIn(e: Engine, domain: nat, amount: u128): Result<Engine, Error> {
    if domain !in e.domains then Err(EngineRejected) else
    var vault :- CheckedAdd(e.vault, amount);
    var insurance :- CheckedAdd(e.insurance, amount);
    var d := e.domains[domain];
    var budget :- CheckedAdd(d.budget, amount);
    var budgets :- CheckedAdd(e.budgets, amount);
    :- Need(d.spent <= d.budget && d.sound, EngineRejected);
    var e' := e.(vault := vault, insurance := insurance, budgets := budgets,
                 domains := e.domains[domain := d.(budget := budget)]);
    :- Need(ShapeOk(e'), EngineRejected);
    Ok(e')
  }

  function SaturatingSub(a: u128, b: u128): u128 {
    if a < b then 0 else a - b
  }

  /** withdraw_domain_insurance_not_atomic: neither reserved credit nor spent budget leaves. */
  function InsuranceOut(e: Engine, domain: nat, amount: u128): Result<Engine, Error> {
    if domain !in e.domains then Err(EngineRejected) else
    var d := e.domains[domain];
    :- Need(amount <= SaturatingSub(e.insurance, e.reserved), EngineRejected);
    :- Need(amount <= SaturatingSub(SaturatingSub(d.budget, d.spent), d.reserved), EngineRejected);
    :- Need(amount <= e.vault && amount <= e.budgets, EngineRejected);
    :- Need(d.spent <= d.budget && d.sound, EngineRejected);
    var e' := e.(vault := e.vault - amount, insurance := e.insurance - amount, budgets := e.budgets - amount,
                 domains := e.domains[domain := d.(budget := d.budget - amount)]);
    :- Need(ShapeOk(e'), EngineRejected);
    Ok(e')
  }

  /** No engine call changes whether the market is live; only insurance calls change I. */
  lemma AccountCallsKeepMode(e: Engine, p: Portfolio, amount: u128)
    ensures EngineDeposit(e, p, amount).Ok? ==>
              EngineDeposit(e, p, amount).value.0.live == e.live
              && EngineDeposit(e, p, amount).value.0.insurance == e.insurance
    ensures EngineWithdraw(e, p, amount).Ok? ==>
              EngineWithdraw(e, p, amount).value.0.live == e.live
              && EngineWithdraw(e, p, amount).value.0.insurance == e.insurance
  {
    hide ShapeOk, EquityFits;
  }

  lemma InsuranceCallsKeepMode(e: Engine, domain: nat, amount: u128)
    ensures InsuranceIn(e, domain, amount).Ok? ==>
              var e' := InsuranceIn(e, domain, amount).value;
              e'.live == e.live && e'.cTot == e.cTot && e'.insurance == e.insurance + amount
    ensures InsuranceOut(e, domain, amount).Ok? ==>
              var e' := InsuranceOut(e, domain, amount).value;
              e'.live == e.live && e'.cTot == e.cTot && e'.insurance == e.insurance - amount
  {
    hide ShapeOk;
  }

  // ---------- net asset values ----------

  /** The discount on positive marked PnL: saturating product over 10000, at most the PnL. */
  function Haircut(pnl: i128, bps: u64): int {
    if pnl <= 0 then 0
    else
      var capped := if bps < BPS then bps else BPS;
      var product := pnl * capped;
      (if product > HALF128 - 1 then HALF128 - 1 else product) / BPS
  }

  /** Marked equity after the haircut, before it is floored at zero. */
  function AdjustedEquity(p: Portfolio, bps: u64): int {
    RawEquity(p) - Haircut(p.pnl, bps)
  }

  predicate FitsI128(x: int) {
    -HALF128 <= x < HALF128
  }

  /** The portfolios whose equity the engine's i128 arithmetic can represent at every step. */
  predicate EquityFits(p: Portfolio) {
    p.capital < HALF128 && p.feeCredits > -HALF128 && FitsI128(p.capital + p.pnl) && FitsI128(RawEquity(p))
  }

  /**
   * The discount h on a PnL: none on a loss; on a gain bps of it (at most all), rounded down,
   * where the product is capped at i128::MAX before the division.
   */
  ghost predicate Discount(pnl: int, bps: nat, h: int) {
    && (pnl <= 0 ==> h == 0)
    && (pnl > 0 ==>
          var c := if bps < 10_000 then bps else 10_000;
          if pnl * c < HALF128 then h * 10_000 <= pnl * c < (h + 1) * 10_000
          else h == (HALF128 - 1) / 10_000)
  }

  /** Capital plus PnL covers the fee credits, whatever their sign. */
  predicate CoversFees(capital: int, pnl: int, feeCredits: int) {
    capital + pnl >= feeCredits && capital + pnl >= -feeCredits
  }

  /** The equity after the discount h and the fee debt, never below zero. */
  ghost predicate DiscountedEquity(p: Portfolio, bps: nat, value: int) {
    exists h: int :: Discount(p.pnl, bps, h) &&
      var fees := if p.feeCredits < 0 then -(p.feeCredits as int) else p.feeCredits;
      if p.capital + p.pnl - fees < h then value == 0 else value == p.capital + p.pnl - fees - h
  }

  /** Every step of capital + pnl - |fees| is an i128. */
  predicate EquityInRange(p: Portfolio) {
    && p.capital < HALF128
    && -HALF128 <= p.capital + p.pnl < HALF128
    && -HALF128 < p.feeCredits
    && -HALF128 <= p.capital + p.pnl + p.feeCredits && -HALF128 <= p.capital + p.pnl - p.feeCredits
  }

  lemma EquityFitsMeans(p: Portfolio)
    ensures EquityFits(p) <==> EquityInRange(p)
  {
  }

  /** What the equity functions mean: the fee debt counts in full, and the discount is exact. */
  lemma EquityMeans(p: Portfolio, bps: u64)
    ensures RawEquity(p) >= 0 <==> CoversFees(p.capital, p.pnl, p.feeCredits)
    ensures Discount(p.pnl, bps, RawEquity(p) - AdjustedEquity(p, bps))
    ensures DiscountedEquity(p, bps, Clip(AdjustedEquity(p, bps)))
  {
    HaircutIsDiscount(p.pnl, bps);
    hide Haircut, Discount;
    assert Discount(p.pnl, bps, Haircut(p.pnl, bps));
  }

  lemma HaircutIsDiscount(pnl: i128, bps: u64)
    ensures Discount(pnl, bps, Haircut(pnl, bps))
  {
    if pnl > 0 {
      var c := if bps < BPS then bps else BPS;
      MulMono(0, pnl, c);
    }
  }

  /** The discount is determined: no two amounts meet its definition. */
  lemma DiscountIsUnique(pnl: int, bps: nat, h: int, g: int)
    requires Discount(pnl, bps, h) && Discount(pnl, bps, g)
    ensures h == g
  {
  }

  /** One atom more of fee debt lowers equity by one atom. */
  lemma FeeDebtCounts(p: Portfolio, bps: u64)
    requires -HALF128 < p.feeCredits <= 0
    ensures AdjustedEquity(p.(feeCredits := p.feeCredits - 1), bps) == AdjustedEquity(p, bps) - 1
  {
    hide Haircut;
  }

  /** house_marked_equity_haircut. */
  function MarkedEquity(p: Portfolio, bps: u64): (r: Result<u128, Error>)
    ensures r.Ok? <==> EquityInRange(p)
    ensures r.Ok? ==> DiscountedEquity(p, bps, r.value)
    ensures r.Ok? ==> r.value == Clip(AdjustedEquity(p, bps))
    ensures r.Ok? ==> r.value < HALF128
  {
    EquityFitsMeans(p);
    EquityMeans(p, bps);
    hide DiscountedEquity, Discount;
    if p.capital >= HALF128 || p.feeCredits == -HALF128 then Err(ArithmeticOverflow) else
    :- Need(FitsI128(p.capital + p.pnl) && FitsI128(RawEquity(p)), ArithmeticOverflow);
    var haircut := Haircut(p.pnl, bps);
    HaircutSmall(p.pnl, bps);
    var adjusted := RawEquity(p) - haircut;
    Ok(if adjusted < 0 then 0 else adjusted)
  }

  lemma HaircutSmall(pnl: i128, bps: u64)
    ensures 0 <= Haircut(pnl, bps) < HALF128
    ensures bps == 0 || pnl <= 0 ==> Haircut(pnl, bps) == 0
  {
    if pnl > 0 {
      var capped := if bps < BPS then bps else BPS;
      MulMono(0, pnl, capped);
    }
  }

  function Clip(x: int): nat {
    if x < 0 then 0 else x
  }

  /** HLP NAV: free buffer plus marked House equity. */
  function HlpNav(s: State): (r: Result<u128, Error>)
    ensures r.Ok? ==> r.value == Balance(s.tokens, Buffer) + Clip(AdjustedEquity(s.house, s.haircutBps))
    ensures Balance(s.tokens, Buffer) <= U64_MAX ==> (r.Ok? <==> EquityInRange(s.house))
  {
    hide DiscountedEquity, Discount;
    var equity :- MarkedEquity(s.house, s.haircutBps);
    var buffer := Balance(s.tokens, Buffer);
    :- Need(buffer + equity <= U128_MAX, ArithmeticOverflow);
    Ok(buffer + equity)
  }

  function Config<T>(c: Option<T>): Result<T, Error> {
    if c.None? then Err(Uninitialized) else Ok(c.value)
  }

  function BookFor(s: State, kind: LpKind): Option<Book> {
    if kind.Hlp? then s.hlp else s.inslp
  }

  function WithBook(s: State, kind: LpKind, b: Book): State {
    if kind.Hlp? then s.(hlp := Some(b)) else s.(inslp := Some(b))
  }

  // ---------- instructions ----------

  /** process_create_house_vault: once, with an empty portfolio. */
  function CreateHouseStep(s: State): Result<State, Error> {
    if s.houseReady then Err(AlreadyInitialized) else Ok(s.(houseReady := true, house := EMPTY_PORTFOLIO))
  }

  /** init_portfolio_buffer: a user's portfolio starts empty. */
  function InitPortfolioStep(s: State, who: Owner): Result<State, Error> {
    if who in s.portfolios then Err(AlreadyInitialized)
    else Ok(s.(portfolios := s.portfolios[who := EMPTY_PORTFOLIO]))
  }

  const MAX_CUSTOM_PORTFOLIO_CAPITAL: u128 := 1_000_000_000

  /**
   * The collateral cap of a deposit: none on a market that is not priced by a DEX, otherwise
   * the floor, or the market's own cap if it is higher and the caller shows its account.
   */
  function DepositCap(s: State, shown: bool): Option<u128> {
    if !s.dexPriced then None
    else if shown && s.capOverride > MAX_CUSTOM_PORTFOLIO_CAPITAL then Some(s.capOverride)
    else Some(MAX_CUSTOM_PORTFOLIO_CAPITAL)
  }

  predicate UnderCap(cap: Option<u128>, capital: int) {
    cap.Some? ==> capital <= cap.value
  }

  /** On a DEX-priced market: at most 10^9, or the market's own cap where the caller shows a higher one. */
  predicate WithinCap(s: State, shown: bool, capital: int) {
    s.dexPriced ==> capital <= 1_000_000_000 || (shown && capital <= s.capOverride)
  }

  lemma CapMeans(s: State, shown: bool, capital: int)
    ensures UnderCap(DepositCap(s, shown), capital) <==> WithinCap(s, shown, capital)
  {
  }

  function DepositStep(s: State, who: Owner, amount: u128, capShown: bool): Result<State, Error> {
    var tokens :- Moved(s.tokens, Wallet(who), Vault, amount);
    :- Need(who in s.portfolios, InvalidOwner);
    var ep :- EngineDeposit(s.engine, s.portfolios[who], amount);
    :- Need(UnderCap(DepositCap(s, capShown), ep.1.capital), DepositCapExceeded);
    Ok(s.(tokens := tokens, engine := ep.0, portfolios := s.portfolios[who := ep.1]))
  }

  function WithdrawStep(s: State, who: Owner, amount: u128): Result<State, Error> {
    if amount > U64_MAX then Err(ArithmeticOverflow) else
    :- Need(who in s.portfolios, InvalidOwner);
    var ep :- EngineWithdraw(s.engine, s.portfolios[who], amount);
    var tokens :- Moved(s.tokens, Vault, Wallet(who), amount);
    Ok(s.(tokens := tokens, engine := ep.0, portfolios := s.portfolios[who := ep.1]))
  }

  function FundHouseStep(s: State, from: Account, amount: u128): Result<State, Error> {
    if !s.houseReady then Err(Uninitialized) else
    var tokens :- Moved(s.tokens, from, Vault, amount);
    var ep :- EngineDeposit(s.engine, s.house, amount);
    Ok(s.(tokens := tokens, engine := ep.0, house := ep.1))
  }

  function DrainHouseStep(s: State, to: Account, amount: u128): Result<State, Error> {
    if amount > U64_MAX then Err(ArithmeticOverflow) else
    var ep :- EngineWithdraw(s.engine, s.house, amount);
    var tokens :- Moved(s.tokens, Vault, to, amount);
    Ok(s.(tokens := tokens, engine := ep.0, house := ep.1))
  }

  function WithdrawHouseStep(s: State, now: u64, who: Owner, amount: u128): Result<State, Error> {
    if !s.houseReady then Err(Uninitialized) else
    :- Need(s.hlp.None? || s.hlp.value.total == 0, LpClaimsOutstanding);
    :- Need(now >= s.houseLock, HouseLocked);
    DrainHouseStep(s, Wallet(who), amount)
  }

  function HarvestHlpStep(s: State, amount: u128): Result<State, Error> {
    if !s.houseReady then Err(Uninitialized) else
    DrainHouseStep(s, Buffer, amount)
  }

  function SetHouseLockStep(s: State, slot: u64): Result<State, Error> {
    if slot < s.houseLock then Err(ParamLoosened) else
    Ok(s.(houseLock := slot))
  }

  function SetLpParamsStep(s: State, kind: LpKind, delay: u64, feeBps: u64, minDeposit: u128, haircut: u64): State {
    var book := BookFor(s, kind);
    var b := if book.None? then Book(0, delay, feeBps, minDeposit, map[])
             else book.value.(delay := delay, feeBps := feeBps, minDeposit := minDeposit);
    var s' := WithBook(s, kind, b);
    if kind.Hlp? then s'.(haircutBps := haircut) else s'
  }

  function DepositHlpStep(s: State, who: Owner, amount: u128): Result<State, Error> {
    if !s.houseReady then Err(Uninitialized) else
    var book :- Config(s.hlp);
    :- Need(amount >= book.minDeposit, BelowMinDeposit);
    var nav :- HlpNav(s);
    var shares :- DepositShares(book, amount, nav);
    var tokens :- Moved(s.tokens, Wallet(who), Buffer, amount);
    var minted :- Mint(book, who, shares);
    Ok(s.(tokens := tokens, hlp := Some(minted)))
  }

  function ExecuteHlpStep(s: State, now: u64, who: Owner): Result<State, Error> {
    if !s.houseReady then Err(Uninitialized) else
    var book :- Config(s.hlp);
    var shares :- Redeemable(book, now, who);
    var nav :- HlpNav(s);
    var out :- Payout(book, shares, nav);
    :- Need(out <= Balance(s.tokens, Buffer), BufferInsufficient);
    var tokens :- Moved(s.tokens, Buffer, Wallet(who), out);
    Ok(s.(tokens := tokens, hlp := Some(Burn(book, who))))
  }

  function DepositInsLpStep(s: State, who: Owner, amount: u128): Result<State, Error> {
    var book :- Config(s.inslp);
    :- Need(amount >= book.minDeposit, BelowMinDeposit);
    var shares :- DepositShares(book, amount, s.engine.insurance);
    var tokens :- Moved(s.tokens, Wallet(who), Vault, amount);
    var engine :- InsuranceIn(s.engine, CANONICAL_DOMAIN, amount);
    var minted :- Mint(book, who, shares);
    Ok(s.(tokens := tokens, engine := engine, inslp := Some(minted)))
  }

  /** The insurance floor in force; none before the config exists. */
  function Floor(s: State): u128 {
    if s.insurance.None? then 0 else s.insurance.value.floor
  }

  function ExecuteInsLpStep(s: State, now: u64, who: Owner): Result<State, Error> {
    var book :- Config(s.inslp);
    var shares :- Redeemable(book, now, who);
    var out :- Payout(book, shares, s.engine.insurance);
    :- Need(out <= SaturatingSub(s.engine.insurance, Floor(s)), FloorBreach);
    :- Need(out <= U64_MAX, ArithmeticOverflow);
    var engine :- if out > 0 then InsuranceOut(s.engine, CANONICAL_DOMAIN, out) else Ok(s.engine);
    var tokens :- Moved(s.tokens, Vault, Wallet(who), out);
    Ok(s.(tokens := tokens, engine := engine, inslp := Some(Burn(book, who))))
  }

  function RequestRedeemStep(s: State, now: u64, kind: LpKind, who: Owner, shares: u128): Result<State, Error> {
    var book :- Config(BookFor(s, kind));
    var requested :- Request(book, now, who, shares);
    Ok(WithBook(s, kind, requested))
  }

  function FundInsuranceStep(s: State, who: Owner, asset: nat, side: nat, amount: u128): Result<State, Error> {
    if side > 1 || asset >= s.capacity then Err(InvalidInstruction) else
    :- Need(amount <= U64_MAX, ArithmeticOverflow);
    if amount == 0 then Ok(s)
    else
      var tokens :- Moved(s.tokens, Wallet(who), Vault, amount);
      var engine :- InsuranceIn(s.engine, DomainIndex(asset, side), amount);
      Ok(s.(tokens := tokens, engine := engine))
  }

  /** set_insurance_params_buffer: both knobs may only be raised; the pending slot is kept. */
  function SetInsuranceParamsStep(s: State, floor: u128, delay: u64): Result<State, Error> {
    if s.insurance.None? then Ok(s.(insurance := Some(InsuranceConfig(floor, delay, 0, 0, 0, 0))))
    else
      var c := s.insurance.value;
      :- Need(floor >= c.floor && delay >= c.delay, ParamLoosened);
      Ok(s.(insurance := Some(c.(floor := floor, delay := delay))))
  }

  function RequestInsuranceStep(s: State, now: u64, asset: nat, side: nat, amount: u128): Result<State, Error> {
    if side > 1 then Err(InvalidInstruction) else
    var c :- Config(s.insurance);
    :- Need(amount != 0 && amount <= SaturatingSub(s.engine.insurance, c.floor), FloorBreach);
    Ok(s.(insurance := Some(InsuranceConfig(c.floor, c.delay, amount, SaturatingAdd64(now, c.delay), asset, side))))
  }

  function ExecuteInsuranceStep(s: State, now: u64, who: Owner): Result<State, Error> {
    var c :- Config(s.insurance);
    :- Need(c.pending != 0, NoPending);
    :- Need(now >= c.unlock, WithdrawLocked);
    :- Need(c.pending <= SaturatingSub(s.engine.insurance, c.floor), FloorBreach);
    :- Need(c.pending <= U64_MAX, ArithmeticOverflow);
    var engine :- InsuranceOut(s.engine, DomainIndex(c.asset, c.side), c.pending);
    var tokens :- Moved(s.tokens, Vault, Wallet(who), c.pending);
    Ok(s.(tokens := tokens, engine := engine, insurance := Some(c.(pending := 0, unlock := 0, asset := 0, side := 0))))
  }

  /** A plain token transfer into a program account, outside every instruction. */
  function DonateStep(s: State, who: Owner, to: Account, amount: u128): Result<State, Error> {
    var tokens :- Moved(s.tokens, Wallet(who), to, amount);
    Ok(s.(tokens := tokens))
  }

  ghost function Capitals(portfolios: map<Owner, Portfolio>): map<Owner, nat> {
    map o | o in portfolios :: portfolios[o].capital
  }

  /** C_tot covers the capital of the House and of every user. */
  ghost predicate CapitalCovered(e: Engine, house: Portfolio, portfolios: map<Owner, Portfolio>) {
    house.capital + SumMap(Capitals(portfolios)) <= e.cTot
  }

  /**
   * The vault counter only moves with deposits and withdrawals, except that the crank which
   * closes an account of a resolved market takes its payout out of V.
   */
  predicate VaultMayBecome(before: Engine, after: Engine) {
    && (after.live ==> before.live)
    && (if before.live then after.vault == before.vault else after.vault <= before.vault)
  }

  /**
   * Everything the engine does on its own (trades, liquidations, cranks, resolution): it may
   * rearrange capital, PnL and insurance and moves no tokens; a market that is no longer live
   * stays so. V >= C_tot + I holds after it, with all capital inside C_tot.
   */
  ghost function EngineMoveStep(s: State, e: Engine, house: Portfolio, portfolios: map<Owner, Portfolio>)
    : Result<State, Error>
  {
    if !VaultMayBecome(s.engine, e) || e.cTot + e.insurance > e.vault || !CapitalCovered(e, house, portfolios)
    then Err(EngineRejected)
    else
    Ok(s.(engine := e, house := house, portfolios := portfolios))
  }

  /** One instruction at slot now. */
  ghost function Step(s: State, now: u64, op: Op): Result<State, Error> {
    match op
    case CreateHouse => CreateHouseStep(s)
    case InitPortfolio(who) => InitPortfolioStep(s, who)
    case SetDepositCap(capital) => Ok(s.(capOverride := capital))
    case Deposit(who, amount, shown) => DepositStep(s, who, amount, shown)
    case Withdraw(who, amount) => WithdrawStep(s, who, amount)
    case FundHouse(who, amount) => FundHouseStep(s, Wallet(who), amount)
    case WithdrawHouse(who, amount) => WithdrawHouseStep(s, now, who, amount)
    case SetHouseLock(slot) => SetHouseLockStep(s, slot)
    case SetLpParams(kind, delay, fee, min, haircut) => Ok(SetLpParamsStep(s, kind, delay, fee, min, haircut))
    case DepositHlp(who, amount) => DepositHlpStep(s, who, amount)
    case DeployHlp(amount) => FundHouseStep(s, Buffer, amount)
    case HarvestHlp(amount) => HarvestHlpStep(s, amount)
    case ExecuteHlp(who) => ExecuteHlpStep(s, now, who)
    case DepositInsLp(who, amount) => DepositInsLpStep(s, who, amount)
    case ExecuteInsLp(who) => ExecuteInsLpStep(s, now, who)
    case RequestRedeem(kind, who, shares) => RequestRedeemStep(s, now, kind, who, shares)
    case FundInsurance(who, asset, side, amount) => FundInsuranceStep(s, who, asset, side, amount)
    case SetInsuranceParams(floor, delay) => SetInsuranceParamsStep(s, floor, delay)
    case RequestInsurance(asset, side, amount) => RequestInsuranceStep(s, now, asset, side, amount)
    case ExecuteInsurance(who) => ExecuteInsuranceStep(s, now, who)
    case Donate(who, to, amount) => DonateStep(s, who, to, amount)
    case EngineMove(e, house, portfolios) => EngineMoveStep(s, e, house, portfolios)
  }

  /** The state after an instruction; a failing one is reverted. */
  ghost function Next(s: State, now: u64, op: Op): State {
    var r := Step(s, now, op);
    if r.Ok? then r.value else s
  }

  /** The instructions that may write a share register. */
  predicate WritesBook(op: Op) {
    op.DepositHlp? || op.ExecuteHlp? || op.DepositInsLp? || op.ExecuteInsLp? || op.RequestRedeem? || op.SetLpParams?
  }

  /** The instructions on user portfolios, the House and plain token accounts, and the engine's moves. */
  predicate OnAccounts(op: Op) {
    op.CreateHouse? || op.InitPortfolio? || op.SetDepositCap? || op.Deposit? || op.Withdraw? || op.FundHouse?
    || op.WithdrawHouse? || op.SetHouseLock? || op.DeployHlp? || op.HarvestHlp? || op.Donate? || op.EngineMove?
  }

  /** They leave the LP vaults and the insurance governance alone. */
  lemma AccountsFrame(s: State, now: u64, op: Op)
    requires OnAccounts(op)
    ensures var s' := Next(s, now, op);
            && s'.hlp == s.hlp && s'.inslp == s.inslp && s'.insurance == s.insurance && s'.haircutBps == s.haircutBps
  {
    hide Moved, EngineDeposit, EngineWithdraw, CapitalCovered;
  }

  /** The instructions of the LP vaults leave the House, the portfolios and the governance alone. */
  lemma LpFrame(s: State, now: u64, op: Op)
    requires WritesBook(op)
    ensures var s' := Next(s, now, op);
            && s'.house == s.house && s'.houseLock == s.houseLock && s'.portfolios == s.portfolios
            && s'.insurance == s.insurance && (!op.SetLpParams? ==> s'.haircutBps == s.haircutBps)
            && (!op.DepositInsLp? && !op.ExecuteInsLp? ==> s'.engine == s.engine)
  {
    if op.RequestRedeem? || op.SetLpParams? {
      TermsFrame(s, now, op);
    } else {
      TradeFrame(s, now, op);
    }
    hide Step, Next;
  }

  lemma TermsFrame(s: State, now: u64, op: Op)
    requires op.RequestRedeem? || op.SetLpParams?
    ensures var s' := Next(s, now, op);
            && s'.tokens == s.tokens && s'.engine == s.engine && s'.house == s.house && s'.houseLock == s.houseLock
            && s'.portfolios == s.portfolios && s'.insurance == s.insurance
            && (op.RequestRedeem? ==> s'.haircutBps == s.haircutBps)
  {
    hide Request;
  }

  lemma TradeFrame(s: State, now: u64, op: Op)
    requires op.DepositHlp? || op.ExecuteHlp? || op.DepositInsLp? || op.ExecuteInsLp?
    ensures var s' := Next(s, now, op);
            && s'.house == s.house && s'.houseLock == s.houseLock && s'.portfolios == s.portfolios
            && s'.insurance == s.insurance && s'.haircutBps == s.haircutBps
            && (!op.DepositInsLp? && !op.ExecuteInsLp? ==> s'.engine == s.engine)
  {
    hide HlpNav, DepositShares, Payout, Moved, Mint, Burn, Redeemable, InsuranceIn, InsuranceOut;
  }

  /** The instructions of the insurance fund leave the House, the portfolios and the LP vaults alone. */
  lemma InsuranceFrame(s: State, now: u64, op: Op)
    requires !WritesBook(op) && !OnAccounts(op)
    ensures var s' := Next(s, now, op);
            && s'.house == s.house && s'.houseLock == s.houseLock && s'.portfolios == s.portfolios
            && s'.haircutBps == s.haircutBps && s'.hlp == s.hlp && s'.inslp == s.inslp
  {
    hide Moved, InsuranceIn, InsuranceOut;
  }

  /** Neither touches the House or a portfolio. */
  lemma FundsFrame(s: State, now: u64, op: Op)
    requires !OnAccounts(op)
    ensures var s' := Next(s, now, op);
            && s'.house == s.house && s'.houseLock == s.houseLock && s'.portfolios == s.portfolios
            && (!op.SetLpParams? ==> s'.haircutBps == s.haircutBps)
  {
    if WritesBook(op) {
      LpFrame(s, now, op);
    } else {
      InsuranceFrame(s, now, op);
    }
    hide Step, Next;
  }

  lemma BooksUntouched(s: State, now: u64, op: Op)
    requires !WritesBook(op)
    ensures Next(s, now, op).hlp == s.hlp && Next(s, now, op).inslp == s.inslp
  {
    if OnAccounts(op) {
      AccountsFrame(s, now, op);
    } else {
      InsuranceFrame(s, now, op);
    }
    hide Step, Next;
  }

  /** A run is any list of instructions with the slots they land in. */
  type Run = seq<(u64, Op)>

  ghost function After(s: State, run: Run): State {
    if |run| == 0 then s
    else Next(After(s, run[..|run| - 1]), run[|run| - 1].0, run[|run| - 1].1)
  }

  /** The state just before instruction i of a run, and whether that instruction succeeds. */
  ghost function Before(s: State, run: Run, i: nat): State
    requires i <= |run|
  {
    After(s, run[..i])
  }

  lemma NextState(s: State, run: Run, i: nat)
    requires i < |run|
    ensures Before(s, run, i + 1) == Next(Before(s, run, i), run[i].0, run[i].1)
  {
    assert run[..i + 1][..i] == run[..i];
  }

  ghost predicate Succeeds(s: State, run: Run, i: nat)
    requires i < |run|
  {
    Step(Before(s, run, i), run[i].0, run[i].1).Ok?
  }
}
