/**
 * The market's accounts as the handlers of crates/program/src/processor.rs see them: fields
 * overwritten in place. Each handler is proved to do what its step function says, and
 * nothing at all when it fails; ProcessInstruction also keeps the custody invariant.
 */
module Market {
  import opened Wrappers
  import opened Words
  import opened Sums
  import opened LpBook
  import opened MarketSteps
  import opened Custody
  import opened Effects

  class MarketAccounts {
    var tokens: map<Account, nat>
    var engine: Engine
    var capacity: nat
    var houseReady: bool
    var house: Portfolio
    var houseLock: u64
    var portfolios: map<Owner, Portfolio>
    var hlp: Option<Book>
    var haircutBps: u64
    var inslp: Option<Book>
    var insurance: Option<InsuranceConfig>
    var dexPriced: bool
    var capOverride: u128

    ghost function View(): State
      reads this
    {
      State(tokens, engine, capacity, houseReady, house, houseLock, portfolios, hlp, haircutBps, inslp, insurance,
        dexPriced, capOverride)
    }

    ghost predicate Valid()
      reads this
    {
      Inv(View())
    }

    constructor (s: State)
      ensures View() == s
    {
      tokens := s.tokens;
      engine := s.engine;
      capacity := s.capacity;
      houseReady := s.houseReady;
      house := s.house;
      houseLock := s.houseLock;
      portfolios := s.portfolios;
      hlp := s.hlp;
      haircutBps := s.haircutBps;
      inslp := s.inslp;
      insurance := s.insurance;
      dexPriced := s.dexPriced;
      capOverride := s.capOverride;
    }

    /** process_create_house_vault. */
    method CreateHouse() returns (r: Result<(), Error>)
      modifies this
      ensures Reports(r, CreateHouseStep(old(View())), old(View()), View())
      ensures r.Ok? <==> !old(houseReady)
      ensures r.Ok? ==> View() == old(View()).(houseReady := true, house := Portfolio(0, 0, 0, true, true))
    {
      if houseReady {
        return Err(AlreadyInitialized);
      }
      houseReady := true;
      house := EMPTY_PORTFOLIO;
      return Ok(());
    }

    /** init_portfolio_buffer. */
    method InitPortfolio(who: Owner) returns (r: Result<(), Error>)
      modifies this
      ensures Reports(r, InitPortfolioStep(old(View()), who), old(View()), View())
      ensures r.Ok? <==> who !in old(portfolios)
      ensures r.Ok? ==> View() == old(View()).(portfolios := old(portfolios)[who := Portfolio(0, 0, 0, true, true)])
    {
      if who in portfolios {
        return Err(AlreadyInitialized);
      }
      portfolios := portfolios[who := EMPTY_PORTFOLIO];
      return Ok(());
    }

    /** set_deposit_cap_buffer. */
    method SetDepositCap(capital: u128)
      modifies this
      ensures View() == old(View()).(capOverride := capital)
    {
      capOverride := capital;
    }

    /** process_deposit: on a DEX-priced market the account must stay under its cap. */
    method Deposit(who: Owner, amount: u128, capShown: bool) returns (r: Result<(), Error>)
      modifies this
      ensures Reports(r, DepositStep(old(View()), who, amount, capShown), old(View()), View())
      ensures r.Ok? ==> Deposited(old(View()), View(), who, amount, capShown)
      ensures r.Err? ==> View() == old(View())
    {
      DepositEffects(View(), who, amount, capShown);
      var moved :- Moved(tokens, Wallet(who), Vault, amount);
      :- Need(who in portfolios, InvalidOwner);
      var ep :- EngineDeposit(engine, portfolios[who], amount);
      var cap := if !dexPriced then None
                 else if capShown && capOverride > MAX_CUSTOM_PORTFOLIO_CAPITAL then Some(capOverride)
                 else Some(MAX_CUSTOM_PORTFOLIO_CAPITAL);
      :- Need(cap.None? || ep.1.capital <= cap.value, DepositCapExceeded);
      tokens := moved;
      engine := ep.0;
      portfolios := portfolios[who := ep.1];
      return Ok(());
    }

    /** process_withdraw: the engine debit comes first, the tokens follow. */
    method Withdraw(who: Owner, amount: u128) returns (r: Result<(), Error>)
      modifies this
      ensures Reports(r, WithdrawStep(old(View()), who, amount), old(View()), View())
      ensures r.Ok? ==> Withdrawn(old(View()), View(), who, amount)
      ensures r.Err? ==> View() == old(View())
    {
      WithdrawEffects(View(), who, amount);
      if amount > U64_MAX {
        return Err(ArithmeticOverflow);
      }
      :- Need(who in portfolios, InvalidOwner);
      var ep :- EngineWithdraw(engine, portfolios[who], amount);
      var moved :- Moved(tokens, Vault, Wallet(who), amount);
      engine := ep.0;
      portfolios := portfolios[who := ep.1];
      tokens := moved;
      return Ok(());
    }

    /** process_fund_house_vault, and process_deploy_hlp when the buffer pays. */
    method FundHouse(from: Account, amount: u128) returns (r: Result<(), Error>)
      requires from != Vault
      modifies this
      ensures Reports(r, FundHouseStep(old(View()), from, amount), old(View()), View())
      ensures r.Ok? ==> HouseFunded(old(View()), View(), from, amount)
      ensures r.Err? ==> View() == old(View())
    {
      FundHouseEffects(View(), from, amount);
      if !houseReady {
        return Err(Uninitialized);
      }
      var moved :- Moved(tokens, from, Vault, amount);
      var ep :- EngineDeposit(engine, house, amount);
      tokens := moved;
      engine := ep.0;
      house := ep.1;
      return Ok(());
    }

    /** The engine debit and token movement process_withdraw_house_vault and process_harvest_hlp share. */
    method DrainHouse(to: Account, amount: u128) returns (r: Result<(), Error>)
      requires to != Vault
      modifies this
      ensures Reports(r, DrainHouseStep(old(View()), to, amount), old(View()), View())
      ensures r.Ok? ==> HouseDrained(old(View()), View(), to, amount)
      ensures r.Err? ==> View() == old(View())
    {
      DrainHouseEffects(View(), to, amount);
      if amount > U64_MAX {
        return Err(ArithmeticOverflow);
      }
      var ep :- EngineWithdraw(engine, house, amount);
      var moved :- Moved(tokens, Vault, to, amount);
      engine := ep.0;
      house := ep.1;
      tokens := moved;
      return Ok(());
    }

    /** process_withdraw_house_vault: refused while LP shares exist or the lock runs. */
    method WithdrawHouse(now: u64, who: Owner, amount: u128) returns (r: Result<(), Error>)
      modifies this
      ensures Reports(r, WithdrawHouseStep(old(View()), now, who, amount), old(View()), View())
      ensures r.Ok? ==> HouseDrained(old(View()), View(), Wallet(who), amount)
      ensures r.Ok? ==> now >= houseLock && (hlp.Some? ==> hlp.value.total == 0)
      ensures r.Err? ==> View() == old(View())
    {
      if !houseReady {
        return Err(Uninitialized);
      }
      :- Need(hlp.None? || hlp.value.total == 0, LpClaimsOutstanding);
      :- Need(now >= houseLock, HouseLocked);
      r := DrainHouse(Wallet(who), amount);
    }

    /** process_harvest_hlp. */
    method HarvestHlp(amount: u128) returns (r: Result<(), Error>)
      modifies this
      ensures Reports(r, HarvestHlpStep(old(View()), amount), old(View()), View())
      ensures r.Ok? ==> HouseDrained(old(View()), View(), Buffer, amount)
      ensures r.Err? ==> View() == old(View())
    {
      if !houseReady {
        return Err(Uninitialized);
      }
      r := DrainHouse(Buffer, amount);
    }

    method SetHouseLock(slot: u64) returns (r: Result<(), Error>)
      modifies this
      ensures Reports(r, SetHouseLockStep(old(View()), slot), old(View()), View())
      ensures r.Ok? <==> slot >= old(houseLock)
      ensures View() == old(View()).(houseLock := if slot >= old(houseLock) then slot else old(houseLock))
    {
      if slot < houseLock {
        return Err(ParamLoosened);
      }
      houseLock := slot;
      return Ok(());
    }

    /** set_hlp_params_buffer and set_inslp_params_buffer: total_shares is never touched. */
    method SetLpParams(kind: LpKind, delay: u64, feeBps: u64, minDeposit: u128, haircut: u64)
      modifies this
      ensures View() == SetLpParamsStep(old(View()), kind, delay, feeBps, minDeposit, haircut)
      ensures var book := BookFor(View(), kind);
              && book.Some? && book.value.delay == delay && book.value.feeBps == feeBps
              && book.value.minDeposit == minDeposit
      ensures old(BookFor(View(), kind)).None? ==>
                BookFor(View(), kind).value.total == 0 && BookFor(View(), kind).value.positions == map[]
      ensures kind.Hlp? ==> View() == old(View()).(hlp := hlp, haircutBps := haircut)
      ensures kind.InsLp? ==> View() == old(View()).(inslp := inslp)
      ensures forall k: LpKind :: old(BookFor(View(), k)).Some? ==>
                && BookFor(View(), k).Some?
                && BookFor(View(), k).value.total == old(BookFor(View(), k)).value.total
                && BookFor(View(), k).value.positions == old(BookFor(View(), k)).value.positions
    {
      var book := if kind.Hlp? then hlp else inslp;
      var b := if book.None? then Book(0, delay, feeBps, minDeposit, map[])
               else book.value.(delay := delay, feeBps := feeBps, minDeposit := minDeposit);
      if kind.Hlp? {
        hlp := Some(b);
        haircutBps := haircut;
      } else {
        inslp := Some(b);
      }
    }

    /** Buffer balance plus marked House equity, as both HLP handlers read it. */
    method ReadHlpNav() returns (r: Result<u128, Error>)
      ensures r == HlpNav(View())
      ensures r.Ok? ==> DiscountedEquity(house, haircutBps, r.value - Balance(tokens, Buffer))
      ensures Balance(tokens, Buffer) <= U64_MAX ==> (r.Ok? <==> EquityInRange(house))
    {
      hide Discount;
      var equity :- MarkedEquity(house, haircutBps);
      var buffer := Balance(tokens, Buffer);
      :- Need(buffer + equity <= U128_MAX, ArithmeticOverflow);
      return Ok(buffer + equity);
    }

    /** process_deposit_hlp. */
    method DepositHlp(who: Owner, amount: u128) returns (r: Result<(), Error>)
      modifies this
      ensures Reports(r, DepositHlpStep(old(View()), who, amount), old(View()), View())
      ensures r.Ok? ==> HlpDeposited(old(View()), View(), who, amount)
      ensures r.Err? ==> View() == old(View())
    {
      DepositHlpEffects(View(), who, amount);
      if !houseReady {
        return Err(Uninitialized);
      }
      var book :- Config(hlp);
      :- Need(amount >= book.minDeposit, BelowMinDeposit);
      var nav :- ReadHlpNav();
      var shares :- DepositShares(book, amount, nav);
      var moved :- Moved(tokens, Wallet(who), Buffer, amount);
      var minted :- Mint(book, who, shares);
      tokens := moved;
      hlp := Some(minted);
      return Ok(());
    }

    /** process_execute_redeem_hlp: burn and clear the slot, then pay from the buffer. */
    method ExecuteHlp(now: u64, who: Owner) returns (r: Result<(), Error>)
      modifies this
      ensures Reports(r, ExecuteHlpStep(old(View()), now, who), old(View()), View())
      ensures r.Ok? ==> HlpRedeemed(old(View()), View(), now, who)
      ensures r.Err? ==> View() == old(View())
    {
      ExecuteHlpEffects(View(), now, who);
      if !houseReady {
        return Err(Uninitialized);
      }
      var book :- Config(hlp);
      var shares :- Redeemable(book, now, who);
      var nav :- ReadHlpNav();
      var out :- Payout(book, shares, nav);
      :- Need(out <= Balance(tokens, Buffer), BufferInsufficient);
      var moved :- Moved(tokens, Buffer, Wallet(who), out);
      hlp := Some(Burn(book, who));
      tokens := moved;
      return Ok(());
    }

    /** process_deposit_inslp. */
    method DepositInsLp(who: Owner, amount: u128) returns (r: Result<(), Error>)
      modifies this
      ensures Reports(r, DepositInsLpStep(old(View()), who, amount), old(View()), View())
      ensures r.Ok? ==> InsLpDeposited(old(View()), View(), who, amount)
      ensures r.Err? ==> View() == old(View())
    {
      DepositInsLpEffects(View(), who, amount);
      var book :- Config(inslp);
      :- Need(amount >= book.minDeposit, BelowMinDeposit);
      var shares :- DepositShares(book, amount, engine.insurance);
      var moved :- Moved(tokens, Wallet(who), Vault, amount);
      var raised :- InsuranceIn(engine, CANONICAL_DOMAIN, amount);
      var minted :- Mint(book, who, shares);
      tokens := moved;
      engine := raised;
      inslp := Some(minted);
      return Ok(());
    }

    /** process_execute_redeem_inslp: bounded by the insurance floor and the domain budget. */
    method ExecuteInsLp(now: u64, who: Owner) returns (r: Result<(), Error>)
      modifies this
      ensures Reports(r, ExecuteInsLpStep(old(View()), now, who), old(View()), View())
      ensures r.Ok? ==> InsLpRedeemed(old(View()), View(), now, who)
      ensures r.Err? ==> View() == old(View())
    {
      ExecuteInsLpEffects(View(), now, who);
      var book :- Config(inslp);
      var shares :- Redeemable(book, now, who);
      var out :- Payout(book, shares, engine.insurance);
      var floor := if insurance.None? then 0 else insurance.value.floor;
      :- Need(out <= SaturatingSub(engine.insurance, floor), FloorBreach);
      :- Need(out <= U64_MAX, ArithmeticOverflow);
      var lowered := engine;
      if out > 0 {
        lowered :- InsuranceOut(engine, CANONICAL_DOMAIN, out);
      }
      var moved :- Moved(tokens, Vault, Wallet(who), out);
      inslp := Some(Burn(book, who));
      engine := lowered;
      tokens := moved;
      return Ok(());
    }

    /** process_request_redeem_hlp and process_request_redeem_inslp. */
    method RequestRedeem(now: u64, kind: LpKind, who: Owner, shares: u128) returns (r: Result<(), Error>)
      modifies this
      ensures Reports(r, RequestRedeemStep(old(View()), now, kind, who, shares), old(View()), View())
      ensures r.Ok? ==> RedeemRequested(old(View()), View(), now, kind, who, shares)
      ensures r.Err? ==> View() == old(View())
    {
      RequestRedeemEffects(View(), now, kind, who, shares);
      var book :- Config(if kind.Hlp? then hlp else inslp);
      var requested :- Request(book, now, who, shares);
      if kind.Hlp? {
        hlp := Some(requested);
      } else {
        inslp := Some(requested);
      }
      return Ok(());
    }

    /** process_fund_insurance. */
    method FundInsurance(who: Owner, asset: nat, side: nat, amount: u128) returns (r: Result<(), Error>)
      modifies this
      ensures Reports(r, FundInsuranceStep(old(View()), who, asset, side, amount), old(View()), View())
      ensures r.Ok? ==> InsuranceFunded(old(View()), View(), who, 2 * asset + side, amount)
      ensures r.Err? ==> View() == old(View())
    {
      FundInsuranceEffects(View(), who, asset, side, amount);
      if side > 1 || asset >= capacity {
        return Err(InvalidInstruction);
      }
      :- Need(amount <= U64_MAX, ArithmeticOverflow);
      if amount == 0 {
        return Ok(());
      }
      var moved :- Moved(tokens, Wallet(who), Vault, amount);
      var raised :- InsuranceIn(engine, DomainIndex(asset, side), amount);
      tokens := moved;
      engine := raised;
      return Ok(());
    }

    /** set_insurance_params_buffer: a ratchet on both knobs. */
    method SetInsuranceParams(floor: u128, delay: u64) returns (r: Result<(), Error>)
      modifies this
      ensures Reports(r, SetInsuranceParamsStep(old(View()), floor, delay), old(View()), View())
      ensures r.Ok? ==> insurance.Some? && insurance.value.floor == floor && insurance.value.delay == delay
      ensures old(insurance).Some? && r.Ok? ==>
                && floor >= old(insurance).value.floor && delay >= old(insurance).value.delay
                && insurance.value == old(insurance).value.(floor := floor, delay := delay)
      ensures r.Ok? <==>
                old(insurance).None? || (floor >= old(insurance).value.floor && delay >= old(insurance).value.delay)
      ensures old(insurance).None? ==> insurance == Some(InsuranceConfig(floor, delay, 0, 0, 0, 0))
      ensures View() == old(View()).(insurance := insurance)
    {
      if insurance.None? {
        insurance := Some(InsuranceConfig(floor, delay, 0, 0, 0, 0));
        return Ok(());
      }
      var c := insurance.value;
      :- Need(floor >= c.floor && delay >= c.delay, ParamLoosened);
      insurance := Some(c.(floor := floor, delay := delay));
      return Ok(());
    }

    /** process_request_insurance_withdraw. */
    method RequestInsurance(now: u64, asset: nat, side: nat, amount: u128) returns (r: Result<(), Error>)
      modifies this
      ensures Reports(r, RequestInsuranceStep(old(View()), now, asset, side, amount), old(View()), View())
      ensures r.Ok? ==> InsuranceRequested(old(View()), View(), now, asset, side, amount)
      ensures r.Err? ==> View() == old(View())
    {
      RequestInsuranceEffects(View(), now, asset, side, amount);
      if side > 1 {
        return Err(InvalidInstruction);
      }
      var c :- Config(insurance);
      :- Need(amount != 0 && amount <= SaturatingSub(engine.insurance, c.floor), FloorBreach);
      insurance := Some(c.(pending := amount, unlock := SaturatingAdd64(now, c.delay), asset := asset, side := side));
      return Ok(());
    }

    /** process_execute_insurance_withdraw: engine, tokens, then the slot is cleared. */
    method ExecuteInsurance(now: u64, who: Owner) returns (r: Result<(), Error>)
      modifies this
      ensures Reports(r, ExecuteInsuranceStep(old(View()), now, who), old(View()), View())
      ensures r.Ok? ==> InsuranceExecuted(old(View()), View(), now, who)
      ensures r.Err? ==> View() == old(View())
    {
      ExecuteInsuranceEffects(View(), now, who);
      var c :- Config(insurance);
      :- Need(c.pending != 0, NoPending);
      :- Need(now >= c.unlock, WithdrawLocked);
      :- Need(c.pending <= SaturatingSub(engine.insurance, c.floor), FloorBreach);
      :- Need(c.pending <= U64_MAX, ArithmeticOverflow);
      var lowered :- InsuranceOut(engine, DomainIndex(c.asset, c.side), c.pending);
      var moved :- Moved(tokens, Vault, Wallet(who), c.pending);
      engine := lowered;
      tokens := moved;
      insurance := Some(c.(pending := 0, unlock := 0, asset := 0, side := 0));
      return Ok(());
    }

    /** A plain token transfer by a user, outside every instruction. */
    method Donate(who: Owner, to: Account, amount: u128) returns (r: Result<(), Error>)
      modifies this
      ensures Reports(r, DonateStep(old(View()), who, to, amount), old(View()), View())
      ensures r.Ok? && to != Wallet(who) ==> TokensMoved(old(View()), View(), Wallet(who), to, amount)
      ensures View() == old(View()).(tokens := tokens)
    {
      if to != Wallet(who) && Moved(tokens, Wallet(who), to, amount).Ok? {
        TransferMoves(tokens, Wallet(who), to, amount);
      }
      var moved :- Moved(tokens, Wallet(who), to, amount);
      tokens := moved;
      return Ok(());
    }

    /** Whatever the engine does on its own, within its contract. */
    method EngineMove(e: Engine, h: Portfolio, ps: map<Owner, Portfolio>)
      requires EngineMoveStep(View(), e, h, ps).Ok?
      modifies this
      ensures View() == EngineMoveStep(old(View()), e, h, ps).value
    {
      engine := e;
      house := h;
      portfolios := ps;
    }

    /** One instruction, or one move of the environment, at slot now. */
    method ProcessInstruction(now: u64, op: Op) returns (r: Result<(), Error>)
      requires Valid() && (op.EngineMove? ==> Step(View(), now, op).Ok?)
      modifies this
      ensures View() == Next(old(View()), now, op)
      ensures r.Ok? <==> Step(old(View()), now, op).Ok?
      ensures Valid()
      ensures SumMap(tokens) == old(SumMap(tokens))
    {
      StepKeepsInv(View(), now, op);
      StepConserves(View(), now, op);
      r := Dispatch(now, op);
      assert View().tokens == tokens;
      hide Step, Inv;
    }

    method Dispatch(now: u64, op: Op) returns (r: Result<(), Error>)
      requires op.EngineMove? ==> Step(View(), now, op).Ok?
      modifies this
      ensures View() == Next(old(View()), now, op)
      ensures r.Ok? <==> Step(old(View()), now, op).Ok?
    {
      if op.EngineMove? {
        EngineMove(op.engine, op.house, op.portfolios);
        r := Ok(());
      } else if OnAccounts(op) {
        r := DispatchAccounts(op, now);
      } else {
        r := DispatchFunds(op, now);
      }
    }

    method DispatchAccounts(op: Op, now: u64) returns (r: Result<(), Error>)
      requires OnAccounts(op) && !op.EngineMove?
      modifies this
      ensures View() == Next(old(View()), now, op)
      ensures r.Ok? <==> Step(old(View()), now, op).Ok?
    {
      hide CreateHouseStep, InitPortfolioStep, DepositStep, WithdrawStep, FundHouseStep, WithdrawHouseStep,
        HarvestHlpStep, SetHouseLockStep, DonateStep,
        Deposited, Withdrawn, HouseFunded, HouseDrained;
      match op
      case CreateHouse => r := CreateHouse();
      case InitPortfolio(who) => r := InitPortfolio(who);
      case SetDepositCap(capital) =>
        SetDepositCap(capital);
        r := Ok(());
      case Deposit(who, amount, shown) => r := Deposit(who, amount, shown);
      case Withdraw(who, amount) => r := Withdraw(who, amount);
      case FundHouse(who, amount) => r := FundHouse(Wallet(who), amount);
      case WithdrawHouse(who, amount) => r := WithdrawHouse(now, who, amount);
      case SetHouseLock(slot) => r := SetHouseLock(slot);
      case DeployHlp(amount) => r := FundHouse(Buffer, amount);
      case HarvestHlp(amount) => r := HarvestHlp(amount);
      case Donate(who, to, amount) => r := Donate(who, to, amount);
    }

    /** The instructions on the LP vaults and the insurance fund. */
    method DispatchFunds(op: Op, now: u64) returns (r: Result<(), Error>)
      requires !OnAccounts(op)
      modifies this
      ensures View() == Next(old(View()), now, op)
      ensures r.Ok? <==> Step(old(View()), now, op).Ok?
    {
      hide SetLpParamsStep, DepositHlpStep, ExecuteHlpStep, DepositInsLpStep, ExecuteInsLpStep, RequestRedeemStep,
        FundInsuranceStep, SetInsuranceParamsStep, RequestInsuranceStep, ExecuteInsuranceStep, HlpDeposited,
        HlpRedeemed, InsLpDeposited, InsLpRedeemed, RedeemRequested, InsuranceFunded, InsuranceRequested,
        InsuranceExecuted, BookFor;
      match op
      case SetLpParams(kind, delay, fee, min, haircut) =>
        SetLpParams(kind, delay, fee, min, haircut);
        r := Ok(());
      case DepositHlp(who, amount) => r := DepositHlp(who, amount);
      case ExecuteHlp(who) => r := ExecuteHlp(now, who);
      case DepositInsLp(who, amount) => r := DepositInsLp(who, amount);
      case ExecuteInsLp(who) => r := ExecuteInsLp(now, who);
      case RequestRedeem(kind, who, shares) => r := RequestRedeem(now, kind, who, shares);
      case FundInsurance(who, asset, side, amount) => r := FundInsurance(who, asset, side, amount);
      case SetInsuranceParams(floor, delay) => r := SetInsuranceParams(floor, delay);
      case RequestInsurance(asset, side, amount) => r := RequestInsurance(now, asset, side, amount);
      case ExecuteInsurance(who) => r := ExecuteInsurance(now, who);
    }
  }

  /** The handler succeeded with the expected state, or failed and left everything alone. */
  ghost predicate Reports(r: Result<(), Error>, expected: Result<State, Error>, before: State, after: State) {
    if expected.Ok? then r.Ok? && after == expected.value
    else r == Err(expected.error) && after == before
  }
}
