/**
 * The custody ledger: where every token is after any instruction and over any run, and the
 * invariant every reachable market satisfies.
 */
module Custody {
  import opened Wrappers
  import opened Words
  import opened Sums
  import opened LpBook
  import opened MarketSteps

  ghost predicate BooksOk(s: State) {
    (s.hlp.Some? ==> BookOk(s.hlp.value)) && (s.inslp.Some? ==> BookOk(s.inslp.value))
  }

  /**
   * Tokens exist at most u64::MAX times, the engine's vault counter is backed by tokens,
   * V >= C_tot + I, C_tot covers all capital, and both share registers are consistent.
   */
  ghost predicate Inv(s: State) {
    && SumMap(s.tokens) <= U64_MAX
    && s.engine.vault <= Balance(s.tokens, Vault)
    && s.engine.cTot + s.engine.insurance <= s.engine.vault
    && CapitalCovered(s.engine, s.house, s.portfolios)
    && BooksOk(s)
  }

  lemma BalanceWithin(tokens: map<Account, nat>, a: Account)
    ensures Balance(tokens, a) <= SumMap(tokens)
  {
    SumUpdates(tokens, a, 0);
  }

  /** A transfer moves exactly the amount and creates or destroys nothing. */
  lemma TransferMoves(tokens: map<Account, nat>, from: Account, to: Account, amount: u128)
    requires from != to && Moved(tokens, from, to, amount).Ok?
    ensures var t := Moved(tokens, from, to, amount).value;
            && SumMap(t) == SumMap(tokens)
            && Balance(t, from) == Balance(tokens, from) - amount
            && Balance(t, to) == Balance(tokens, to) + amount
            && forall a :: a != from && a != to ==> Balance(t, a) == Balance(tokens, a)
  {
    if amount > 0 {
      var debited := tokens[from := Balance(tokens, from) - amount];
      SumUpdates(tokens, from, Balance(tokens, from) - amount);
      SumUpdates(debited, to, Balance(debited, to) + amount);
    }
  }

  /** Tokens the program holds. */
  function Pool(s: State): int {
    Balance(s.tokens, Vault) + Balance(s.tokens, Buffer)
  }

  /** Vault tokens the engine does not account for. */
  function Unaccounted(s: State): int {
    Balance(s.tokens, Vault) - s.engine.vault
  }

  /** Tokens a successful instruction brings in from users' wallets, or pays out if negative. */
  ghost function ExternalFlow(s: State, now: u64, op: Op): int {
    if Step(s, now, op).Err? then 0
    else
      match op
      case Deposit(_, amount, _) => amount
      case Withdraw(_, amount) => 0 - amount
      case FundHouse(_, amount) => amount
      case WithdrawHouse(_, amount) => 0 - amount
      case DepositHlp(_, amount) => amount
      case ExecuteHlp(who) => 0 - HlpPayout(s, who)
      case DepositInsLp(_, amount) => amount
      case ExecuteInsLp(who) => 0 - InsLpPayout(s, who)
      case FundInsurance(_, _, _, amount) => amount
      case ExecuteInsurance(_) => if s.insurance.Some? then 0 - s.insurance.value.pending else 0
      case Donate(_, to, amount) => if to.Wallet? then 0 else amount
      case _ => 0
  }

  function HlpPayout(s: State, who: Owner): int {
    if s.hlp.None? || HlpNav(s).Err? then 0
    else
      var p := Payout(s.hlp.value, PositionOf(s.hlp.value, who).pending, HlpNav(s).value);
      if p.Ok? then p.value else 0
  }

  function InsLpPayout(s: State, who: Owner): int {
    if s.inslp.None? then 0
    else
      var p := Payout(s.inslp.value, PositionOf(s.inslp.value, who).pending, s.engine.insurance);
      if p.Ok? then p.value else 0
  }

  /** What the engine takes out of V on its own, in closing accounts of a resolved market. */
  ghost function Stranded(s: State, now: u64, op: Op): int {
    if op.EngineMove? && Step(s, now, op).Ok? then s.engine.vault - op.engine.vault else 0
  }

  /** Tokens donated to the vault. */
  ghost function Donated(s: State, now: u64, op: Op): int {
    if op.Donate? && op.to == Vault then ExternalFlow(s, now, op) else 0
  }

  /** What a step must satisfy; the statement each instruction is checked against. */
  ghost predicate Conserves(s: State, now: u64, op: Op, s': State) {
    && SumMap(s'.tokens) == SumMap(s.tokens)
    && Pool(s') == Pool(s) + ExternalFlow(s, now, op)
    && Unaccounted(s') == Unaccounted(s) + Donated(s, now, op) + Stranded(s, now, op)
    && (s.engine.cTot + s.engine.insurance <= s.engine.vault ==>
          s'.engine.cTot + s'.engine.insurance <= s'.engine.vault)
  }

  lemma UserStepsConserve(s: State, now: u64, op: Op)
    requires Step(s, now, op).Ok? && (op.Deposit? || op.Withdraw?)
    ensures Conserves(s, now, op, Step(s, now, op).value)
  {
    hide SumMap;
    if op.Deposit? {
      TransferMoves(s.tokens, Wallet(op.who), Vault, op.amount);
    } else {
      TransferMoves(s.tokens, Vault, Wallet(op.who), op.amount);
    }
  }

  lemma FundStepsConserve(s: State, now: u64, op: Op)
    requires Step(s, now, op).Ok? && (op.FundHouse? || op.DeployHlp?)
    ensures Conserves(s, now, op, Step(s, now, op).value)
  {
    hide SumMap;
    if op.FundHouse? {
      TransferMoves(s.tokens, Wallet(op.who), Vault, op.amount);
    } else {
      TransferMoves(s.tokens, Buffer, Vault, op.amount);
    }
  }

  lemma DrainStepsConserve(s: State, now: u64, op: Op)
    requires Step(s, now, op).Ok? && (op.WithdrawHouse? || op.HarvestHlp?)
    ensures Conserves(s, now, op, Step(s, now, op).value)
  {
    hide SumMap;
    if op.WithdrawHouse? {
      TransferMoves(s.tokens, Vault, Wallet(op.who), op.amount);
    } else {
      TransferMoves(s.tokens, Vault, Buffer, op.amount);
    }
  }

  lemma HlpStepsConserve(s: State, now: u64, op: Op)
    requires Step(s, now, op).Ok? && (op.DepositHlp? || op.ExecuteHlp?)
    ensures Conserves(s, now, op, Step(s, now, op).value)
  {
    hide SumMap, Mint, Burn, DepositShares, Payout, HlpNav, CapitalCovered;
    if op.DepositHlp? {
      TransferMoves(s.tokens, Wallet(op.who), Buffer, op.amount);
    } else {
      TransferMoves(s.tokens, Buffer, Wallet(op.who), HlpPayout(s, op.who));
    }
  }

  lemma DepositInsLpConserves(s: State, now: u64, who: Owner, amount: u128)
    requires Step(s, now, DepositInsLp(who, amount)).Ok?
    ensures Conserves(s, now, DepositInsLp(who, amount), Step(s, now, DepositInsLp(who, amount)).value)
  {
    hide DepositShares, Mint, SumMap;
    TransferMoves(s.tokens, Wallet(who), Vault, amount);
  }

  lemma ExecuteInsLpConserves(s: State, now: u64, who: Owner)
    requires Step(s, now, ExecuteInsLp(who)).Ok?
    ensures Conserves(s, now, ExecuteInsLp(who), Step(s, now, ExecuteInsLp(who)).value)
  {
    hide Payout, SumMap;
    TransferMoves(s.tokens, Vault, Wallet(who), InsLpPayout(s, who));
  }

  lemma InsuranceStepsConserve(s: State, now: u64, op: Op)
    requires Step(s, now, op).Ok? && (op.FundInsurance? || op.ExecuteInsurance?)
    ensures Conserves(s, now, op, Step(s, now, op).value)
  {
    hide SumMap;
    if op.FundInsurance? {
      if op.amount > 0 {
        TransferMoves(s.tokens, Wallet(op.who), Vault, op.amount);
      }
    } else {
      TransferMoves(s.tokens, Vault, Wallet(op.who), s.insurance.value.pending);
    }
  }

  lemma DonateConserves(s: State, now: u64, op: Op)
    requires op.Donate? && Step(s, now, op).Ok?
    ensures Conserves(s, now, op, Step(s, now, op).value)
  {
    if op.to == Wallet(op.who) {
      var t := Step(s, now, op).value.tokens;
      if op.amount > 0 {
        assert t == s.tokens[op.to := Balance(s.tokens, op.to)];
        SumUpdates(s.tokens, op.to, Balance(s.tokens, op.to));
      }
    } else {
      TransferMoves(s.tokens, Wallet(op.who), op.to, op.amount);
    }
  }

  /**
   * Every instruction conserves tokens, changes what the program holds exactly by its
   * external flow and keeps V >= C_tot + I. Vault tokens minus V change by exactly what is
   * donated to the vault and what the engine takes out of V in closing resolved accounts.
   */
  lemma StepConserves(s: State, now: u64, op: Op)
    ensures Conserves(s, now, op, Next(s, now, op))
  {
    hide *;
    NextMeans(s, now, op);
    if Step(s, now, op).Ok? {
      match op
      case Deposit(_, _, _) => UserStepsConserve(s, now, op);
      case Withdraw(_, _) => UserStepsConserve(s, now, op);
      case FundHouse(_, _) => FundStepsConserve(s, now, op);
      case WithdrawHouse(_, _) => DrainStepsConserve(s, now, op);
      case DeployHlp(_) => FundStepsConserve(s, now, op);
      case HarvestHlp(_) => DrainStepsConserve(s, now, op);
      case DepositHlp(_, _) => HlpStepsConserve(s, now, op);
      case ExecuteHlp(_) => HlpStepsConserve(s, now, op);
      case DepositInsLp(who, amount) => DepositInsLpConserves(s, now, who, amount);
      case ExecuteInsLp(who) => ExecuteInsLpConserves(s, now, who);
      case FundInsurance(_, _, _, _) => InsuranceStepsConserve(s, now, op);
      case ExecuteInsurance(_) => InsuranceStepsConserve(s, now, op);
      case Donate(_, _, _) => DonateConserves(s, now, op);
      case _ => TokenlessStepsConserve(s, now, op);
    } else {
      NothingConserves(s, now, op);
    }
  }

  lemma NextMeans(s: State, now: u64, op: Op)
    ensures Next(s, now, op) == if Step(s, now, op).Ok? then Step(s, now, op).value else s
  {
    hide Step;
  }

  lemma NothingConserves(s: State, now: u64, op: Op)
    requires Step(s, now, op).Err?
    ensures Conserves(s, now, op, s)
  {
    hide Step;
  }

  /** The instructions that move no token. */
  lemma TokenlessStepsConserve(s: State, now: u64, op: Op)
    requires Step(s, now, op).Ok?
    requires op.CreateHouse? || op.InitPortfolio? || op.SetDepositCap? || op.SetHouseLock? || op.SetLpParams?
      || op.RequestRedeem? || op.SetInsuranceParams? || op.RequestInsurance? || op.EngineMove?
    ensures Conserves(s, now, op, Step(s, now, op).value)
  {
    hide SumMap, CapitalCovered, Request;
  }

  /** Every instruction keeps both share registers consistent. */
  lemma StepKeepsBooks(s: State, now: u64, op: Op)
    requires BooksOk(s)
    ensures BooksOk(Next(s, now, op))
  {
    if WritesBook(op) {
      WriterKeepsBooks(s, now, op);
    } else {
      BooksUntouched(s, now, op);
    }
    hide Step, Next, BookOk;
  }

  lemma WriterKeepsBooks(s: State, now: u64, op: Op)
    requires BooksOk(s) && WritesBook(op)
    ensures BooksOk(Next(s, now, op))
  {
    if op.RequestRedeem? || op.SetLpParams? {
      TermsKeepBooks(s, now, op);
    } else {
      TradesKeepBooks(s, now, op);
    }
    hide Step, Next, BookOk;
  }

  lemma TermsKeepBooks(s: State, now: u64, op: Op)
    requires BooksOk(s) && (op.RequestRedeem? || op.SetLpParams?)
    ensures BooksOk(Next(s, now, op))
  {
    hide BookOk, Request;
    if op.RequestRedeem? && Step(s, now, op).Ok? {
      RequestKeepsBook(BookFor(s, op.kind).value, now, op.who, op.shares);
    }
    if op.SetLpParams? {
      ParamsKeepBook(BookFor(s, op.kind), op.delay, op.feeBps, op.minDeposit);
    }
  }

  lemma TradesKeepBooks(s: State, now: u64, op: Op)
    requires BooksOk(s) && WritesBook(op) && !op.RequestRedeem? && !op.SetLpParams?
    ensures BooksOk(Next(s, now, op))
  {
    hide BookOk, Mint, Burn, Payout, DepositShares, Moved, InsuranceIn, InsuranceOut, HlpNav;
    if Step(s, now, op).Ok? {
      match op
      case DepositHlp(who, amount) =>
        MintKeepsBook(s.hlp.value, who, DepositShares(s.hlp.value, amount, HlpNav(s).value).value);
      case DepositInsLp(who, amount) =>
        MintKeepsBook(s.inslp.value, who, DepositShares(s.inslp.value, amount, s.engine.insurance).value);
      case ExecuteHlp(who) => BurnIsExact(s.hlp.value, now, who);
      case ExecuteInsLp(who) => BurnIsExact(s.inslp.value, now, who);
    }
  }

  lemma ParamsKeepBook(b: Option<Book>, delay: u64, fee: u64, min: u128)
    ensures b.Some? && BookOk(b.value) ==> BookOk(b.value.(delay := delay, feeBps := fee, minDeposit := min))
    ensures BookOk(Book(0, delay, fee, min, map[]))
  {
    if b.Some? {
      assert Holdings(b.value.(delay := delay, feeBps := fee, minDeposit := min)) == Holdings(b.value);
    }
    assert Holdings(Book(0, delay, fee, min, map[])) == map[];
  }

  /** One user's capital is part of the sum, and an update changes the sum by the difference. */
  lemma CapitalUpdate(portfolios: map<Owner, Portfolio>, who: Owner, p: Portfolio)
    ensures var held := if who in portfolios then portfolios[who].capital else 0;
            && SumMap(Capitals(portfolios[who := p])) == SumMap(Capitals(portfolios)) - held + p.capital
            && held <= SumMap(Capitals(portfolios))
  {
    assert Capitals(portfolios[who := p]) == Capitals(portfolios)[who := p.capital];
    SumUpdates(Capitals(portfolios), who, p.capital);
  }

  /** Deposits, settlements and withdrawals move capital and C_tot together. */
  lemma EngineMovesTogether(e: Engine, p: Portfolio, amount: u128)
    ensures EngineDeposit(e, p, amount).Ok? ==>
              var (e', p') := EngineDeposit(e, p, amount).value;
              e'.cTot - e.cTot == p'.capital - p.capital
    ensures EngineWithdraw(e, p, amount).Ok? ==>
              var (e', p') := EngineWithdraw(e, p, amount).value;
              e'.cTot - e.cTot == p'.capital - p.capital
  {
  }

  lemma StepKeepsCapitalCovered(s: State, now: u64, op: Op)
    requires CapitalCovered(s.engine, s.house, s.portfolios)
    ensures var s' := Next(s, now, op);
            CapitalCovered(s'.engine, s'.house, s'.portfolios)
  {
    if OnAccounts(op) {
      AccountsKeepCapitalCovered(s, now, op);
    } else {
      FundsFrame(s, now, op);
      FundsKeepTotals(s, now, op);
    }
    hide Step, Next, SumMap, Capitals;
  }

  lemma FundsKeepTotals(s: State, now: u64, op: Op)
    requires !OnAccounts(op)
    ensures Next(s, now, op).engine.cTot == s.engine.cTot && Next(s, now, op).engine.live == s.engine.live
    ensures !op.ExecuteInsurance? && !op.ExecuteInsLp? ==> Next(s, now, op).engine.insurance >= s.engine.insurance
  {
    if op.DepositInsLp? || op.ExecuteInsLp? {
      InsLpKeepsTotals(s, now, op);
    } else if WritesBook(op) {
      LpFrame(s, now, op);
    } else {
      InsuranceKeepsTotals(s, now, op);
    }
    hide Step, Next;
  }

  lemma InsLpKeepsTotals(s: State, now: u64, op: Op)
    requires op.DepositInsLp? || op.ExecuteInsLp?
    ensures Next(s, now, op).engine.cTot == s.engine.cTot && Next(s, now, op).engine.live == s.engine.live
    ensures op.DepositInsLp? ==> Next(s, now, op).engine.insurance >= s.engine.insurance
  {
    hide DepositShares, Payout, Moved, Mint, Burn, Redeemable, InsuranceIn, InsuranceOut;
    if op.DepositInsLp? {
      InsuranceCallsKeepMode(s.engine, CANONICAL_DOMAIN, op.amount);
    } else {
      forall amount: u128 | InsuranceOut(s.engine, CANONICAL_DOMAIN, amount).Ok?
        ensures var e := InsuranceOut(s.engine, CANONICAL_DOMAIN, amount).value;
                e.cTot == s.engine.cTot && e.live == s.engine.live
      {
        InsuranceCallsKeepMode(s.engine, CANONICAL_DOMAIN, amount);
      }
    }
  }

  lemma InsuranceKeepsTotals(s: State, now: u64, op: Op)
    requires !WritesBook(op) && !OnAccounts(op)
    ensures Next(s, now, op).engine.cTot == s.engine.cTot && Next(s, now, op).engine.live == s.engine.live
    ensures !op.ExecuteInsurance? ==> Next(s, now, op).engine.insurance >= s.engine.insurance
  {
    hide Moved, InsuranceIn, InsuranceOut;
    if op.FundInsurance? {
      InsuranceCallsKeepMode(s.engine, DomainIndex(op.asset, op.side), op.amount);
    } else if op.ExecuteInsurance? && s.insurance.Some? {
      var c := s.insurance.value;
      InsuranceCallsKeepMode(s.engine, DomainIndex(c.asset, c.side), c.pending);
    }
  }

  lemma AccountsKeepCapitalCovered(s: State, now: u64, op: Op)
    requires OnAccounts(op) && CapitalCovered(s.engine, s.house, s.portfolios)
    ensures var s' := Next(s, now, op);
            CapitalCovered(s'.engine, s'.house, s'.portfolios)
  {
    hide EngineDeposit, EngineWithdraw, Moved, DepositCap, SumMap, Capitals;
    if Step(s, now, op).Ok? {
      match op
      case InitPortfolio(who) => CapitalUpdate(s.portfolios, who, EMPTY_PORTFOLIO);
      case Deposit(who, amount, _) =>
        EngineMovesTogether(s.engine, s.portfolios[who], amount);
        CapitalUpdate(s.portfolios, who, EngineDeposit(s.engine, s.portfolios[who], amount).value.1);
      case Withdraw(who, amount) =>
        EngineMovesTogether(s.engine, s.portfolios[who], amount);
        CapitalUpdate(s.portfolios, who, EngineWithdraw(s.engine, s.portfolios[who], amount).value.1);
      case FundHouse(_, amount) => EngineMovesTogether(s.engine, s.house, amount);
      case WithdrawHouse(_, amount) => EngineMovesTogether(s.engine, s.house, amount);
      case DeployHlp(amount) => EngineMovesTogether(s.engine, s.house, amount);
      case HarvestHlp(amount) => EngineMovesTogether(s.engine, s.house, amount);
      case _ =>
    }
  }

  lemma StepKeepsInv(s: State, now: u64, op: Op)
    requires Inv(s)
    ensures Inv(Next(s, now, op))
  {
    StepConserves(s, now, op);
    StepKeepsBooks(s, now, op);
    StepKeepsCapitalCovered(s, now, op);
    hide *;
    NothingIsTakenBack(s, now, op);
    InvFromParts(s, now, op, Next(s, now, op));
  }

  /** Neither term is ever negative, and nothing is stranded while the market is live. */
  lemma NothingIsTakenBack(s: State, now: u64, op: Op)
    ensures Donated(s, now, op) >= 0 && Stranded(s, now, op) >= 0
    ensures s.engine.live ==> Stranded(s, now, op) == 0
  {
    hide CapitalCovered, Moved;
  }

  lemma InvFromParts(s: State, now: u64, op: Op, s': State)
    requires Inv(s) && Conserves(s, now, op, s') && BooksOk(s')
    requires CapitalCovered(s'.engine, s'.house, s'.portfolios)
    requires Donated(s, now, op) >= 0 && Stranded(s, now, op) >= 0
    ensures Inv(s')
  {
    hide Step, ExternalFlow, BooksOk, CapitalCovered, Donated, Stranded;
  }

  // ---------- whole runs ----------

  ghost function TotalFlow(s: State, run: Run): int {
    if |run| == 0 then 0
    else
      var n := |run| - 1;
      TotalFlow(s, run[..n]) + ExternalFlow(After(s, run[..n]), run[n].0, run[n].1)
  }

  ghost function DonatedToVault(s: State, run: Run): int {
    if |run| == 0 then 0
    else
      var n := |run| - 1;
      DonatedToVault(s, run[..n]) + Donated(After(s, run[..n]), run[n].0, run[n].1)
  }

  ghost function StrandedBy(s: State, run: Run): int {
    if |run| == 0 then 0
    else
      var n := |run| - 1;
      StrandedBy(s, run[..n]) + Stranded(After(s, run[..n]), run[n].0, run[n].1)
  }

  /**
   * Over any run: no token appears or disappears, vault plus buffer changes by exactly the
   * external flows, and vault tokens minus V grow by exactly the tokens donated to the vault
   * and the payouts of resolved closes.
   */
  lemma {:induction false} RunConserves(s: State, run: Run)
    ensures SumMap(After(s, run).tokens) == SumMap(s.tokens)
    ensures Pool(After(s, run)) == Pool(s) + TotalFlow(s, run)
    ensures Unaccounted(After(s, run)) == Unaccounted(s) + DonatedToVault(s, run) + StrandedBy(s, run)
    ensures DonatedToVault(s, run) >= 0 && StrandedBy(s, run) >= 0
  {
    if |run| > 0 {
      var n := |run| - 1;
      RunConserves(s, run[..n]);
      StepConserves(After(s, run[..n]), run[n].0, run[n].1);
      NothingIsTakenBack(After(s, run[..n]), run[n].0, run[n].1);
      hide Step, ExternalFlow, Pool, Unaccounted, Donated, Stranded;
    }
  }

  /** No resolved close of the run takes anything out of V. */
  ghost predicate NothingStranded(s: State, run: Run) {
    forall i :: 0 <= i < |run| ==> Stranded(Before(s, run, i), run[i].0, run[i].1) == 0
  }

  lemma NothingStrandedExtends(s: State, run: Run)
    requires |run| > 0
    ensures NothingStranded(s, run) <==>
              var n := |run| - 1;
              NothingStranded(s, run[..n]) && Stranded(After(s, run[..n]), run[n].0, run[n].1) == 0
  {
    hide Stranded, After;
    var n := |run| - 1;
    assert forall i :: 0 <= i < n ==> run[..n][..i] == run[..i] && run[..n][i] == run[i];
    assert Before(s, run, n) == After(s, run[..n]);
  }

  lemma {:induction false} StrandedExactly(s: State, run: Run)
    ensures StrandedBy(s, run) == 0 <==> NothingStranded(s, run)
  {
    if |run| > 0 {
      var n := |run| - 1;
      StrandedExactly(s, run[..n]);
      RunConserves(s, run[..n]);
      NothingIsTakenBack(After(s, run[..n]), run[n].0, run[n].1);
      NothingStrandedExtends(s, run);
      hide Stranded, NothingStranded, Unaccounted, Pool, SumMap;
    }
  }

  /**
   * The exact condition of the ledger: vault tokens minus V are unchanged over a run if and
   * only if nothing is donated to the vault and no resolved close takes anything out of V.
   * They never fall, so no instruction ever pays a stranded token out again.
   */
  lemma LedgerExactly(s: State, run: Run)
    ensures Unaccounted(After(s, run)) == Unaccounted(s) <==> DonatedToVault(s, run) == 0 && NothingStranded(s, run)
    ensures Unaccounted(After(s, run)) >= Unaccounted(s)
  {
    RunConserves(s, run);
    StrandedExactly(s, run);
    hide Unaccounted, NothingStranded;
  }

  /** Instructions never change whether the market is live, and only payouts lower I. */
  lemma InstructionsKeepMode(s: State, now: u64, op: Op)
    requires !op.EngineMove?
    ensures Next(s, now, op).engine.live == s.engine.live
    ensures !op.ExecuteInsurance? && !op.ExecuteInsLp? ==> Next(s, now, op).engine.insurance >= s.engine.insurance
  {
    if OnAccounts(op) {
      AccountsKeepMode(s, now, op);
    } else {
      FundsKeepTotals(s, now, op);
    }
    hide Step, Next;
  }

  lemma AccountsKeepMode(s: State, now: u64, op: Op)
    requires OnAccounts(op) && !op.EngineMove?
    ensures Next(s, now, op).engine.live == s.engine.live && Next(s, now, op).engine.insurance == s.engine.insurance
  {
    hide Moved, DepositCap, EngineDeposit, EngineWithdraw;
    if Step(s, now, op).Ok? {
      match op
      case Deposit(who, amount, _) => AccountCallsKeepMode(s.engine, s.portfolios[who], amount);
      case Withdraw(who, amount) => AccountCallsKeepMode(s.engine, s.portfolios[who], amount);
      case FundHouse(_, amount) => AccountCallsKeepMode(s.engine, s.house, amount);
      case WithdrawHouse(_, amount) => AccountCallsKeepMode(s.engine, s.house, amount);
      case DeployHlp(amount) => AccountCallsKeepMode(s.engine, s.house, amount);
      case HarvestHlp(amount) => AccountCallsKeepMode(s.engine, s.house, amount);
      case _ =>
    }
  }

  /** A market that is live after a step was live before it. */
  lemma StaysResolved(s: State, now: u64, op: Op)
    requires Next(s, now, op).engine.live
    ensures s.engine.live
  {
    if !op.EngineMove? {
      InstructionsKeepMode(s, now, op);
      hide Step;
    }
    hide CapitalCovered;
  }

  /** While the market is live the ledger is exact: only donations are unaccounted for. */
  lemma {:induction false} LiveLedger(s: State, run: Run)
    requires After(s, run).engine.live
    ensures StrandedBy(s, run) == 0
    ensures Unaccounted(After(s, run)) == Unaccounted(s) + DonatedToVault(s, run)
  {
    RunConserves(s, run);
    if |run| > 0 {
      var n := |run| - 1;
      StaysResolved(After(s, run[..n]), run[n].0, run[n].1);
      LiveLedger(s, run[..n]);
      NothingIsTakenBack(After(s, run[..n]), run[n].0, run[n].1);
      hide Step, Stranded, Unaccounted;
    }
  }

  // ---------- a resolved close ----------

  /**
   * How close_resolved_account_not_atomic ends for an account with nothing left to settle:
   * capital and the claimable part of its PnL, at most V, leave V; the account is emptied.
   */
  function ClosePayout(e: Engine, p: Portfolio, claimable: nat): nat {
    var due := p.capital + claimable;
    if due <= e.vault then due else e.vault
  }

  function ClosedEngine(e: Engine, p: Portfolio, claimable: nat): Engine {
    var capital := if p.capital <= e.cTot then p.capital else e.cTot;
    e.(vault := e.vault - ClosePayout(e, p, claimable), cTot := e.cTot - capital)
  }

  function ClosedPortfolio(p: Portfolio): Portfolio {
    p.(capital := 0, pnl := 0, feeCredits := 0)
  }

  function Close(s: State, who: Owner, claimable: nat): Op
    requires who in s.portfolios
  {
    EngineMove(ClosedEngine(s.engine, s.portfolios[who], claimable), s.house,
      s.portfolios[who := ClosedPortfolio(s.portfolios[who])])
  }

  /**
   * Closing an account of a resolved market is an engine move whenever the engine's shape
   * validation passes after it. It takes the payout out of V, empties the account, and moves
   * no token: the whole payout stays in the vault, unaccounted for.
   */
  lemma CloseStrandsItsPayout(s: State, now: u64, who: Owner, claimable: nat)
    requires Inv(s) && !s.engine.live && who in s.portfolios
    requires ShapeOk(ClosedEngine(s.engine, s.portfolios[who], claimable))
    ensures var op := Close(s, who, claimable);
            && Step(s, now, op).Ok?
            && Stranded(s, now, op) == ClosePayout(s.engine, s.portfolios[who], claimable)
            && Unaccounted(Next(s, now, op)) == Unaccounted(s) + ClosePayout(s.engine, s.portfolios[who], claimable)
            && Next(s, now, op).tokens == s.tokens
            && who in Next(s, now, op).portfolios && Next(s, now, op).portfolios[who].capital == 0
  {
    CapitalUpdate(s.portfolios, who, ClosedPortfolio(s.portfolios[who]));
    hide SumMap, Capitals, BooksOk;
  }

  /** A resolved market with one winner: capital 5, PnL 3, V = 8 and eight tokens in the vault. */
  function ResolvedWinner(): State {
    var engine := Engine(false, 8, 5, 0, 0, 0, 0, true, map[]);
    var winner := Portfolio(5, 3, 0, true, true);
    State(map[Vault := 8], engine, 0, false, EMPTY_PORTFOLIO, 0, map[7 := winner], None, 0, None, None, false, 0)
  }

  /** Any signer's crank closes it: V falls from 8 to 0 and the eight tokens stay where they are. */
  lemma ResolvedWinnerIsStranded()
    ensures Inv(ResolvedWinner()) && 7 in ResolvedWinner().portfolios
    ensures var s := ResolvedWinner();
            var s' := Next(s, 0, Close(s, 7, 3));
            && s'.engine.vault == 0 && Balance(s'.tokens, Vault) == 8 && Unaccounted(s') == Unaccounted(s) + 8
  {
    var s := ResolvedWinner();
    SumUpdates(map[], Vault, 8);
    assert s.tokens == map[][Vault := 8];
    SumUpdates(map[], 7, 5);
    assert Capitals(s.portfolios) == map[][7 := 5];
    assert SumMap<Account>(map[]) == 0 && SumMap<Owner>(map[]) == 0;
    assert Inv(s);
    CloseStrandsItsPayout(s, 0, 7, 3);
    hide Inv, Step, SumMap;
  }

  // ---------- the start ----------

  /** A market just initialised, whatever tokens exist elsewhere. */
  function NewMarket(tokens: map<Account, nat>, capacity: nat, dexPriced: bool): State {
    State(tokens, Engine(true, 0, 0, 0, 0, 0, 0, true, map[]), capacity, false, EMPTY_PORTFOLIO, 0, map[],
      None, 0, None, None, dexPriced, 0)
  }

  lemma NewMarketIsValid(tokens: map<Account, nat>, capacity: nat, dexPriced: bool)
    requires SumMap(tokens) <= U64_MAX
    ensures Inv(NewMarket(tokens, capacity, dexPriced)) && ShapeOk(NewMarket(tokens, capacity, dexPriced).engine)
  {
    assert Capitals(map[]) == map[];
    assert SumMap(Capitals(map[])) == 0;
    hide SumMap, Capitals;
  }

  /** Every state a new market can reach satisfies the invariant. */
  lemma ReachableMarketsAreValid(tokens: map<Account, nat>, capacity: nat, dexPriced: bool, run: Run)
    requires SumMap(tokens) <= U64_MAX
    ensures Inv(After(NewMarket(tokens, capacity, dexPriced), run))
  {
    NewMarketIsValid(tokens, capacity, dexPriced);
    RunKeepsInv(NewMarket(tokens, capacity, dexPriced), run);
    hide *;
  }

  /** The invariant holds in every reachable state. */
  lemma {:induction false} RunKeepsInv(s: State, run: Run)
    requires Inv(s)
    ensures Inv(After(s, run))
  {
    if |run| > 0 {
      var n := |run| - 1;
      RunKeepsInv(s, run[..n]);
      StepKeepsInv(After(s, run[..n]), run[n].0, run[n].1);
      hide Step, Inv;
    }
  }
}
