/**
 * What deploying and harvesting do to the HLP net asset value, and the HLP vault over runs
 * in which the House's PnL does not change.
 */
module HlpNavRuns {
  import opened Wrappers
  import opened Words
  import opened Sums
  import opened LpBook
  import opened MarketSteps
  import opened Custody
  import opened Effects
  import opened ShareMath
  import opened LpRuns

  function HouseEquity(s: State): int {
    AdjustedEquity(s.house, s.haircutBps)
  }

  /** A deposit into the House adds to its equity, a withdrawal takes from it; PnL is unchanged or settled. */
  lemma EngineMovesEquity(e: Engine, p: Portfolio, amount: u128, bps: u64)
    ensures EngineDeposit(e, p, amount).Ok? ==>
              AdjustedEquity(EngineDeposit(e, p, amount).value.1, bps) == AdjustedEquity(p, bps) + amount
    ensures EngineWithdraw(e, p, amount).Ok? ==>
              AdjustedEquity(EngineWithdraw(e, p, amount).value.1, bps) == AdjustedEquity(p, bps) - amount
  {
    HaircutSmall(p.pnl, bps);
    HaircutSmall(0, bps);
  }

  /**
   * Deploying moves buffer into the House. It keeps NAV exactly when the House equity is not
   * clipped (or nothing moves); into a clipped House part of the amount vanishes from NAV.
   */
  lemma DeployKeepsNavExactly(s: State, now: u64, amount: u128)
    requires Step(s, now, DeployHlp(amount)).Ok?
    ensures var s' := Step(s, now, DeployHlp(amount)).value;
            && (NavOf(s', Hlp) == NavOf(s, Hlp) <==> HouseEquity(s) >= 0 || amount == 0)
            && NavOf(s', Hlp) <= NavOf(s, Hlp)
  {
    EngineMovesEquity(s.engine, s.house, amount, s.haircutBps);
    TransferMoves(s.tokens, Buffer, Vault, amount);
    hide SumMap, AdjustedEquity, EngineDeposit;
  }

  /** A bankrupt House (equity -5) and a buffer of ten atoms, on an otherwise empty market. */
  function BankruptHouse(): State {
    var engine := Engine(true, 0, 0, 0, 0, 0, 0, true, map[]);
    State(map[Buffer := 10], engine, 0, true, Portfolio(0, -5, 0, true, true), 0, map[], None, 0, None, None, false, 0)
  }

  /** Deploying three of them succeeds and takes NAV from ten to seven. */
  lemma DeployLosesNav()
    ensures Inv(BankruptHouse()) && Step(BankruptHouse(), 0, DeployHlp(3)).Ok?
    ensures NavOf(BankruptHouse(), Hlp) == 10
    ensures NavOf(Next(BankruptHouse(), 0, DeployHlp(3)), Hlp) == 7
  {
    var s := BankruptHouse();
    BankruptHouseOk();
    FundHouseSucceedsExactly(s, Buffer, 3);
    FundHouseEffects(s, Buffer, 3);
    DeployIsFunding(s);
    hide *;
    DeployedEquity(s, Next(s, 0, DeployHlp(3)));
  }

  lemma BankruptHouseOk()
    ensures Inv(BankruptHouse())
    ensures var s := BankruptHouse();
            && Balance(s.tokens, Buffer) == 10 && s.house == Portfolio(0, -5, 0, true, true)
            && s.houseReady && s.haircutBps == 0
  {
    var s := BankruptHouse();
    SumUpdates(map[], Buffer, 10);
    assert s.tokens == map[][Buffer := 10];
    assert Capitals(s.portfolios) == map[];
    assert SumMap(Capitals(s.portfolios)) == 0;
  }

  lemma DeployIsFunding(s: State)
    ensures Step(s, 0, DeployHlp(3)) == FundHouseStep(s, Buffer, 3)
    ensures Step(s, 0, DeployHlp(3)).Ok? ==> Next(s, 0, DeployHlp(3)) == FundHouseStep(s, Buffer, 3).value
  {
    hide FundHouseStep;
  }

  lemma DeployedEquity(s: State, s': State)
    requires Balance(s.tokens, Buffer) == 10 && s.house == Portfolio(0, -5, 0, true, true) && s.haircutBps == 0
    requires HouseFunded(s, s', Buffer, 3)
    ensures NavOf(s, Hlp) == 10 && NavOf(s', Hlp) == 7
  {
    LossesAreNotDiscounted(s.house, s.haircutBps);
    LossesAreNotDiscounted(s'.house, s'.haircutBps);
    hide AdjustedEquity, Balance;
  }

  lemma LossesAreNotDiscounted(p: Portfolio, bps: u64)
    ensures p.pnl <= 0 ==> AdjustedEquity(p, bps) == RawEquity(p)
  {
    HaircutSmall(p.pnl, bps);
    hide Haircut;
  }

  /**
   * Harvesting moves House capital into the buffer. It keeps NAV exactly when the equity
   * left behind is not clipped; otherwise NAV rises, and it never falls.
   */
  lemma HarvestKeepsNavExactly(s: State, now: u64, amount: u128)
    requires Step(s, now, HarvestHlp(amount)).Ok?
    ensures var s' := Step(s, now, HarvestHlp(amount)).value;
            && (NavOf(s', Hlp) == NavOf(s, Hlp) <==> HouseEquity(s) >= amount || amount == 0)
            && NavOf(s', Hlp) >= NavOf(s, Hlp)
  {
    EngineMovesEquity(s.engine, s.house, amount, s.haircutBps);
    TransferMoves(s.tokens, Vault, Buffer, amount);
    hide SumMap, AdjustedEquity, EngineWithdraw;
  }

  /** No engine move that touches the House, no House withdrawal by the authority, no new haircut. */
  predicate HlpQuiet(s: State, op: Op) {
    && !op.WithdrawHouse?
    && (op.EngineMove? ==> op.house == s.house)
    && (op.CreateHouse? ==> s.house == EMPTY_PORTFOLIO)
    && (op.SetLpParams? && op.kind.Hlp? ==> op.haircut == s.haircutBps)
  }

  /** What a successful quiet instruction brings into HLP from outside. */
  ghost function HlpFlow(s: State, now: u64, op: Op): int {
    if Step(s, now, op).Err? then 0
    else
      match op
      case FundHouse(_, amount) => amount
      case DepositHlp(_, amount) => amount
      case ExecuteHlp(who) => 0 - HlpPayout(s, who)
      case Donate(_, to, amount) => if to == Buffer then amount else 0
      case _ => 0
  }

  /** With the House equity unclipped before and after, NAV changes by exactly the flow. */
  lemma QuietStepMovesNavByFlow(s: State, now: u64, op: Op)
    requires HlpQuiet(s, op) && HouseEquity(s) >= 0 && HouseEquity(Next(s, now, op)) >= 0
    ensures NavOf(Next(s, now, op), Hlp) == NavOf(s, Hlp) + HlpFlow(s, now, op)
    ensures !op.ExecuteHlp? ==> HlpFlow(s, now, op) >= 0
  {
    FlowSign(s, now, op);
    if Step(s, now, op).Err? {
      NoFlow(s, now, op);
    } else if op.FundHouse? || op.DeployHlp? || op.HarvestHlp? {
      NextMeans(s, now, op);
      HouseStepMovesNav(s, now, op);
    } else {
      BufferStepMovesNav(s, now, op);
    }
    hide Step, Next, NavOf, HlpFlow, HouseEquity;
  }

  lemma NoFlow(s: State, now: u64, op: Op)
    requires Step(s, now, op).Err?
    ensures Next(s, now, op) == s && HlpFlow(s, now, op) == 0
  {
    hide Step;
  }

  lemma FlowSign(s: State, now: u64, op: Op)
    ensures !op.ExecuteHlp? ==> HlpFlow(s, now, op) >= 0
  {
    hide Step;
  }

  lemma HouseStepMovesNav(s: State, now: u64, op: Op)
    requires Step(s, now, op).Ok? && (op.FundHouse? || op.DeployHlp? || op.HarvestHlp?)
    requires HouseEquity(s) >= 0 && HouseEquity(Step(s, now, op).value) >= 0
    ensures NavOf(Next(s, now, op), Hlp) == NavOf(s, Hlp) + HlpFlow(s, now, op)
  {
    EngineMovesEquity(s.engine, s.house, op.amount, s.haircutBps);
    hide SumMap, AdjustedEquity, EngineDeposit, EngineWithdraw;
    match op
    case FundHouse(who, amount) => TransferMoves(s.tokens, Wallet(who), Vault, amount);
    case DeployHlp(amount) => TransferMoves(s.tokens, Buffer, Vault, amount);
    case HarvestHlp(amount) => TransferMoves(s.tokens, Vault, Buffer, amount);
  }

  lemma BufferStepMovesNav(s: State, now: u64, op: Op)
    requires HlpQuiet(s, op) && Step(s, now, op).Ok?
    requires !op.FundHouse? && !op.DeployHlp? && !op.HarvestHlp?
    ensures HouseEquity(Next(s, now, op)) == HouseEquity(s)
    ensures NavOf(Next(s, now, op), Hlp) == NavOf(s, Hlp) + HlpFlow(s, now, op)
  {
    HouseUntouched(s, now, op);
    BufferChange(s, now, op);
    hide SumMap, Step, HlpFlow, AdjustedEquity;
  }

  lemma HouseUntouched(s: State, now: u64, op: Op)
    requires HlpQuiet(s, op) && !op.FundHouse? && !op.DeployHlp? && !op.HarvestHlp?
    ensures Next(s, now, op).house == s.house && Next(s, now, op).haircutBps == s.haircutBps
  {
    if OnAccounts(op) {
      AccountsFrame(s, now, op);
      AccountsLeaveHouse(s, now, op);
    } else if op.SetLpParams? {
      SameHaircut(s, now, op);
    } else {
      FundsFrame(s, now, op);
    }
    hide Step, Next;
  }

  lemma SameHaircut(s: State, now: u64, op: Op)
    requires HlpQuiet(s, op) && op.SetLpParams?
    ensures Next(s, now, op).house == s.house && Next(s, now, op).haircutBps == s.haircutBps
  {
  }

  lemma AccountsLeaveHouse(s: State, now: u64, op: Op)
    requires HlpQuiet(s, op) && !op.FundHouse? && !op.DeployHlp? && !op.HarvestHlp? && OnAccounts(op)
    ensures Next(s, now, op).house == s.house
  {
    hide Moved, EngineDeposit, EngineWithdraw, CapitalCovered;
  }

  /** The buffer changes only by HLP deposits, HLP payouts and donations to it. */
  lemma BufferChange(s: State, now: u64, op: Op)
    requires HlpQuiet(s, op) && Step(s, now, op).Ok?
    requires !op.FundHouse? && !op.DeployHlp? && !op.HarvestHlp?
    ensures Balance(Next(s, now, op).tokens, Buffer) == Balance(s.tokens, Buffer) + HlpFlow(s, now, op)
  {
    StepConserves(s, now, op);
    if op.Donate? {
      if op.to != Wallet(op.who) {
        TransferMoves(s.tokens, Wallet(op.who), op.to, op.amount);
      }
    } else {
      VaultFollowsEngine(s, now, op);
    }
    hide SumMap, Payout, DepositShares;
  }

  /** Outside donations, what the vault gains is what the engine counter gains. */
  lemma VaultFollowsEngine(s: State, now: u64, op: Op)
    requires HlpQuiet(s, op) && Step(s, now, op).Ok? && !op.Donate?
    requires !op.FundHouse? && !op.DeployHlp? && !op.HarvestHlp?
    ensures var s' := Step(s, now, op).value;
            s'.engine.vault - s.engine.vault == ExternalFlow(s, now, op) - HlpFlow(s, now, op) - Stranded(s, now, op)
  {
    if op.Deposit? || op.Withdraw? {
      UserStepsFollow(s, now, op);
    } else if op.DepositInsLp? || op.ExecuteInsLp? || op.FundInsurance? || op.ExecuteInsurance? {
      InsuranceStepsFollow(s, now, op);
    } else {
      hide SumMap, HlpNav, DepositShares, Payout, Moved, Mint, Burn, Request;
    }
  }

  lemma UserStepsFollow(s: State, now: u64, op: Op)
    requires Step(s, now, op).Ok? && (op.Deposit? || op.Withdraw?)
    ensures Step(s, now, op).value.engine.vault - s.engine.vault == ExternalFlow(s, now, op)
  {
    hide Moved;
  }

  lemma InsuranceStepsFollow(s: State, now: u64, op: Op)
    requires Step(s, now, op).Ok?
    requires op.DepositInsLp? || op.ExecuteInsLp? || op.FundInsurance? || op.ExecuteInsurance?
    ensures Step(s, now, op).value.engine.vault - s.engine.vault == ExternalFlow(s, now, op)
  {
    hide DepositShares, Payout, Moved, Mint, Burn;
  }

  // ---------- whole runs ----------

  /** Fixed House PnL, unclipped equity and no overpaid redemption, at every point of the run. */
  ghost predicate HlpRegular(s: State, run: Run) {
    && (forall i :: 0 <= i < |run| ==> HlpQuiet(Before(s, run, i), run[i].1))
    && (forall i :: 0 <= i <= |run| ==> HouseEquity(Before(s, run, i)) >= 0)
    && (forall i :: 0 <= i < |run| ==> !Overpays(Before(s, run, i), run[i].1, Hlp))
  }

  lemma RegularRunsOnlyLoseToRedemptions(s: State, run: Run)
    requires HlpRegular(s, run)
    ensures OnlyRedemptionsLowerNav(s, run, Hlp)
  {
    hide NavOf, TotalOf, HouseEquity, HlpFlow, Step, HlpQuiet, Overpays;
    forall i | 0 <= i < |run|
      ensures IsRedemption(run[i].1, Hlp) || NavOf(Before(s, run, i + 1), Hlp) >= NavOf(Before(s, run, i), Hlp)
    {
      NextState(s, run, i);
      QuietStepMovesNavByFlow(Before(s, run, i), run[i].0, run[i].1);
    }
  }

  /** The HLP promise over such runs, with deploys and harvests interleaved at will. */
  lemma HlpSeedIsSafe(s: State, run: Run)
    requires Inv(s) && TotalOf(s, Hlp) == 0 && HlpRegular(s, run)
    ensures NavOf(After(s, run), Hlp) >= NavOf(s, Hlp)
    ensures (NavOf(After(s, run), Hlp) + 1) * 1_000_000
         >= (TotalOf(After(s, run), Hlp) + 1_000_000) * (NavOf(s, Hlp) + 1)
    ensures NavFlows(s, run, Hlp).redeemed <= NavFlows(s, run, Hlp).deposited + NavFlows(s, run, Hlp).gained
  {
    hide *;
    RegularRunsOnlyLoseToRedemptions(s, run);
    SeedIsSafe(s, run, Hlp);
    LpsTakeOutAtMostTheyPutIn(s, run, Hlp);
  }

  // ---------- hypotheses on the start alone ----------

  /** The House's positive PnL is below 2^107: far above every token supply. */
  const MAX_PNL: int := 0x800_0000_0000_0000_0000_0000_0000

  /** The House's PnL never grows in a quiet step: it stays or is settled to zero. */
  lemma QuietKeepsPnl(s: State, now: u64, op: Op)
    requires HlpQuiet(s, op)
    ensures Next(s, now, op).house.pnl <= Clip(s.house.pnl)
  {
    if op.FundHouse? || op.DeployHlp? || op.HarvestHlp? {
      EngineMovesPnl(s.engine, s.house, op.amount);
      hide EngineDeposit, EngineWithdraw, Moved;
    } else {
      HouseUntouched(s, now, op);
      hide Step;
    }
  }

  lemma EngineMovesPnl(e: Engine, p: Portfolio, amount: u128)
    ensures EngineDeposit(e, p, amount).Ok? ==> EngineDeposit(e, p, amount).value.1.pnl <= Clip(p.pnl)
    ensures EngineWithdraw(e, p, amount).Ok? ==> EngineWithdraw(e, p, amount).value.1.pnl <= Clip(p.pnl)
  {
  }

  lemma NavBelow(s: State)
    requires Inv(s) && s.house.pnl <= MAX_PNL
    ensures NavOf(s, Hlp) + 1 <= 2 * MAX_PNL
  {
    BalanceWithin(s.tokens, Buffer);
    BalanceWithin(s.tokens, Vault);
    HaircutSmall(s.house.pnl, s.haircutBps);
    hide SumMap, Haircut, Capitals, BooksOk;
  }

  lemma SmallNavRulesOutSaturation(total: nat, nav: nat, seed: nat)
    requires PriceHolds(0, seed, total, nav) && nav + 1 <= 2 * MAX_PNL
    ensures total + VIRTUAL_SHARES <= U128_MAX
  {
    SeedBound(total, nav, seed);
    Arith.MulMono(1, seed + 1, total + 1_000_000);
    Arith.MulCommutes(seed + 1, total + 1_000_000);
  }

  /** Quiet at every step and unclipped at every point. */
  ghost predicate QuietAndUnclipped(s: State, run: Run) {
    && (forall i :: 0 <= i < |run| ==> HlpQuiet(Before(s, run, i), run[i].1))
    && (forall i :: 0 <= i <= |run| ==> HouseEquity(Before(s, run, i)) >= 0)
  }

  lemma QuietPrefix(s: State, run: Run)
    requires |run| > 0 && QuietAndUnclipped(s, run)
    ensures QuietAndUnclipped(s, run[..|run| - 1])
    ensures HlpQuiet(After(s, run[..|run| - 1]), run[|run| - 1].1)
    ensures forall i :: 0 <= i < |run| ==> Before(s, run[..|run| - 1], i) == Before(s, run, i)
  {
    hide HlpQuiet, HouseEquity;
    var n := |run| - 1;
    forall i | 0 <= i <= n
      ensures Before(s, run[..n], i) == Before(s, run, i)
    {
      PrefixStates(s, run, n, i);
    }
    assert HlpQuiet(Before(s, run, n), run[n].1);
  }

  lemma {:induction false} QuietPnl(s: State, run: Run)
    requires QuietAndUnclipped(s, run) && s.house.pnl <= MAX_PNL
    ensures After(s, run).house.pnl <= MAX_PNL
  {
    if |run| > 0 {
      var n := |run| - 1;
      QuietPrefix(s, run);
      QuietPnl(s, run[..n]);
      QuietKeepsPnl(After(s, run[..n]), run[n].0, run[n].1);
      hide HlpQuiet, Step, Next, QuietAndUnclipped;
      LastStep(s, run);
    }
  }

  /** No redemption of such a run, started without shares, is overpaid. */
  lemma {:induction false} QuietRunsAreRegular(s: State, run: Run)
    requires Inv(s) && TotalOf(s, Hlp) == 0 && QuietAndUnclipped(s, run) && s.house.pnl <= MAX_PNL
    ensures HlpRegular(s, run)
  {
    if |run| > 0 {
      var n := |run| - 1;
      var prefix := run[..n];
      QuietPrefix(s, run);
      QuietRunsAreRegular(s, prefix);
      RegularRunsOnlyLoseToRedemptions(s, prefix);
      RunKeepsPrice(s, prefix, 0, Hlp);
      BeforeStart(s, prefix);
      RunKeepsInv(s, prefix);
      QuietPnl(s, prefix);
      var before := After(s, prefix);
      NavBelow(before);
      SmallNavRulesOutSaturation(TotalOf(before, Hlp), NavOf(before, Hlp), NavOf(s, Hlp));
      BelowSaturation(before, run[n].1, Hlp);
      hide Step, Next, Overpays, HlpQuiet, HouseEquity, NavOf, TotalOf, Inv;
    }
  }

  /** The state has no haircut to take and its House is solvent. */
  predicate NothingToClip(s: State) {
    HouseEquity(s) >= 0 && (s.haircutBps == 0 || s.house.pnl <= 0)
  }

  lemma {:induction false} QuietRunsStayUnclipped(s: State, run: Run)
    requires NothingToClip(s) && (forall i :: 0 <= i < |run| ==> HlpQuiet(Before(s, run, i), run[i].1))
    ensures QuietAndUnclipped(s, run) && NothingToClip(After(s, run))
  {
    hide HlpQuiet, NothingToClip, HouseEquity, Step, Next, QuietAndUnclipped;
    if |run| > 0 {
      var n := |run| - 1;
      forall i | 0 <= i <= n
        ensures Before(s, run[..n], i) == Before(s, run, i)
      {
        PrefixStates(s, run, n, i);
      }
      QuietRunsStayUnclipped(s, run[..n]);
      LastStep(s, run);
      assert HlpQuiet(Before(s, run, n), run[n].1);
      QuietKeepsUnclipped(Before(s, run, n), run[n].0, run[n].1);
    } else {
      BeforeStart(s, run);
    }
    NothingToClipMeans(After(s, run));
    QuietExtends(s, run);
  }

  lemma QuietExtends(s: State, run: Run)
    requires |run| > 0 ==> QuietAndUnclipped(s, run[..|run| - 1])
    requires forall i :: 0 <= i < |run| ==> HlpQuiet(Before(s, run, i), run[i].1)
    requires HouseEquity(After(s, run)) >= 0
    ensures QuietAndUnclipped(s, run)
  {
    hide HlpQuiet, HouseEquity, After;
    assert run[..|run|] == run;
    forall i | 0 <= i <= |run|
      ensures HouseEquity(Before(s, run, i)) >= 0
    {
      if i < |run| {
        PrefixStates(s, run, |run| - 1, i);
        assert HouseEquity(Before(s, run[..|run| - 1], i)) >= 0;
      }
    }
  }

  lemma NothingToClipMeans(s: State)
    ensures NothingToClip(s) ==> HouseEquity(s) >= 0
  {
  }

  /**
   * The HLP promise with hypotheses on the start alone: no shares, a solvent House with no
   * haircut to take and a PnL below 2^107. Over any run of quiet instructions, deploys and
   * harvests included, NAV never falls below its seed and LPs take out no more than came in.
   */
  lemma QuietHlpSeedIsSafe(s: State, run: Run)
    requires Inv(s) && TotalOf(s, Hlp) == 0 && NothingToClip(s) && s.house.pnl <= MAX_PNL
    requires forall i :: 0 <= i < |run| ==> HlpQuiet(Before(s, run, i), run[i].1)
    ensures NavOf(After(s, run), Hlp) >= NavOf(s, Hlp)
    ensures (NavOf(After(s, run), Hlp) + 1) * 1_000_000
         >= (TotalOf(After(s, run), Hlp) + 1_000_000) * (NavOf(s, Hlp) + 1)
    ensures NavFlows(s, run, Hlp).redeemed <= NavFlows(s, run, Hlp).deposited + NavFlows(s, run, Hlp).gained
  {
    hide *;
    QuietRunsStayUnclipped(s, run);
    QuietRunsAreRegular(s, run);
    HlpSeedIsSafe(s, run);
  }

  /** With no haircut to take, quiet instructions keep the equity unclipped by themselves. */
  lemma QuietKeepsUnclipped(s: State, now: u64, op: Op)
    requires HlpQuiet(s, op) && NothingToClip(s)
    ensures NothingToClip(Next(s, now, op))
  {
    if op.FundHouse? || op.DeployHlp? || op.HarvestHlp? {
      EngineKeepsUnclipped(s.engine, s.house, op.amount, s.haircutBps);
      HouseOpKeepsUnclipped(s, now, op);
    } else {
      HouseUntouched(s, now, op);
      SameHouseUnclipped(s, Next(s, now, op));
    }
    hide Step, Next, NothingToClip;
  }

  lemma SameHouseUnclipped(s: State, s': State)
    requires NothingToClip(s) && s'.house == s.house && s'.haircutBps == s.haircutBps
    ensures NothingToClip(s')
  {
    hide AdjustedEquity;
  }

  predicate Unclipped(p: Portfolio, bps: u64) {
    AdjustedEquity(p, bps) >= 0 && (bps == 0 || p.pnl <= 0)
  }

  lemma EngineKeepsUnclipped(e: Engine, p: Portfolio, amount: u128, bps: u64)
    ensures Unclipped(p, bps) && EngineDeposit(e, p, amount).Ok? ==> Unclipped(EngineDeposit(e, p, amount).value.1, bps)
    ensures Unclipped(p, bps) && EngineWithdraw(e, p, amount).Ok? ==>
              Unclipped(EngineWithdraw(e, p, amount).value.1, bps)
  {
    HaircutSmall(p.pnl, bps);
    HaircutSmall(0, bps);
    EngineDepositRises(e, p, amount);
    EngineWithdrawFalls(e, p, amount);
    hide EngineDeposit, EngineWithdraw, Haircut;
  }

  lemma HouseOpKeepsUnclipped(s: State, now: u64, op: Op)
    requires NothingToClip(s) && (op.FundHouse? || op.DeployHlp? || op.HarvestHlp?)
    requires EngineDeposit(s.engine, s.house, op.amount).Ok? ==>
               Unclipped(EngineDeposit(s.engine, s.house, op.amount).value.1, s.haircutBps)
    requires EngineWithdraw(s.engine, s.house, op.amount).Ok? ==>
               Unclipped(EngineWithdraw(s.engine, s.house, op.amount).value.1, s.haircutBps)
    ensures NothingToClip(Next(s, now, op))
  {
    hide EngineDeposit, EngineWithdraw, Moved, AdjustedEquity;
  }
}
