/**
 * A run that ends in an overpaid redemption: LPs deposit while the HLP vault is worth
 * nothing, the House loses each deposit to a trader, and the share total grows until
 * total + 10^6 saturates.
 */
module Overpayment {
  import opened Wrappers
  import opened Arith
  import opened Words
  import opened ShareMath
  import opened Sums
  import opened LpBook
  import opened MarketSteps
  import opened Custody
  import opened LpRuns

  const LP: Owner := 7
  const TRADER: Owner := 8

  /** A solvent, idle portfolio without PnL. */
  function Flat(capital: u128): Portfolio {
    EMPTY_PORTFOLIO.(capital := capital)
  }

  function FlatEngine(vault: u128): Engine {
    Engine(true, vault, vault, 0, 0, 0, 0, true, map[])
  }

  /** One LP holds every share, with this many queued and due; no delay, fee or minimum. */
  ghost predicate SoleLp(b: Book, total: nat, pending: nat) {
    && b.total == total && b.delay == 0 && b.feeBps == 0 && b.minDeposit == 0
    && PositionOf(b, LP).shares == total && PositionOf(b, LP).pending == pending && PositionOf(b, LP).unlock == 0
    && (total > 0 ==> LP in b.positions)
  }

  /** The LP's wallet, the buffer, the vault (the trader's capital but for the House's), and the register. */
  ghost predicate Stage(s: State, wallet: nat, buffer: nat, vault: u128, house: u128, total: nat, pending: nat) {
    && house <= vault
    && Balance(s.tokens, Wallet(LP)) == wallet && Balance(s.tokens, Buffer) == buffer
    && s.engine == FlatEngine(vault) && s.portfolios == map[TRADER := Flat(vault - house)]
    && s.houseReady && s.house == Flat(house) && s.haircutBps == 0
    && s.hlp.Some? && SoleLp(s.hlp.value, total, pending)
  }

  lemma FlatEquity(capital: u128)
    requires capital < HALF128
    ensures AdjustedEquity(Flat(capital), 0) == capital && EquityInRange(Flat(capital))
  {
  }

  lemma NavOfStage(s: State, wallet: nat, buffer: u128, vault: u128, total: nat, pending: nat)
    requires Stage(s, wallet, buffer, vault, 0, total, pending) && buffer <= U64_MAX
    ensures HlpNav(s).Ok? && HlpNav(s).value == buffer == NavOf(s, Hlp)
    ensures TotalOf(s, Hlp) == total
  {
    hide HlpNav, MarkedEquity, AdjustedEquity, EquityInRange, Balance, PositionOf;
    FlatEquity(0);
    assert HlpNav(s).Ok?;
  }

  // ---------- the steps ----------

  lemma DepositAtZero(s: State, wallet: nat, vault: u128, total: nat, amount: u128)
    requires Stage(s, wallet, 0, vault, 0, total, 0) && 0 < amount <= wallet && amount <= U64_MAX
    requires total + amount * (total + 1_000_000) <= U128_MAX && total + VIRTUAL_SHARES <= U128_MAX
    requires amount * (total + 1_000_000) <= U128_MAX
    ensures Step(s, 0, DepositHlp(LP, amount)).Ok?
    ensures amount * (total + 1_000_000) >= 0
    ensures Stage(Next(s, 0, DepositHlp(LP, amount)), wallet - amount, amount, vault, 0,
              total + amount * (total + 1_000_000), 0)
  {
    hide *;
    var minted := amount * (total + 1_000_000);
    StageMeans(s, wallet, 0, vault, total, 0);
    SoleLpMeans(s.hlp.value, total, 0);
    NavOfStage(s, wallet, 0, vault, total, 0);
    SharesAtZero(s.hlp.value, amount);
    TransferOk(s.tokens, Wallet(LP), Buffer, amount);
    MintToLp(s.hlp.value, total, minted);
    DepositMeans(s, amount, minted);
    AfterDeposit(s, Next(s, 0, DepositHlp(LP, amount)), wallet, vault, total, amount, minted);
  }

  /** What a deposit that is priced and covered does. */
  lemma DepositMeans(s: State, amount: u128, minted: u128)
    requires s.houseReady && s.hlp.Some? && s.hlp.value.minDeposit == 0 && HlpNav(s).Ok? && HlpNav(s).value == 0
    requires DepositShares(s.hlp.value, amount, 0).Ok? && DepositShares(s.hlp.value, amount, 0).value == minted
    requires Moved(s.tokens, Wallet(LP), Buffer, amount).Ok? && Mint(s.hlp.value, LP, minted).Ok?
    ensures Step(s, 0, DepositHlp(LP, amount)).Ok?
    ensures Next(s, 0, DepositHlp(LP, amount))
         == s.(tokens := Moved(s.tokens, Wallet(LP), Buffer, amount).value,
               hlp := Some(Mint(s.hlp.value, LP, minted).value))
  {
    hide HlpNav, DepositShares, Moved, Mint;
  }

  lemma AfterDeposit(s: State, s': State, wallet: nat, vault: u128, total: nat, amount: u128, minted: u128)
    requires Stage(s, wallet, 0, vault, 0, total, 0) && amount <= wallet && amount <= U64_MAX
    requires Moved(s.tokens, Wallet(LP), Buffer, amount).Ok?
    requires s'.hlp.Some? && SoleLp(s'.hlp.value, total + minted, 0)
    requires s' == s.(tokens := Moved(s.tokens, Wallet(LP), Buffer, amount).value, hlp := s'.hlp)
    ensures Stage(s', wallet - amount, amount, vault, 0, total + minted, 0)
  {
    TransferOk(s.tokens, Wallet(LP), Buffer, amount);
    hide SoleLp, Moved, Balance;
  }

  lemma MintToLp(b: Book, total: nat, shares: u128)
    requires SoleLp(b, total, 0) && total + shares <= U128_MAX && shares > 0
    ensures Mint(b, LP, shares).Ok? && SoleLp(Mint(b, LP, shares).value, total + shares, 0)
  {
  }

  lemma SharesAtZero(b: Book, amount: u128)
    requires b.feeBps == 0 && amount > 0 && b.total + VIRTUAL_SHARES <= U128_MAX
    requires amount * (b.total + 1_000_000) <= U128_MAX
    ensures DepositShares(b, amount, 0).Ok? && DepositShares(b, amount, 0).value == amount * (b.total + 1_000_000) > 0
  {
    MulMono(1, amount, b.total + 1_000_000);
    DivModUnique(amount * (b.total + 1_000_000), 1, amount * (b.total + 1_000_000), 0);
    assert NetOfFee(amount, 0).Ok? && NetOfFee(amount, 0).value == amount;
    hide NetOfFee, FairMint;
  }

  lemma TransferOk(tokens: map<Account, nat>, from: Account, to: Account, amount: u128)
    requires from != to && amount <= U64_MAX && amount <= Balance(tokens, from)
    ensures Moved(tokens, from, to, amount).Ok?
    ensures var t := Moved(tokens, from, to, amount).value;
            && Balance(t, from) == Balance(tokens, from) - amount && Balance(t, to) == Balance(tokens, to) + amount
            && forall a :: a != from && a != to ==> Balance(t, a) == Balance(tokens, a)
  {
  }

  lemma DeployAll(s: State, wallet: nat, vault: u128, total: nat, amount: u128)
    requires Stage(s, wallet, amount, vault, 0, total, 0) && amount > 0 && vault + amount <= MAX_VAULT_TVL
    ensures Step(s, 0, DeployHlp(amount)).Ok?
    ensures Stage(Next(s, 0, DeployHlp(amount)), wallet, 0, vault + amount, amount, total, 0)
  {
    TransferOk(s.tokens, Buffer, Vault, amount);
    assert EngineDeposit(FlatEngine(vault), Flat(0), amount).Ok?;
    hide Moved, SoleLp;
  }

  /** The House loses all its capital to the trader. */
  function Loss(vault: u128): Op {
    EngineMove(FlatEngine(vault), Flat(0), map[TRADER := Flat(vault)])
  }

  lemma LoseAll(s: State, wallet: nat, vault: u128, house: u128, total: nat)
    requires Stage(s, wallet, 0, vault, house, total, 0)
    ensures Step(s, 0, Loss(vault)).Ok?
    ensures Stage(Next(s, 0, Loss(vault)), wallet, 0, vault, 0, total, 0)
  {
    TraderCapital(vault);
    hide SumMap, Capitals, SoleLp;
  }

  lemma TraderCapital(vault: u128)
    ensures CapitalCovered(FlatEngine(vault), Flat(0), map[TRADER := Flat(vault)])
  {
    SumUpdates(map[], TRADER, vault);
    assert Capitals(map[TRADER := Flat(vault)]) == map[][TRADER := vault as nat];
    assert SumMap<Owner>(map[]) == 0;
  }

  lemma RequestShares(s: State, wallet: nat, buffer: nat, vault: u128, total: nat, shares: u128)
    requires Stage(s, wallet, buffer, vault, 0, total, 0) && 0 < shares <= total
    ensures Step(s, 0, RequestRedeem(Hlp, LP, shares)).Ok?
    ensures Stage(Next(s, 0, RequestRedeem(Hlp, LP, shares)), wallet, buffer, vault, 0, total, shares)
  {
  }

  /** At a NAV of zero a partial redemption burns its shares and pays nothing. */
  lemma RedeemForNothing(s: State, wallet: nat, vault: u128, total: nat, shares: u128)
    requires Stage(s, wallet, 0, vault, 0, total, shares) && 0 < shares < total && total + VIRTUAL_SHARES <= U128_MAX
    ensures Step(s, 0, ExecuteHlp(LP)).Ok?
    ensures Stage(Next(s, 0, ExecuteHlp(LP)), wallet, 0, vault, 0, total - shares, 0)
  {
    hide *;
    RedeemQuote(s, wallet, vault, total, shares);
    ExecuteMeans(s);
    Restaged(s, Next(s, 0, ExecuteHlp(LP)), wallet, vault, total, shares);
  }

  lemma RedeemQuote(s: State, wallet: nat, vault: u128, total: nat, shares: u128)
    requires Stage(s, wallet, 0, vault, 0, total, shares) && 0 < shares < total && total + VIRTUAL_SHARES <= U128_MAX
    ensures s.houseReady && s.hlp.Some? && HlpNav(s).Ok? && HlpNav(s).value == 0 && LP in s.hlp.value.positions
    ensures Redeemable(s.hlp.value, 0, LP).Ok? && Redeemable(s.hlp.value, 0, LP).value == shares
    ensures s.hlp.value.positions[LP].pending == shares <= s.hlp.value.positions[LP].shares
    ensures Payout(s.hlp.value, shares, 0).Ok? && Payout(s.hlp.value, shares, 0).value == 0
    ensures Moved(s.tokens, Buffer, Wallet(LP), 0).Ok? && SoleLp(Burn(s.hlp.value, LP), total - shares, 0)
  {
    hide *;
    NavOfStage(s, wallet, 0, vault, total, shares);
    StageMeans(s, wallet, 0, vault, total, shares);
    SoleLpMeans(s.hlp.value, total, shares);
    NothingIsPaid(s.hlp.value, shares);
    TransferOk(s.tokens, Buffer, Wallet(LP), 0);
    LpIsDue(s.hlp.value, total, shares);
  }

  lemma StageMeans(s: State, wallet: nat, buffer: nat, vault: u128, total: nat, pending: nat)
    requires Stage(s, wallet, buffer, vault, 0, total, pending)
    ensures s.houseReady && s.hlp.Some? && SoleLp(s.hlp.value, total, pending)
    ensures Balance(s.tokens, Buffer) == buffer && Balance(s.tokens, Wallet(LP)) == wallet
    ensures BookFor(s, Hlp) == s.hlp
  {
    hide SoleLp, Balance;
  }

  lemma Restaged(s: State, s': State, wallet: nat, vault: u128, total: nat, shares: nat)
    requires Stage(s, wallet, 0, vault, 0, total, shares) && shares <= total
    requires Moved(s.tokens, Buffer, Wallet(LP), 0).Ok? && s'.hlp.Some? && SoleLp(s'.hlp.value, total - shares, 0)
    requires s' == s.(tokens := Moved(s.tokens, Buffer, Wallet(LP), 0).value, hlp := s'.hlp)
    ensures Stage(s', wallet, 0, vault, 0, total - shares, 0)
  {
    hide SoleLp;
  }

  lemma SoleLpMeans(b: Book, total: nat, pending: nat)
    requires SoleLp(b, total, pending)
    ensures b.feeBps == 0 && b.total == total && b.minDeposit == 0
  {
  }

  /** A due redemption that pays nothing changes only the register. */
  lemma ExecuteMeans(s: State)
    requires s.houseReady && s.hlp.Some? && HlpNav(s).Ok? && HlpNav(s).value == 0 && LP in s.hlp.value.positions
    requires Redeemable(s.hlp.value, 0, LP).Ok?
    requires s.hlp.value.positions[LP].pending == Redeemable(s.hlp.value, 0, LP).value
          <= s.hlp.value.positions[LP].shares
    requires Payout(s.hlp.value, Redeemable(s.hlp.value, 0, LP).value, 0).Ok?
    requires Payout(s.hlp.value, Redeemable(s.hlp.value, 0, LP).value, 0).value == 0
    requires Moved(s.tokens, Buffer, Wallet(LP), 0).Ok?
    ensures Step(s, 0, ExecuteHlp(LP)).Ok?
    ensures Next(s, 0, ExecuteHlp(LP))
         == s.(tokens := Moved(s.tokens, Buffer, Wallet(LP), 0).value, hlp := Some(Burn(s.hlp.value, LP)))
  {
    hide HlpNav, Payout, Moved, Balance, Redeemable, Burn;
  }

  lemma LpIsDue(b: Book, total: nat, shares: nat)
    requires SoleLp(b, total, shares) && 0 < shares <= total
    ensures Redeemable(b, 0, LP).Ok? && Redeemable(b, 0, LP).value == shares
    ensures LP in b.positions && b.positions[LP].pending == shares <= b.positions[LP].shares
    ensures PositionOf(b, LP).pending == shares
    ensures SoleLp(Burn(b, LP), total - shares, 0)
  {
  }

  lemma NothingIsPaid(b: Book, shares: u128)
    requires b.feeBps == 0 && shares < b.total && b.total + VIRTUAL_SHARES <= U128_MAX
    ensures Payout(b, shares, 0).Ok? && Payout(b, shares, 0).value == 0
  {
    DivModUnique(shares, b.total + VIRTUAL_SHARES, 0, shares);
    assert shares * 1 == shares;
    assert NetOfFee(0, 0).Ok? && NetOfFee(0, 0).value == 0;
    hide NetOfFee, FairPayout;
  }

  // ---------- runs ----------

  lemma {:induction false} RunsCompose(s: State, r1: Run, r2: Run)
    ensures After(s, r1 + r2) == After(After(s, r1), r2)
  {
    hide Step, Next;
    if |r2| == 0 {
      assert r1 + r2 == r1;
    } else {
      var n := |r2| - 1;
      RunsCompose(s, r1, r2[..n]);
      assert (r1 + r2)[..|r1| + n] == r1 + r2[..n];
    }
  }

  lemma RunOfOne(s: State, op: Op)
    ensures After(s, [(0, op)]) == Next(s, 0, op)
  {
    hide Step, Next;
    var r: Run := [(0, op)];
    assert r[..0] == [];
  }

  /** Deposit, deploy, lose: the vault is worthless again and the total has grown. */
  function Cycle(vault: u128, amount: u128): Run
    requires vault + amount <= U128_MAX
  {
    [(0, DepositHlp(LP, amount))] + [(0, DeployHlp(amount))] + [(0, Loss(vault + amount))]
  }

  lemma CycleGrows(s: State, wallet: nat, vault: u128, total: nat, amount: u128)
    requires Stage(s, wallet, 0, vault, 0, total, 0) && 0 < amount <= wallet && amount <= U64_MAX
    requires total + amount * (total + 1_000_000) <= U128_MAX && total + VIRTUAL_SHARES <= U128_MAX
    requires amount * (total + 1_000_000) <= U128_MAX && vault + amount <= MAX_VAULT_TVL
    ensures amount * (total + 1_000_000) >= 0
    ensures Stage(After(s, Cycle(vault, amount)), wallet - amount, 0, vault + amount, 0,
              total + amount * (total + 1_000_000), 0)
  {
    hide Stage, Step, Next, Loss, After;
    var total1 := total + amount * (total + 1_000_000);
    var a, b, c := DepositHlp(LP, amount), DeployHlp(amount), Loss(vault + amount);
    DepositAtZero(s, wallet, vault, total, amount);
    var s1 := Next(s, 0, a);
    DeployAll(s1, wallet - amount, vault, total1, amount);
    var s2 := Next(s1, 0, b);
    LoseAll(s2, wallet - amount, vault + amount, amount, total1);
    RunOfOne(s, a);
    RunOfOne(s1, b);
    RunOfOne(s2, c);
    RunsCompose(s, [(0, a)], [(0, b)]);
    RunsCompose(s, [(0, a)] + [(0, b)], [(0, c)]);
  }

  const START_TOKENS: nat := 500_000_000

  /** A new market, half a billion atoms in the LP's wallet. */
  function Start(): State {
    NewMarket(map[Wallet(LP) := START_TOKENS], 0, false)
  }

  function Setup(): Run {
    [(0, CreateHouse)] + [(0, InitPortfolio(TRADER))] + [(0, SetLpParams(Hlp, 0, 0, 0, 0))]
  }

  lemma SetupStage()
    ensures Stage(After(Start(), Setup()), START_TOKENS, 0, 0, 0, 0, 0)
  {
    var s := Start();
    var a, b, c := CreateHouse, InitPortfolio(TRADER), SetLpParams(Hlp, 0, 0, 0, 0);
    var s1 := Next(s, 0, a);
    var s2 := Next(s1, 0, b);
    assert Stage(Next(s2, 0, c), START_TOKENS, 0, 0, 0, 0, 0);
    hide *;
    RunOfOne(s, a);
    RunOfOne(s1, b);
    RunOfOne(s2, c);
    RunsCompose(s, [(0, a)], [(0, b)]);
    RunsCompose(s, [(0, a)] + [(0, b)], [(0, c)]);
    assert Setup() == [(0, a)] + [(0, b)] + [(0, c)] by {
      SetupMeans();
    }
  }

  lemma SetupMeans()
    ensures Setup() == [(0, CreateHouse)] + [(0, InitPortfolio(TRADER))] + [(0, SetLpParams(Hlp, 0, 0, 0, 0))]
  {
  }

  /** The total at which a deposit of two atoms at NAV 0 saturates total + 10^6. */
  const READY: nat := U128_MAX / 3 - 666_667

  const GROWN: nat := 200_000_000_000_000_000_000_000_000_000_000_000_000 - 1_000_000

  /** Four cycles multiply total + 10^6 by 2 * 10^32. */
  function Growth(): Run {
    Cycle(0, 199_999_999) + Cycle(199_999_999, 99_999_999) + Cycle(299_999_998, 99_999_999)
    + Cycle(399_999_997, 99_999_999)
  }

  lemma GrowthStage(s: State)
    requires Stage(s, START_TOKENS, 0, 0, 0, 0, 0)
    ensures Stage(After(s, Growth()), 4, 0, 499_999_996, 0, GROWN, 0)
  {
    hide Stage, After, Cycle;
    var c1, c2 := Cycle(0, 199_999_999), Cycle(199_999_999, 99_999_999);
    var c3, c4 := Cycle(299_999_998, 99_999_999), Cycle(399_999_997, 99_999_999);
    CycleGrows(s, START_TOKENS, 0, 0, 199_999_999);
    var s1 := After(s, c1);
    CycleGrows(s1, 300_000_001, 199_999_999, 199_999_999_000_000, 99_999_999);
    var s2 := After(s1, c2);
    CycleGrows(s2, 200_000_002, 299_999_998, 19_999_999_999_999_999_000_000, 99_999_999);
    var s3 := After(s2, c3);
    CycleGrows(s3, 100_000_003, 399_999_997, 1_999_999_999_999_999_999_999_999_000_000, 99_999_999);
    RunsCompose(s, c1, c2);
    RunsCompose(s, c1 + c2, c3);
    RunsCompose(s, c1 + c2 + c3, c4);
  }

  /** Burn down to READY, deposit two atoms, queue a third of u128::MAX shares. */
  const FINISH: Run :=
    [(0, RequestRedeem(Hlp, LP, GROWN - READY))] + [(0, ExecuteHlp(LP))]
    + [(0, DepositHlp(LP, 2))] + [(0, RequestRedeem(Hlp, LP, U128_MAX / 3))]

  lemma FinishStage(s: State)
    requires Stage(s, 4, 0, 499_999_996, 0, GROWN, 0)
    ensures Stage(After(s, FINISH), 2, 2, 499_999_996, 0, U128_MAX - 1, U128_MAX / 3)
  {
    hide Stage, After, Step, Next;
    var a, b := RequestRedeem(Hlp, LP, GROWN - READY), ExecuteHlp(LP);
    var c, d := DepositHlp(LP, 2), RequestRedeem(Hlp, LP, U128_MAX / 3);
    RequestShares(s, 4, 0, 499_999_996, GROWN, GROWN - READY);
    var s1 := Next(s, 0, a);
    RedeemForNothing(s1, 4, 499_999_996, GROWN, GROWN - READY);
    var s2 := Next(s1, 0, b);
    DepositAtZero(s2, 4, 499_999_996, READY, 2);
    var s3 := Next(s2, 0, c);
    RequestShares(s3, 2, 2, 499_999_996, U128_MAX - 1, U128_MAX / 3);
    RunOfOne(s, a);
    RunOfOne(s1, b);
    RunOfOne(s2, c);
    RunOfOne(s3, d);
    RunsCompose(s, [(0, a)], [(0, b)]);
    RunsCompose(s, [(0, a)] + [(0, b)], [(0, c)]);
    RunsCompose(s, [(0, a)] + [(0, b)] + [(0, c)], [(0, d)]);
  }

  function OverpayingRun(): Run {
    Setup() + Growth() + FINISH
  }

  lemma RunStage()
    ensures Stage(After(Start(), OverpayingRun()), 2, 2, 499_999_996, 0, U128_MAX - 1, U128_MAX / 3)
  {
    hide Stage, After, Growth, Start;
    SetupStage();
    var s := After(Start(), Setup());
    GrowthStage(s);
    FinishStage(After(s, Growth()));
    RunsCompose(Start(), Setup(), Growth());
    RunsCompose(Start(), Setup() + Growth(), FINISH);
  }

  /**
   * A new market reaches a state in which the due redemption is overpaid: it succeeds, pays a
   * whole atom for a third of two, and lowers the price of the shares that stay.
   */
  lemma OverpaymentIsReachable()
    ensures var s := After(Start(), OverpayingRun());
            && Inv(s) && Overpays(s, ExecuteHlp(LP), Hlp)
            && Step(s, 0, ExecuteHlp(LP)).Ok?
            && HlpPayout(s, LP) == 1
            && !PriceKept(s, Next(s, 0, ExecuteHlp(LP)), Hlp)
  {
    hide *;
    var s := After(Start(), OverpayingRun());
    RunStage();
    StartIsValid();
    RunKeepsInv(Start(), OverpayingRun());
    OverpaidStage(s);
    PriceFalls(s);
  }

  lemma PriceFalls(s: State)
    requires Inv(s) && Stage(s, 2, 2, 499_999_996, 0, U128_MAX - 1, U128_MAX / 3)
    requires Step(s, 0, ExecuteHlp(LP)).Ok?
    ensures !PriceKept(s, Next(s, 0, ExecuteHlp(LP)), Hlp)
  {
    hide Step, Next, HlpNav, Payout, NavOf, TotalOf, Inv, Balance, PositionOf, Burn, Redeemable, AdjustedEquity, SumMap,
      Stage, SoleLp, PriceKept, BookFor, IsRedemption, Overpaid;
    NavOfStage(s, 2, 2, 499_999_996, U128_MAX - 1, U128_MAX / 3);
    assert IsRedemption(ExecuteHlp(LP), Hlp) by {
      ExecuteIsRedemption();
    }
    StageMeans(s, 2, 2, 499_999_996, U128_MAX - 1, U128_MAX / 3);
    SoleLpMeans(s.hlp.value, U128_MAX - 1, U128_MAX / 3);
    LpIsDue(s.hlp.value, U128_MAX - 1, U128_MAX / 3);
    ThirdPaysOne(s.hlp.value);
    RedemptionChanges(s, 0, ExecuteHlp(LP), Hlp);
    NextMeans(s, 0, ExecuteHlp(LP));
    PriceFallsBetween(s, Next(s, 0, ExecuteHlp(LP)));
  }

  lemma ExecuteIsRedemption()
    ensures IsRedemption(ExecuteHlp(LP), Hlp)
  {
  }

  lemma PriceFallsBetween(s: State, s': State)
    requires TotalOf(s, Hlp) == U128_MAX - 1 && NavOf(s, Hlp) == 2
    requires TotalOf(s', Hlp) == U128_MAX - 1 - U128_MAX / 3 && NavOf(s', Hlp) == 1
    ensures !PriceKept(s, s', Hlp)
  {
    hide NavOf, TotalOf;
  }

  lemma StartIsValid()
    ensures Inv(Start())
  {
    SumUpdates(map[], Wallet(LP), START_TOKENS);
    assert SumMap<Account>(map[]) == 0;
    assert map[Wallet(LP) := START_TOKENS] == map[][Wallet(LP) := START_TOKENS];
    NewMarketIsValid(map[Wallet(LP) := START_TOKENS], 0, false);
    hide Inv, SumMap;
  }

  lemma OverpaidStage(s: State)
    requires Stage(s, 2, 2, 499_999_996, 0, U128_MAX - 1, U128_MAX / 3)
    ensures Overpays(s, ExecuteHlp(LP), Hlp) && Step(s, 0, ExecuteHlp(LP)).Ok? && HlpPayout(s, LP) == 1
  {
    hide HlpNav, Payout, Moved, NavOf, TotalOf, Balance, Redeemable, PositionOf, Overpaid, Stage, SoleLp, Step,
      Overpays, HlpPayout, Burn, BookFor;
    StageMeans(s, 2, 2, 499_999_996, U128_MAX - 1, U128_MAX / 3);
    SoleLpMeans(s.hlp.value, U128_MAX - 1, U128_MAX / 3);
    NavOfStage(s, 2, 2, 499_999_996, U128_MAX - 1, U128_MAX / 3);
    ThirdPaysOne(s.hlp.value);
    LpIsDue(s.hlp.value, U128_MAX - 1, U128_MAX / 3);
    OverpaidQuote(s);
  }

  lemma OverpaidQuote(s: State)
    requires s.houseReady && s.hlp.Some? && HlpNav(s).Ok? && HlpNav(s).value == 2 == NavOf(s, Hlp)
    requires TotalOf(s, Hlp) == U128_MAX - 1 && Balance(s.tokens, Buffer) == 2
    requires Redeemable(s.hlp.value, 0, LP).Ok? && Redeemable(s.hlp.value, 0, LP).value == U128_MAX / 3
    requires PositionOf(s.hlp.value, LP).pending == U128_MAX / 3 && LP in s.hlp.value.positions
    requires Payout(s.hlp.value, U128_MAX / 3, 2).Ok? && Payout(s.hlp.value, U128_MAX / 3, 2).value == 1
    requires Overpaid(U128_MAX / 3, U128_MAX - 1, 2)
    ensures Overpays(s, ExecuteHlp(LP), Hlp) && Step(s, 0, ExecuteHlp(LP)).Ok? && HlpPayout(s, LP) == 1
  {
    TransferOk(s.tokens, Buffer, Wallet(LP), 1);
    hide HlpNav, Payout, Moved, NavOf, TotalOf, Balance, Redeemable, PositionOf, Overpaid, Burn;
  }

  lemma ThirdPaysOne(b: Book)
    requires b.feeBps == 0 && b.total == U128_MAX - 1
    ensures Payout(b, U128_MAX / 3, 2).Ok? && Payout(b, U128_MAX / 3, 2).value == 1
    ensures Overpaid(U128_MAX / 3, U128_MAX - 1, 2)
  {
    SaturatedQuotient(U128_MAX);
    assert NetOfFee(1, 0).Ok? && NetOfFee(1, 0).value == 1;
    hide NetOfFee, FairPayout;
  }
}
