/**
 * Whose money an instruction moves: nobody but the caller gains or loses tokens, shares or
 * capital, the caller pays exactly the external flow, and a deposit can be taken back out.
 */
module Isolation {
  import opened Wrappers
  import opened Words
  import opened LpBook
  import opened MarketSteps
  import opened Custody
  import opened Timelocks

  /** The user who signs an instruction, where the model names one. */
  function Caller(op: Op): Option<Owner> {
    match op
    case InitPortfolio(who) => Some(who)
    case Deposit(who, _, _) => Some(who)
    case Withdraw(who, _) => Some(who)
    case FundHouse(who, _) => Some(who)
    case WithdrawHouse(who, _) => Some(who)
    case DepositHlp(who, _) => Some(who)
    case ExecuteHlp(who) => Some(who)
    case DepositInsLp(who, _) => Some(who)
    case ExecuteInsLp(who) => Some(who)
    case RequestRedeem(_, who, _) => Some(who)
    case FundInsurance(who, _, _, _) => Some(who)
    case ExecuteInsurance(who) => Some(who)
    case Donate(who, _, _) => Some(who)
    case _ => None
  }

  predicate Involves(op: Op, o: Owner) {
    Caller(op) == Some(o) || (op.Donate? && op.to == Wallet(o))
  }

  /** What a user owns outside the engine: tokens and the two LP positions. */
  datatype Stake = Stake(tokens: nat, hlp: Position, inslp: Position)

  function StakeOf(s: State, o: Owner): Stake {
    Stake(Balance(s.tokens, Wallet(o)), PositionIn(s, Hlp, o), PositionIn(s, InsLp, o))
  }

  function PortfolioOf(s: State, o: Owner): Option<Portfolio> {
    if o in s.portfolios then Some(s.portfolios[o]) else None
  }

  predicate IsLpOp(op: Op) {
    op.DepositHlp? || op.ExecuteHlp? || op.DepositInsLp? || op.ExecuteInsLp?
  }

  lemma LpStepLeavesWallet(s: State, now: u64, op: Op, o: Owner)
    requires !Involves(op, o) && Step(s, now, op).Ok? && IsLpOp(op)
    ensures Balance(Step(s, now, op).value.tokens, Wallet(o)) == Balance(s.tokens, Wallet(o))
  {
    hide HlpNav, DepositShares, Payout, Mint, Burn, Redeemable, InsuranceIn, InsuranceOut;
  }

  lemma OtherStepLeavesWallet(s: State, now: u64, op: Op, o: Owner)
    requires !Involves(op, o) && Step(s, now, op).Ok? && !IsLpOp(op)
    ensures Balance(Step(s, now, op).value.tokens, Wallet(o)) == Balance(s.tokens, Wallet(o))
  {
    if OnAccounts(op) {
      AccountStepLeavesWallet(s, now, op, o);
    } else {
      FundStepLeavesWallet(s, now, op, o);
    }
    hide Step;
  }

  lemma AccountStepLeavesWallet(s: State, now: u64, op: Op, o: Owner)
    requires !Involves(op, o) && Step(s, now, op).Ok? && OnAccounts(op)
    ensures Balance(Step(s, now, op).value.tokens, Wallet(o)) == Balance(s.tokens, Wallet(o))
  {
    hide EngineDeposit, EngineWithdraw, DepositCap, CapitalCovered;
  }

  lemma FundStepLeavesWallet(s: State, now: u64, op: Op, o: Owner)
    requires !Involves(op, o) && Step(s, now, op).Ok? && !OnAccounts(op) && !IsLpOp(op)
    ensures Balance(Step(s, now, op).value.tokens, Wallet(o)) == Balance(s.tokens, Wallet(o))
  {
    hide Request, InsuranceIn, InsuranceOut;
  }

  lemma PositionUntouched(s: State, now: u64, op: Op, kind: LpKind, o: Owner)
    requires !Involves(op, o) && Step(s, now, op).Ok?
    ensures PositionIn(Step(s, now, op).value, kind, o) == PositionIn(s, kind, o)
  {
    if WritesBook(op) {
      WriterLeavesPosition(s, now, op, kind, o);
    } else {
      BooksUntouched(s, now, op);
    }
    hide Step;
  }

  lemma WriterLeavesPosition(s: State, now: u64, op: Op, kind: LpKind, o: Owner)
    requires !Involves(op, o) && Step(s, now, op).Ok? && WritesBook(op)
    ensures PositionIn(Step(s, now, op).value, kind, o) == PositionIn(s, kind, o)
  {
    if op.RequestRedeem? || op.SetLpParams? {
      TermsLeavePosition(s, now, op, kind, o);
    } else {
      TradesLeavePosition(s, now, op, kind, o);
    }
    hide Step;
  }

  lemma TermsLeavePosition(s: State, now: u64, op: Op, kind: LpKind, o: Owner)
    requires !Involves(op, o) && Step(s, now, op).Ok? && (op.RequestRedeem? || op.SetLpParams?)
    ensures PositionIn(Step(s, now, op).value, kind, o) == PositionIn(s, kind, o)
  {
  }

  lemma TradesLeavePosition(s: State, now: u64, op: Op, kind: LpKind, o: Owner)
    requires !Involves(op, o) && Step(s, now, op).Ok? && WritesBook(op) && !op.RequestRedeem? && !op.SetLpParams?
    ensures PositionIn(Step(s, now, op).value, kind, o) == PositionIn(s, kind, o)
  {
    hide HlpNav, DepositShares, Payout, Moved, InsuranceIn, InsuranceOut;
  }

  /** No instruction, nor anything the engine does, touches the tokens or shares of a bystander. */
  lemma BystandersKeepTheirStake(s: State, now: u64, op: Op, o: Owner)
    requires !Involves(op, o)
    ensures StakeOf(Next(s, now, op), o) == StakeOf(s, o)
    ensures !op.EngineMove? ==> PortfolioOf(Next(s, now, op), o) == PortfolioOf(s, o)
  {
    if Step(s, now, op).Ok? {
      if IsLpOp(op) {
        LpStepLeavesWallet(s, now, op, o);
      } else {
        OtherStepLeavesWallet(s, now, op, o);
      }
      PositionUntouched(s, now, op, Hlp, o);
      PositionUntouched(s, now, op, InsLp, o);
      PortfolioUntouched(s, now, op, o);
    }
    hide Step;
  }

  lemma PortfolioUntouched(s: State, now: u64, op: Op, o: Owner)
    requires !Involves(op, o) && Step(s, now, op).Ok?
    ensures !op.EngineMove? ==> PortfolioOf(Step(s, now, op).value, o) == PortfolioOf(s, o)
  {
    hide HlpNav, DepositShares, Payout, Mint, Burn, Request, Redeemable, Moved, EngineDeposit, EngineWithdraw,
      InsuranceIn, InsuranceOut;
  }

  /** Over any run a user takes no part in, what the user owns does not change. */
  lemma {:induction false} RunLeavesBystandersAlone(s: State, run: Run, o: Owner)
    requires forall i :: 0 <= i < |run| ==> !Involves(run[i].1, o)
    ensures StakeOf(After(s, run), o) == StakeOf(s, o)
  {
    if |run| > 0 {
      var n := |run| - 1;
      RunLeavesBystandersAlone(s, run[..n], o);
      BystandersKeepTheirStake(After(s, run[..n]), run[n].0, run[n].1, o);
      hide Step, StakeOf, Involves;
    }
  }

  /** The caller's wallet pays in, or is paid, exactly the external flow of the instruction. */
  lemma CallerPaysTheFlow(s: State, now: u64, op: Op, o: Owner)
    requires Caller(op) == Some(o) && !(op.Donate? && op.to.Wallet?)
    ensures Balance(Next(s, now, op).tokens, Wallet(o)) == Balance(s.tokens, Wallet(o)) - ExternalFlow(s, now, op)
  {
    if IsLpOp(op) {
      LpCallerPays(s, now, op, o);
    } else {
      OtherCallerPays(s, now, op, o);
    }
    hide Step, ExternalFlow;
  }

  lemma LpCallerPays(s: State, now: u64, op: Op, o: Owner)
    requires Caller(op) == Some(o) && IsLpOp(op)
    ensures Balance(Next(s, now, op).tokens, Wallet(o)) == Balance(s.tokens, Wallet(o)) - ExternalFlow(s, now, op)
  {
    if op.DepositHlp? || op.ExecuteHlp? {
      HlpCallerPays(s, now, op, o);
    } else {
      InsLpCallerPays(s, now, op, o);
    }
    hide Step, ExternalFlow;
  }

  lemma HlpCallerPays(s: State, now: u64, op: Op, o: Owner)
    requires Caller(op) == Some(o) && (op.DepositHlp? || op.ExecuteHlp?)
    ensures Balance(Next(s, now, op).tokens, Wallet(o)) == Balance(s.tokens, Wallet(o)) - ExternalFlow(s, now, op)
  {
    hide HlpNav, DepositShares, Payout, Mint, Burn;
  }

  lemma InsLpCallerPays(s: State, now: u64, op: Op, o: Owner)
    requires Caller(op) == Some(o) && (op.DepositInsLp? || op.ExecuteInsLp?)
    ensures Balance(Next(s, now, op).tokens, Wallet(o)) == Balance(s.tokens, Wallet(o)) - ExternalFlow(s, now, op)
  {
    if op.DepositInsLp? {
      InsLpDepositorPays(s, now, op, o);
    } else {
      InsLpRedeemerIsPaid(s, now, op, o);
    }
    hide Step, ExternalFlow;
  }

  lemma InsLpDepositorPays(s: State, now: u64, op: Op, o: Owner)
    requires Caller(op) == Some(o) && op.DepositInsLp?
    ensures Balance(Next(s, now, op).tokens, Wallet(o)) == Balance(s.tokens, Wallet(o)) - ExternalFlow(s, now, op)
  {
    hide DepositShares, Mint, InsuranceIn;
  }

  lemma InsLpRedeemerIsPaid(s: State, now: u64, op: Op, o: Owner)
    requires Caller(op) == Some(o) && op.ExecuteInsLp?
    ensures Balance(Next(s, now, op).tokens, Wallet(o)) == Balance(s.tokens, Wallet(o)) - ExternalFlow(s, now, op)
  {
    hide Payout, Burn, InsuranceOut;
  }

  lemma OtherCallerPays(s: State, now: u64, op: Op, o: Owner)
    requires Caller(op) == Some(o) && !IsLpOp(op) && !(op.Donate? && op.to.Wallet?)
    ensures Balance(Next(s, now, op).tokens, Wallet(o)) == Balance(s.tokens, Wallet(o)) - ExternalFlow(s, now, op)
  {
    if OnAccounts(op) {
      AccountCallerPays(s, now, op, o);
    } else {
      FundCallerPays(s, now, op, o);
    }
    hide Step, ExternalFlow;
  }

  lemma AccountCallerPays(s: State, now: u64, op: Op, o: Owner)
    requires Caller(op) == Some(o) && OnAccounts(op) && !(op.Donate? && op.to.Wallet?)
    ensures Balance(Next(s, now, op).tokens, Wallet(o)) == Balance(s.tokens, Wallet(o)) - ExternalFlow(s, now, op)
  {
    hide EngineDeposit, EngineWithdraw, DepositCap, CapitalCovered;
  }

  lemma FundCallerPays(s: State, now: u64, op: Op, o: Owner)
    requires Caller(op) == Some(o) && !OnAccounts(op) && !IsLpOp(op)
    ensures Balance(Next(s, now, op).tokens, Wallet(o)) == Balance(s.tokens, Wallet(o)) - ExternalFlow(s, now, op)
  {
    hide Request, InsuranceIn, InsuranceOut;
  }

  // ---------- deposits come back ----------

  /** When a deposit can be withdrawn again at once. */
  predicate CanLeave(s: State, p: Portfolio) {
    && s.engine.live && p.idle && 0 - p.pnl <= s.engine.cTot
    && CoversFees(p.capital, p.pnl, p.feeCredits)
    && p.capital + Loss(p) < HALF128 && p.capital + p.pnl < HALF128 && p.feeCredits > -HALF128
  }

  /** A negative PnL, or nothing. */
  function Loss(p: Portfolio): int {
    if p.pnl < 0 then p.pnl else 0
  }

  /**
   * A deposit can be taken straight out again if and only if the market is live and the
   * account idle and solvent; the wallet, the vault and V are then back where they were, and
   * the account has only settled its own losses.
   */
  lemma DepositThenWithdraw(s: State, now: u64, later: u64, who: Owner, amount: u128, capShown: bool)
    requires Step(s, now, Deposit(who, amount, capShown)).Ok? && amount > 0
    ensures who in s.portfolios
    ensures var s1 := Step(s, now, Deposit(who, amount, capShown)).value;
            Step(s1, later, Withdraw(who, amount)).Ok? <==> CanLeave(s, s.portfolios[who])
    ensures var s1, p := Step(s, now, Deposit(who, amount, capShown)).value, s.portfolios[who];
            var s2 := Next(s1, later, Withdraw(who, amount));
            CanLeave(s, p) ==>
              && (forall a :: Balance(s2.tokens, a) == Balance(s.tokens, a))
              && s2.engine == s.engine.(cTot := s.engine.cTot + Loss(p))
              && s2.portfolios == s.portfolios[who := p.(capital := p.capital + Loss(p), pnl := p.pnl - Loss(p))]
  {
    EngineRoundTrip(s.engine, s.portfolios[who], amount);
    TokensRoundTrip(s.tokens, Wallet(who), Vault, amount);
    hide EngineDeposit, EngineWithdraw, Moved, RawEquity, CoversFees;
  }

  lemma EngineRoundTrip(e: Engine, p: Portfolio, amount: u128)
    requires amount > 0 && EngineDeposit(e, p, amount).Ok?
    ensures var (e1, p1) := EngineDeposit(e, p, amount).value;
            var out := EngineWithdraw(e1, p1, amount);
            var ok := && e.live && p.idle && 0 - p.pnl <= e.cTot
                      && CoversFees(p.capital, p.pnl, p.feeCredits)
                      && p.capital + Loss(p) < HALF128 && p.capital + p.pnl < HALF128 && p.feeCredits > -HALF128;
            && (out.Ok? <==> ok)
            && (ok ==> out.value.0 == e.(cTot := e.cTot + Loss(p)))
            && (ok ==> out.value.1 == p.(capital := p.capital + Loss(p), pnl := p.pnl - Loss(p)))
  {
  }

  lemma TokensRoundTrip(tokens: map<Account, nat>, from: Account, to: Account, amount: u128)
    requires from != to && Moved(tokens, from, to, amount).Ok?
    ensures amount <= U64_MAX
    ensures var t := Moved(tokens, from, to, amount).value;
            && Moved(t, to, from, amount).Ok?
            && forall a :: Balance(Moved(t, to, from, amount).value, a) == Balance(tokens, a)
  {
  }

  /**
   * Insurance put into a domain can be taken out of it again, if and only if nothing is
   * over-promised, and then leaves no trace.
   */
  lemma InsuranceInThenOut(e: Engine, domain: nat, amount: u128)
    requires InsuranceIn(e, domain, amount).Ok?
    ensures domain in e.domains
    ensures var out := InsuranceOut(InsuranceIn(e, domain, amount).value, domain, amount);
            out.Ok? <==> amount == 0 || Unreserved(e, e.domains[domain])
    ensures var out := InsuranceOut(InsuranceIn(e, domain, amount).value, domain, amount);
            out.Ok? ==> out.value == e
  {
    var d := e.domains[domain];
    var raised := e.domains[domain := d.(budget := InsuranceIn(e, domain, amount).value.domains[domain].budget)];
    assert raised[domain := d] == e.domains;
  }

  /** Neither the fund nor the domain has promised more than it holds. */
  predicate Unreserved(e: Engine, d: Domain) {
    e.reserved <= e.insurance && d.spent + d.reserved <= d.budget
  }
}
