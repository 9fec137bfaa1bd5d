/**
 * The two LP vaults over whole runs: while NAV falls only through redemptions, the share
 * price never falls, so no LP loses to another and the capital that was there before the
 * first share is never paid out.
 */
module LpRuns {
  import opened Wrappers
  import opened Arith
  import opened Words
  import opened ShareMath
  import opened Sums
  import opened LpBook
  import opened MarketSteps
  import opened Custody

  function TotalOf(s: State, kind: LpKind): nat {
    var b := BookFor(s, kind);
    if b.None? then 0 else b.value.total
  }

  /** NAV: buffer plus clipped House equity for HLP, the insurance I for InsLP. */
  function NavOf(s: State, kind: LpKind): nat {
    if kind.Hlp? then Balance(s.tokens, Buffer) + Clip(AdjustedEquity(s.house, s.haircutBps))
    else s.engine.insurance
  }

  predicate IsRedemption(op: Op, kind: LpKind) {
    if kind.Hlp? then op.ExecuteHlp? else op.ExecuteInsLp?
  }

  predicate IsLpDeposit(op: Op, kind: LpKind) {
    if kind.Hlp? then op.DepositHlp? else op.DepositInsLp?
  }

  /** A redemption in the one family that shares_to_assets overpays, by one atom. */
  predicate Overpays(s: State, op: Op, kind: LpKind) {
    && IsRedemption(op, kind) && BookFor(s, kind).Some?
    && Overpaid(PositionOf(BookFor(s, kind).value, op.who).pending, TotalOf(s, kind), NavOf(s, kind))
  }

  ghost predicate PriceKept(s: State, s': State, kind: LpKind) {
    PriceHolds(TotalOf(s, kind), NavOf(s, kind), TotalOf(s', kind), NavOf(s', kind))
  }

  lemma SharesWithin(b: Book, owner: Owner)
    requires BookOk(b)
    ensures PositionOf(b, owner).shares <= b.total
  {
    HoldingsUpdate(b, 0, owner, Position(0, 0, 0));
  }

  lemma NavIsSmall(s: State)
    requires Inv(s)
    ensures NavOf(s, InsLp) == s.engine.insurance <= U64_MAX
    ensures HlpNav(s).Ok? ==> HlpNav(s).value == NavOf(s, Hlp) < U128_MAX
  {
    BalanceWithin(s.tokens, Vault);
    BalanceWithin(s.tokens, Buffer);
  }

  // ---------- one step ----------

  /** An LP deposit mints the quoted shares and raises NAV by the whole amount. */
  lemma DepositChanges(s: State, now: u64, op: Op, kind: LpKind)
    requires Inv(s) && IsLpDeposit(op, kind) && Step(s, now, op).Ok?
    ensures BookFor(s, kind).Some? && NavOf(s, kind) <= U128_MAX
    ensures var s', b := Step(s, now, op).value, BookFor(s, kind).value;
            && DepositShares(b, op.amount, NavOf(s, kind)).Ok?
            && TotalOf(s', kind) == b.total + DepositShares(b, op.amount, NavOf(s, kind)).value
            && NavOf(s', kind) == NavOf(s, kind) + op.amount
  {
    hide DepositShares, SumMap, Holdings, BookOk, FairMint, CapitalCovered, AdjustedEquity, HlpNav, Moved;
    NavIsSmall(s);
    InsuranceRises(s.engine, op.amount);
    if kind.Hlp? {
      TransferMoves(s.tokens, Wallet(op.who), Buffer, op.amount);
    }
  }

  lemma InsuranceRises(e: Engine, amount: u128)
    ensures InsuranceIn(e, CANONICAL_DOMAIN, amount).Ok? ==>
              InsuranceIn(e, CANONICAL_DOMAIN, amount).value.insurance == e.insurance + amount
  {
  }

  lemma LpDepositKeepsPrice(s: State, now: u64, op: Op, kind: LpKind)
    requires Inv(s) && IsLpDeposit(op, kind) && Step(s, now, op).Ok?
    ensures PriceKept(s, Step(s, now, op).value, kind)
  {
    DepositChanges(s, now, op, kind);
    NavIsSmall(s);
    hide DepositShares, Step, Inv, NavOf, AdjustedEquity, FairMint;
    var b, nav := BookFor(s, kind).value, NavOf(s, kind);
    FairMintBound(b, op.amount, nav, DepositShares(b, op.amount, nav).value);
    DepositHoldsPrice(op.amount, op.amount, DepositShares(b, op.amount, nav).value, b.total, nav);
  }

  lemma RedemptionKeepsPrice(s: State, now: u64, op: Op, kind: LpKind)
    requires Inv(s) && IsRedemption(op, kind) && Step(s, now, op).Ok?
    requires !Overpays(s, op, kind)
    ensures PriceKept(s, Step(s, now, op).value, kind)
  {
    RedemptionChanges(s, now, op, kind);
    var b, nav := BookFor(s, kind).value, NavOf(s, kind);
    var shares := b.positions[op.who].pending;
    hide Step, Payout, SumMap, Holdings, NavOf, AdjustedEquity, InsuranceOut;
    SharesWithin(b, op.who);
    var out := Payout(b, shares, nav).value;
    FairPayoutBound(b, shares, nav, out);
    RedeemHoldsPrice(shares, out, out, b.total, nav);
  }

  /** A redemption burns exactly the queued shares and lowers NAV by exactly the payout. */
  lemma RedemptionChanges(s: State, now: u64, op: Op, kind: LpKind)
    requires Inv(s) && IsRedemption(op, kind) && Step(s, now, op).Ok?
    ensures BookFor(s, kind).Some? && op.who in BookFor(s, kind).value.positions
    ensures var s', b := Step(s, now, op).value, BookFor(s, kind).value;
            var shares := b.positions[op.who].pending;
            && NavOf(s, kind) <= U128_MAX && Payout(b, shares, NavOf(s, kind)).Ok?
            && TotalOf(s', kind) == b.total - shares
            && NavOf(s', kind) == NavOf(s, kind) - Payout(b, shares, NavOf(s, kind)).value
  {
    hide Payout, Redeemable, Burn, HlpNav, InsuranceOut, Moved, SumMap, Holdings, BookOk, AdjustedEquity,
      CapitalCovered;
    NavIsSmall(s);
    var b := BookFor(s, kind).value;
    BurnIsExact(b, now, op.who);
    RedeemableMeans(b, now, op.who);
    var out := Payout(b, b.positions[op.who].pending, NavOf(s, kind)).value;
    if kind.Hlp? {
      TransferMoves(s.tokens, Buffer, Wallet(op.who), out);
    } else {
      InsuranceFalls(s.engine, out);
    }
  }

  lemma RedeemableMeans(b: Book, now: u64, who: Owner)
    ensures Redeemable(b, now, who).Ok? ==>
              who in b.positions && Redeemable(b, now, who).value == b.positions[who].pending
  {
  }

  lemma InsuranceFalls(e: Engine, amount: u128)
    ensures InsuranceOut(e, CANONICAL_DOMAIN, amount).Ok? ==>
              InsuranceOut(e, CANONICAL_DOMAIN, amount).value.insurance == e.insurance - amount
  {
  }

  /** Only LP deposits and redemptions change the number of shares. */
  lemma TotalFrame(s: State, now: u64, op: Op, kind: LpKind)
    requires !IsRedemption(op, kind) && !IsLpDeposit(op, kind)
    ensures TotalOf(Next(s, now, op), kind) == TotalOf(s, kind)
  {
    if WritesBook(op) {
      WriterTotal(s, now, op, kind);
    } else {
      BooksUntouched(s, now, op);
    }
    hide Step, Next;
  }

  lemma WriterTotal(s: State, now: u64, op: Op, kind: LpKind)
    requires WritesBook(op) && !IsRedemption(op, kind) && !IsLpDeposit(op, kind)
    ensures TotalOf(Next(s, now, op), kind) == TotalOf(s, kind)
  {
    hide HlpNav, DepositShares, Payout, Moved, InsuranceIn, InsuranceOut;
  }

  /** No instruction lowers the share price unless NAV is lost outside the vault. */
  lemma StepKeepsPrice(s: State, now: u64, op: Op, kind: LpKind)
    requires Inv(s) && !Overpays(s, op, kind)
    requires IsRedemption(op, kind) || NavOf(Next(s, now, op), kind) >= NavOf(s, kind)
    ensures PriceKept(s, Next(s, now, op), kind)
  {
    hide Step, NavOf, TotalOf, IsRedemption, IsLpDeposit, Inv, Overpays;
    if Step(s, now, op).Ok? && IsLpDeposit(op, kind) {
      LpDepositKeepsPrice(s, now, op, kind);
    } else if Step(s, now, op).Ok? && IsRedemption(op, kind) {
      RedemptionKeepsPrice(s, now, op, kind);
    } else {
      UnchangedTotal(s, now, op, kind);
      GiftHoldsPrice(TotalOf(s, kind), NavOf(s, kind), NavOf(Next(s, now, op), kind) - NavOf(s, kind));
    }
  }

  lemma UnchangedTotal(s: State, now: u64, op: Op, kind: LpKind)
    requires Step(s, now, op).Err? || (!IsRedemption(op, kind) && !IsLpDeposit(op, kind))
    ensures TotalOf(Next(s, now, op), kind) == TotalOf(s, kind)
    ensures Step(s, now, op).Err? ==> NavOf(Next(s, now, op), kind) == NavOf(s, kind)
  {
    if Step(s, now, op).Ok? {
      TotalFrame(s, now, op, kind);
    }
  }

  // ---------- whole runs ----------

  /** Along the run, NAV falls only when an LP redeems, and no redemption is overpaid. */
  ghost predicate OnlyRedemptionsLowerNav(s: State, run: Run, kind: LpKind) {
    && (forall i :: 0 <= i < |run| ==>
          IsRedemption(run[i].1, kind) || NavOf(Before(s, run, i + 1), kind) >= NavOf(Before(s, run, i), kind))
    && (forall i :: 0 <= i < |run| ==> !Overpays(Before(s, run, i), run[i].1, kind))
  }

  lemma PrefixStates(s: State, run: Run, n: nat, i: nat)
    requires i <= n <= |run|
    ensures Before(s, run[..n], i) == Before(s, run, i)
  {
    assert run[..n][..i] == run[..i];
  }

  lemma LastStep(s: State, run: Run)
    requires |run| > 0
    ensures var n := |run| - 1;
            After(s, run) == Next(Before(s, run, n), run[n].0, run[n].1) == Before(s, run, n + 1)
  {
    assert run[..|run|] == run;
  }

  lemma PrefixOnlyRedemptions(s: State, run: Run, n: nat, kind: LpKind)
    requires n <= |run| && OnlyRedemptionsLowerNav(s, run, kind)
    ensures OnlyRedemptionsLowerNav(s, run[..n], kind)
  {
    hide NavOf, TotalOf, Overpays;
    forall i | 0 <= i <= n
      ensures Before(s, run[..n], i) == Before(s, run, i)
    {
      PrefixStates(s, run, n, i);
    }
  }

  /** The price at any point of the run is at most the price at the end. */
  lemma {:induction false} RunKeepsPrice(s: State, run: Run, i: nat, kind: LpKind)
    requires Inv(s) && i <= |run| && OnlyRedemptionsLowerNav(s, run, kind)
    ensures PriceKept(Before(s, run, i), After(s, run), kind)
  {
    assert run[..|run|] == run;
    if i < |run| {
      var n := |run| - 1;
      RunKeepsInv(s, run[..n]);
      PrefixOnlyRedemptions(s, run, n, kind);
      RunKeepsPrice(s, run[..n], i, kind);
      PrefixStates(s, run, n, i);
      LastStep(s, run);
      var a, b, c := Before(s, run, i), Before(s, run, n), After(s, run);
      assert IsRedemption(run[n].1, kind) || NavOf(Before(s, run, n + 1), kind) >= NavOf(b, kind);
      StepKeepsPrice(b, run[n].0, run[n].1, kind);
      PriceHoldsChains(TotalOf(a, kind), NavOf(a, kind), TotalOf(b, kind), NavOf(b, kind),
        TotalOf(c, kind), NavOf(c, kind));
    }
  }

  /** Nobody's redeemable claim is lowered by anything that happens in such a run. */
  lemma ClaimsNeverFall(s: State, run: Run, i: nat, kind: LpKind, shares: nat)
    requires Inv(s) && i <= |run| && OnlyRedemptionsLowerNav(s, run, kind)
    ensures var a, c := Before(s, run, i), After(s, run);
            Claim(shares, TotalOf(a, kind), NavOf(a, kind)) <= Claim(shares, TotalOf(c, kind), NavOf(c, kind))
  {
    RunKeepsPrice(s, run, i, kind);
    var a, c := Before(s, run, i), After(s, run);
    hide *;
    PriceKeptMeans(a, c, kind);
    ClaimHolds(shares, TotalOf(a, kind), NavOf(a, kind), TotalOf(c, kind), NavOf(c, kind));
  }

  lemma PriceKeptMeans(a: State, c: State, kind: LpKind)
    requires PriceKept(a, c, kind)
    ensures PriceHolds(TotalOf(a, kind), NavOf(a, kind), TotalOf(c, kind), NavOf(c, kind))
  {
  }

  lemma BeforeStart(s: State, run: Run)
    ensures Before(s, run, 0) == s
  {
    assert run[..0] == [];
  }

  /**
   * Started with no shares and a seed NAV F, the vault always satisfies
   * (nav + 1) * 10^6 >= (total + 10^6) * (F + 1); in particular NAV never falls below F.
   */
  lemma SeedIsSafe(s: State, run: Run, kind: LpKind)
    requires Inv(s) && TotalOf(s, kind) == 0 && OnlyRedemptionsLowerNav(s, run, kind)
    ensures var c := After(s, run);
            && (NavOf(c, kind) + 1) * 1_000_000 >= (TotalOf(c, kind) + 1_000_000) * (NavOf(s, kind) + 1)
            && NavOf(c, kind) >= NavOf(s, kind)
  {
    hide *;
    RunKeepsPrice(s, run, 0, kind);
    BeforeStart(s, run);
    var total, nav, seed := TotalOf(After(s, run), kind), NavOf(After(s, run), kind), NavOf(s, kind);
    PriceKeptMeans(s, After(s, run), kind);
    SeedBound(total, nav, seed);
  }

  lemma SeedBound(total: nat, nav: nat, seed: nat)
    requires PriceHolds(0, seed, total, nav)
    ensures (nav + 1) * 1_000_000 >= (total + 1_000_000) * (seed + 1)
    ensures nav >= seed
  {
    MulMono(1_000_000, total + 1_000_000, seed + 1);
    MulCommutes(seed + 1, total + 1_000_000);
  }

  // ---------- what LPs put in and take out ----------

  /** NAV brought in by LP deposits, taken out by redemptions, and gained otherwise. */
  datatype Flows = Flows(deposited: int, redeemed: int, gained: int)

  ghost function NavFlows(s: State, run: Run, kind: LpKind): Flows {
    if |run| == 0 then Flows(0, 0, 0)
    else
      var n := |run| - 1;
      var f := NavFlows(s, run[..n], kind);
      var before := After(s, run[..n]);
      var delta := NavOf(Next(before, run[n].0, run[n].1), kind) - NavOf(before, kind);
      if IsLpDeposit(run[n].1, kind) then f.(deposited := f.deposited + delta)
      else if IsRedemption(run[n].1, kind) then f.(redeemed := f.redeemed - delta)
      else f.(gained := f.gained + delta)
  }

  lemma {:induction false} FlowsAddUp(s: State, run: Run, kind: LpKind)
    ensures var f := NavFlows(s, run, kind);
            NavOf(After(s, run), kind) == NavOf(s, kind) + f.deposited + f.gained - f.redeemed
  {
    hide Step, Next, NavOf;
    if |run| > 0 {
      FlowsAddUp(s, run[..|run| - 1], kind);
    }
  }

  /** LPs together never take out more than they put in plus what the vault earned. */
  lemma LpsTakeOutAtMostTheyPutIn(s: State, run: Run, kind: LpKind)
    requires Inv(s) && TotalOf(s, kind) == 0 && OnlyRedemptionsLowerNav(s, run, kind)
    ensures var f := NavFlows(s, run, kind);
            f.redeemed <= f.deposited + f.gained
  {
    SeedIsSafe(s, run, kind);
    FlowsAddUp(s, run, kind);
    hide *;
  }

  // ---------- InsLP: saturation is unreachable ----------

  ghost predicate InsuranceFallsOnlyByLps(s: State, run: Run) {
    forall i :: 0 <= i < |run| ==>
      run[i].1.ExecuteInsLp? || Before(s, run, i + 1).engine.insurance >= Before(s, run, i).engine.insurance
  }

  lemma SeedRulesOutSaturation(total: nat, nav: nat, seed: nat)
    requires PriceHolds(0, seed, total, nav) && nav <= U64_MAX
    ensures total + VIRTUAL_SHARES <= U128_MAX
  {
    SeedBound(total, nav, seed);
    MulMono(1, seed + 1, total + 1_000_000);
    MulCommutes(seed + 1, total + 1_000_000);
  }

  lemma BelowSaturation(s: State, op: Op, kind: LpKind)
    requires TotalOf(s, kind) + VIRTUAL_SHARES <= U128_MAX
    ensures !Overpays(s, op, kind)
  {
  }

  /** Started without shares, InsLP never comes near saturation, so no hypothesis is needed. */
  lemma {:induction false} InsLpNeverSaturates(s: State, run: Run)
    requires Inv(s) && TotalOf(s, InsLp) == 0 && InsuranceFallsOnlyByLps(s, run)
    ensures OnlyRedemptionsLowerNav(s, run, InsLp)
  {
    if |run| > 0 {
      var n := |run| - 1;
      var prefix := run[..n];
      forall i | 0 <= i <= n
        ensures Before(s, prefix, i) == Before(s, run, i)
      {
        PrefixStates(s, run, n, i);
      }
      assert InsuranceFallsOnlyByLps(s, prefix);
      InsLpNeverSaturates(s, prefix);
      RunKeepsPrice(s, prefix, 0, InsLp);
      BeforeStart(s, prefix);
      RunKeepsInv(s, prefix);
      NavIsSmall(After(s, prefix));
      SeedRulesOutSaturation(TotalOf(After(s, prefix), InsLp), NavOf(After(s, prefix), InsLp), NavOf(s, InsLp));
      BelowSaturation(After(s, prefix), run[n].1, InsLp);
      hide Step, Next, Overpays;
    }
  }

  /**
   * The InsLP promise: over any run in which insurance is not drawn by losses or by the
   * authority, insurance never falls below what it held before the first LP share.
   */
  lemma InsLpSeedIsSafe(s: State, run: Run)
    requires Inv(s) && TotalOf(s, InsLp) == 0 && InsuranceFallsOnlyByLps(s, run)
    ensures After(s, run).engine.insurance >= s.engine.insurance
    ensures NavFlows(s, run, InsLp).redeemed <= NavFlows(s, run, InsLp).deposited + NavFlows(s, run, InsLp).gained
  {
    InsLpNeverSaturates(s, run);
    SeedIsSafe(s, run, InsLp);
    LpsTakeOutAtMostTheyPutIn(s, run, InsLp);
  }
}
