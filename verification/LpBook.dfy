/**
 * The share register both LP vaults keep (crates/program/src/hlp.rs, inslp.rs): the config
 * with total_shares, and one position with one pending redemption slot per LP.
 */
module LpBook {
  import opened Wrappers
  import opened Words
  import opened ShareMath
  import opened Sums

  type Owner = nat

  datatype Error =
    | Uninitialized
    | InvalidOwner
    | InvalidInstruction
    | ArithmeticOverflow
    | Panic
    | BelowMinDeposit
    | InsufficientShares
    | RedeemLocked
    | BufferInsufficient
    | LpClaimsOutstanding
    | HouseLocked
    | ParamLoosened
    | FloorBreach
    | NoPending
    | WithdrawLocked
    | TokenBalance
    | EngineRejected
    | DepositCapExceeded
    | AlreadyInitialized

  datatype Position = Position(shares: u128, pending: u128, unlock: u64)

  datatype Book = Book(total: u128, delay: u64, feeBps: u64, minDeposit: u128, positions: map<Owner, Position>)

  const BPS: u64 := 10_000

  /** An LP without an account holds nothing. */
  function PositionOf(b: Book, owner: Owner): Position {
    if owner in b.positions then b.positions[owner] else Position(0, 0, 0)
  }

  function SaturatingAdd64(a: u64, b: u64): u64 {
    if a + b > U64_MAX then U64_MAX else a + b
  }

  function CheckedAdd(a: u128, b: u128): (r: Result<u128, Error>)
    ensures r == if a + b <= U128_MAX then Ok(a + b) else Err(ArithmeticOverflow)
  {
    if a + b > U128_MAX then Err(ArithmeticOverflow) else Ok(a + b)
  }

  /** The fee kept is the basis points of the amount, rounded down, and never more than the amount. */
  ghost predicate FeeKept(amount: nat, net: nat, feeBps: nat) {
    && net <= amount
    && (feeBps <= 10_000 ==> (amount - net) * 10_000 <= amount * feeBps < (amount - net + 1) * 10_000)
    && (feeBps >= 10_000 ==> net == 0)
  }

  /** The basis-point fee on an amount, and what is left of it; saturates at zero. */
  function NetOfFee(amount: u128, feeBps: u64): (r: Result<u128, Error>)
    ensures r.Ok? <==> amount * feeBps <= U128_MAX
    ensures r.Ok? ==> FeeKept(amount, r.value, feeBps)
  {
    if amount * feeBps > U128_MAX then Err(ArithmeticOverflow)
    else
      var fee := (amount * feeBps) / BPS;
      FeeBounds(amount, feeBps);
      Ok(if fee > amount then 0 else amount - fee)
  }

  lemma FeeBounds(amount: nat, feeBps: nat)
    ensures 0 <= amount * feeBps
    ensures ((amount * feeBps) / BPS) * BPS <= amount * feeBps < ((amount * feeBps) / BPS + 1) * BPS
    ensures feeBps <= BPS ==> (amount * feeBps) / BPS <= amount
    ensures feeBps >= BPS ==> (amount * feeBps) / BPS >= amount
  {
    Arith.MulMono(0, amount, feeBps);
    if feeBps <= BPS {
      Arith.MulMono(feeBps, BPS, amount);
    } else {
      Arith.MulMono(BPS, feeBps, amount);
    }
    Arith.MulCommutes(amount, feeBps);
  }

  function Priced(x: Outcome<u128>): Result<u128, Error> {
    if x.Panicked? then Err(Panic) else Ok(x.value)
  }

  /** Neither offset saturates. */
  predicate Unsaturated(b: Book, nav: int) {
    Shares(b.total) <= U128_MAX && Assets(nav) <= U128_MAX
  }

  /** The shares minted are a positive number, the most that the deposit less its fee is worth. */
  ghost predicate FairMint(b: Book, amount: u128, nav: u128, shares: nat) {
    exists net: u128 :: FeeKept(amount, net, b.feeBps) && shares > 0
      && (!Overminted(net, b.total, nav) ==> shares * Assets(nav) <= net * Shares(b.total))
      && (Unsaturated(b, nav) ==> net * Shares(b.total) < (shares + 1) * Assets(nav))
  }

  lemma MintIsGreatest(net: u128, b: Book, nav: u128)
    requires AssetsToShares(net, b.total, nav).Returned?
    ensures Unsaturated(b, nav) ==>
              net * Shares(b.total) < (AssetsToShares(net, b.total, nav).value + 1) * Assets(nav)
  {
    if Unsaturated(b, nav) {
      Arith.FloorBounds(net * Shares(b.total), Assets(nav));
      Arith.MulDistributes(AssetsToShares(net, b.total, nav).value, 1, Assets(nav));
    }
  }

  lemma PayoutIsGreatest(shares: u128, b: Book, nav: u128)
    requires SharesToAssets(shares, b.total, nav).Returned?
    ensures Unsaturated(b, nav) ==>
              shares * Assets(nav) < (SharesToAssets(shares, b.total, nav).value + 1) * Shares(b.total)
  {
    if Unsaturated(b, nav) {
      Arith.FloorBounds(shares * Assets(nav), Shares(b.total));
      Arith.MulDistributes(SharesToAssets(shares, b.total, nav).value, 1, Shares(b.total));
    }
  }

  /** Shares a deposit mints at the pre-deposit NAV; minting none is refused. */
  function DepositShares(b: Book, amount: u128, nav: u128): (r: Result<u128, Error>)
    ensures r.Ok? ==> FairMint(b, amount, nav, r.value)
  {
    var net :- NetOfFee(amount, b.feeBps);
    var shares :- Priced(AssetsToShares(net, b.total, nav));
    MintIsFairExactly(net, b.total, nav);
    MintIsGreatest(net, b, nav);
    :- Need(shares != 0, BelowMinDeposit);
    Ok(shares)
  }

  /** At a NAV that is not u128::MAX the shares are worth at most the whole deposit. */
  lemma FairMintBound(b: Book, amount: u128, nav: u128, shares: nat)
    requires FairMint(b, amount, nav, shares) && nav < U128_MAX
    ensures 0 < shares && shares * Assets(nav) <= amount * Shares(b.total)
  {
    var net: u128 :| FeeKept(amount, net, b.feeBps)
      && (!Overminted(net, b.total, nav) ==> shares * Assets(nav) <= net * Shares(b.total));
    Arith.MulMono(net, amount, Shares(b.total));
  }

  function Mint(b: Book, owner: Owner, shares: u128): Result<Book, Error> {
    var p := PositionOf(b, owner);
    var newShares :- CheckedAdd(p.shares, shares);
    var newTotal :- CheckedAdd(b.total, shares);
    Ok(b.(total := newTotal, positions := b.positions[owner := p.(shares := newShares)]))
  }

  /** Queue shares for redemption, replacing whatever was queued before. */
  function Request(b: Book, now: u64, owner: Owner, shares: u128): Result<Book, Error> {
    if owner !in b.positions then Err(InvalidOwner) else
    var p := b.positions[owner];
    :- Need(shares != 0 && shares <= p.shares, InsufficientShares);
    Ok(b.(positions := b.positions[owner := Position(p.shares, shares, SaturatingAdd64(now, b.delay))]))
  }

  /** The queued shares of an LP, once the timelock has run out. */
  function Redeemable(b: Book, now: u64, owner: Owner): Result<u128, Error> {
    if owner !in b.positions then Err(InvalidOwner) else
    var p := b.positions[owner];
    :- Need(p.pending != 0, RedeemLocked);
    :- Need(now >= p.unlock, RedeemLocked);
    :- Need(p.pending <= p.shares, InsufficientShares);
    Ok(p.pending)
  }

  /** The payout is the most the shares are worth, less the fee; Overpaid shares fetch one atom. */
  ghost predicate FairPayout(b: Book, shares: u128, nav: u128, out: nat) {
    exists gross: u128 :: FeeKept(gross, out, b.feeBps)
      && (if Overpaid(shares, b.total, nav) then gross == 1 else gross * Shares(b.total) <= shares * Assets(nav))
      && (Unsaturated(b, nav) ==> shares * Assets(nav) < (gross + 1) * Shares(b.total))
  }

  /** What the queued shares pay at a NAV, after the redeem fee. */
  function Payout(b: Book, shares: u128, nav: u128): (r: Result<u128, Error>)
    ensures r.Ok? ==> FairPayout(b, shares, nav, r.value)
  {
    var gross :- Priced(SharesToAssets(shares, b.total, nav));
    PayoutIsFairExactly(shares, b.total, nav);
    PayoutIsGreatest(shares, b, nav);
    var out :- NetOfFee(gross, b.feeBps);
    Ok(out)
  }

  lemma FairPayoutBound(b: Book, shares: u128, nav: u128, out: nat)
    requires FairPayout(b, shares, nav, out) && !Overpaid(shares, b.total, nav)
    ensures out * Shares(b.total) <= shares * Assets(nav)
  {
    var gross: u128 :| FeeKept(gross, out, b.feeBps) && gross * Shares(b.total) <= shares * Assets(nav);
    Arith.MulMono(out, gross, Shares(b.total));
  }

  /** Burn the queued shares and clear the slot; the total saturates at zero. */
  function Burn(b: Book, owner: Owner): Book
    requires owner in b.positions && b.positions[owner].pending <= b.positions[owner].shares
  {
    var p := b.positions[owner];
    b.(total := if p.pending > b.total then 0 else b.total - p.pending,
       positions := b.positions[owner := Position(p.shares - p.pending, 0, 0)])
  }

  // ---------- what every reachable register satisfies ----------

  ghost function Holdings(b: Book): map<Owner, nat> {
    map o | o in b.positions :: b.positions[o].shares
  }

  /** Positions add up to the total, and nobody has queued more than they hold. */
  ghost predicate BookOk(b: Book) {
    && SumMap(Holdings(b)) == b.total
    && forall o :: o in b.positions ==> b.positions[o].pending <= b.positions[o].shares
  }

  lemma HoldingsUpdate(b: Book, total: u128, owner: Owner, p: Position)
    ensures var b' := b.(total := total, positions := b.positions[owner := p]);
            SumMap(Holdings(b')) == SumMap(Holdings(b)) - PositionOf(b, owner).shares + p.shares
    ensures PositionOf(b, owner).shares <= SumMap(Holdings(b))
  {
    var b' := b.(total := total, positions := b.positions[owner := p]);
    assert Holdings(b') == Holdings(b)[owner := p.shares];
    SumUpdates(Holdings(b), owner, p.shares);
  }

  lemma MintKeepsBook(b: Book, owner: Owner, shares: u128)
    requires BookOk(b) && Mint(b, owner, shares).Ok?
    ensures BookOk(Mint(b, owner, shares).value)
  {
    var p := PositionOf(b, owner);
    HoldingsUpdate(b, b.total + shares, owner, p.(shares := p.shares + shares));
  }

  lemma RequestKeepsBook(b: Book, now: u64, owner: Owner, shares: u128)
    requires BookOk(b) && Request(b, now, owner, shares).Ok?
    ensures BookOk(Request(b, now, owner, shares).value)
  {
    HoldingsUpdate(b, b.total, owner, Position(b.positions[owner].shares, shares, SaturatingAdd64(now, b.delay)));
  }

  /**
   * In a consistent register the insufficient-shares check of an execution never fires and
   * the saturating burn is exact.
   */
  lemma BurnIsExact(b: Book, now: u64, owner: Owner)
    requires BookOk(b)
    ensures Redeemable(b, now, owner) != Err(InsufficientShares)
    ensures Redeemable(b, now, owner).Ok? ==>
              && Burn(b, owner).total == b.total - b.positions[owner].pending
              && BookOk(Burn(b, owner))
  {
    if Redeemable(b, now, owner).Ok? {
      var p := b.positions[owner];
      HoldingsUpdate(b, Burn(b, owner).total, owner, Position(p.shares - p.pending, 0, 0));
    }
  }
}
