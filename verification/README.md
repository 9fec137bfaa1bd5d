# OpenPerps: a verified model of its arithmetic and its money flows

OpenPerps is a perpetual-futures exchange: an engine settles PnL with 256-bit integer
arithmetic, a wrapper program moves tokens between users, a House, an insurance fund and two
LP vaults, a keeper keeps prices fresh, and an indexer serves the web. This project states
that behaviour in Dafny and proves what it promises. `dafny verify dfyconfig.toml` checks
everything.

**Wide integers** (`Arith`, `Words`, `U256`, `I256`, `Division`, `U512`, `MulDiv`, `KPair`).
The 256- and 512-bit library is modelled limb by limb, with a `Value()` for what the limbs
stand for. Every operation is the integer operation, returns `None` exactly out of range, or
panics exactly under the stated condition (`Outcome.Panicked`). The loops are loops; the
branches, carries and borrows are the code's. The two storage layouts differ only in how a
number is cut into words, so text they share is written once over word pairs and a theorem
says the layouts agree. On top of the exact mul-div helpers stand the settlement theorems.

**The market** (`ShareMath`, `LpBook`, `MarketSteps`, `Custody`, `Effects`, `Success`,
`Isolation`, `LpRuns`, `Overpayment`, `HlpNavRuns`, `Timelocks`, `Market`). `MarketSteps` gives
each instruction that moves value as a function from state to state or an error. `Effects` says
what it means: which balances, counters and shares move, by how much, and that nothing else
does. `Effects` and `Success` say exactly when it succeeds, in terms a caller can check.
`Market` is the accounts themselves, overwritten in place by one method per handler, each
proved to have exactly those effects, and none on an error. A run is any list of instructions
with the slots they land in, interleaved with donations and with whatever the engine does on
its own. The whole-run theorems are about conservation, isolation of users, share price, seed
capital, timelocks and insurance governance.

**The DEX mark** (`Twap`, `DexMark`). The capped-weight accumulator, with clocks that may run
backward, feeds a truncating EWMA. Histories and runs are arbitrary.

**Three small algorithms**: the keeper's catch-up planner (`CatchUp`), the indexer's base58
decoder (`Base58`) and its sliding-window limiter (`RateLimiter`).

## Where the code falls short of its promise

Each of these is kept as the code has it, with the exact condition under which the promise
holds and an input on which it does not.

- `wide_signed_mul_div_floor` reinterprets an unsigned magnitude as signed without a check.
  It returns the exact floor if and only if the condition of `MulDiv.WideExactly` holds; 2^255
  comes back as -2^255 (`MulDiv.WideCounterexamples`).
- `shares_to_assets` is documented to round against the redeemer. It overpays, by less than
  one atom, exactly on the inputs `ShareMath.Overpaid` describes, all with a total above
  `u128::MAX - 10^6` (`PayoutIsFairExactly`, `OverpaidCounterexamples`). With House
  losses a new HLP vault can get there (`Overpayment.OverpaymentIsReachable`). InsLP never gets there from an empty register
  (`LpRuns.InsLpNeverSaturates`), nor does HLP in quiet runs with a House PnL below
  2^107 (`HlpNavRuns.QuietRunsAreRegular`).
- `assets_to_shares` is documented to round against the depositor. It mints too much exactly
  on the inputs `ShareMath.Overminted` describes, all with NAV `u128::MAX`
  (`MintIsFairExactly`, `OvermintedCounterexample`).
- The crank is documented not to take a close step. On a resolved market it does: closing an
  account takes its payout out of V and no token out of the vault. Vault tokens minus V are
  unchanged over a run if and only if nothing is donated and no such close pays
  (`Custody.LedgerExactly`), so always while the market is live (`Custody.LiveLedger`);
  `Custody.ResolvedWinnerIsStranded` strands eight tokens, and none ever comes back.
- Deploying HLP capital into a House whose equity is clipped at zero makes part of it vanish
  from NAV (`HlpNavRuns.DeployKeepsNavExactly`, `DeployLosesNav`).
- `b58decode` returns one zero byte too many exactly on strings of '1's only, the empty string
  included, against the decoding algorithm of draft-msporny-base58
  (`Base58.StandardExactlyOffAllOnes`).
- The rate limiter's memory is lossless if and only if no clock reading revives a hit that an
  earlier one saw expired (`RateLimiter.LosslessExactly`); a clock that steps back by less is
  harmless. `RateLimiter.BackwardClockForgets` shows 31 admissions in one window.
- The planner's comment promises at least one step. There is one if and only if `maxSteps` is
  at least 1 (`CatchUp.StepsExactly`, `NoStepPlanned`).

## Model

| member | source | states |
|---|---|---|
| Words.WideningMul | crates/engine/src/wide_math.rs:1051-1071 | low + 2^128 * high is the exact product of the two words; no partial carry is lost |
| Words.AddCarry | crates/engine/src/wide_math.rs:1075-1079 | sum and carry out together are a + b + carry in |
| Words.SubBorrow | crates/engine/src/wide_math.rs:1083-1087 | difference and borrow out together are a - b - borrow in |
| Uint256.U256.OverflowingAdd | crates/engine/src/wide_math.rs:358-362 | the sum modulo 2^256, and true exactly when it wrapped |
| Uint256.U256.OverflowingSub | crates/engine/src/wide_math.rs:364-368 | the difference modulo 2^256, and true exactly when it borrowed |
| Uint256.U256.CheckedAdd | crates/engine/src/wide_math.rs:289-297 | the integer sum, Some exactly when it is below 2^256 |
| Uint256.U256.CheckedSub | crates/engine/src/wide_math.rs:299-307 | the integer difference, Some exactly when it is not negative |
| Uint256.U256.CheckedMul | crates/engine/src/wide_math.rs:309-340 | the integer product, Some exactly when it is below 2^256 |
| Uint256.MulPair | crates/engine/src/wide_math.rs:88-136 | the word-pair schoolbook product both layouts run: Some exactly when the integer product fits 256 bits, and equal to it |
| Uint256.U256.SaturatingAdd | crates/engine/src/wide_math.rs:372-374 | the integer sum capped at 2^256 - 1 |
| Uint256.U256.SaturatingSub | crates/engine/src/wide_math.rs:376-378 | the integer difference, floored at zero |
| Uint256.ShlPairIsMul | crates/engine/src/wide_math.rs:382-399 | for every shift count, the word shift is multiplication by 2^bits modulo 2^256 |
| Uint256.ShrPairIsDiv | crates/engine/src/wide_math.rs:401-418 | for every shift count, the word shift is floor division by 2^bits |
| Uint256.U256.Cmp | crates/engine/src/wide_math.rs:434-449 | the limb-wise order is the order of the values |
| Uint256.U256.TryIntoU128 | crates/engine/src/wide_math.rs:279-285 | the same value, Some exactly when it is below 2^128 |
| Uint256.U256Injective | crates/engine/src/wide_math.rs:236-280 | a value has one representation, so equality of limbs is equality of integers |
| Uint256.KaniU256.CheckedAdd | crates/engine/src/wide_math.rs:74-79 | two-word layout: the integer sum, Some exactly when it is below 2^256 |
| Uint256.KaniU256.CheckedSub | crates/engine/src/wide_math.rs:81-86 | two-word layout: the integer difference, Some exactly when it is not negative |
| Uint256.KaniU256.CheckedMul | crates/engine/src/wide_math.rs:88-136 | two-word layout: the integer product, Some exactly when it fits |
| Uint256.U256LayoutsAgree | crates/engine/src/wide_math.rs:22-431 | the [u64; 4] and [u128; 2] layouts return the same number, flag and None on every input of add, sub, mul and cmp |
| Int256.PairNeg | crates/engine/src/wide_math.rs:937-948 | the integer negation, None exactly on MIN |
| Int256.PairAdd | crates/engine/src/wide_math.rs:890-912 | the sign rule accepts exactly the sums in -2^255 .. 2^255 - 1, and the result is the sum |
| Int256.PairSub | crates/engine/src/wide_math.rs:914-935 | the sign rule accepts exactly the differences in range, MIN on either side included |
| Int256.PairMulIsProduct | crates/engine/src/wide_math.rs:844-888 | signed multiplication is the integer product, None exactly out of range, with every MIN case |
| Int256.I256.CheckedNeg | crates/engine/src/wide_math.rs:937-948 | negation on the deployed layout: exact, None exactly on MIN |
| Int256.I256.CheckedAdd | crates/engine/src/wide_math.rs:890-912 | addition on the deployed layout: Some exactly when the integer sum fits |
| Int256.I256.CheckedSub | crates/engine/src/wide_math.rs:914-935 | subtraction on the deployed layout: Some exactly when the integer difference fits |
| Int256.I256.CheckedMulI256 | crates/engine/src/wide_math.rs:844-888 | multiplication on the deployed layout: Some exactly when the integer product fits |
| Int256.I256.AbsU256 | crates/engine/src/wide_math.rs:825-838 | the magnitude, for every value above MIN (MIN is the source's own panic) |
| Int256.I256.TryIntoI128 | crates/engine/src/wide_math.rs:792-801 | the same value, Some exactly when it is an i128 |
| Int256.I256.Cmp | crates/engine/src/wide_math.rs:996-1016 | the sign-then-words order is the order of the signed values |
| Int256.I256LayoutsAgree | crates/engine/src/wide_math.rs:541-993 | both signed layouts return the same result on every pair of inputs of neg, add, sub, mul and cmp |
| Division.DivRemU256 | crates/engine/src/wide_math.rs:1103-1141 | panics exactly on a zero divisor; otherwise num = q * den + r with r < den |
| Division.LongDivide | crates/engine/src/wide_math.rs:1122-1141 | the shift-and-subtract loop is exact for every num >= den > 0 |
| Division.DividingStep | crates/engine/src/wide_math.rs:1127-1139 | one iteration keeps num = q * den + rem with rem below the scaled divisor and q a multiple of its scale |
| Division.OrBit | crates/engine/src/wide_math.rs:1131-1138 | or-ing bit i into a number adds 2^i when the bit is clear and changes nothing otherwise |
| Uint512.MulU256 | crates/engine/src/wide_math.rs:1165-1201 | the four limbs are the exact 512-bit product: the column sums lose no carry |
| Uint512.CmpU512 | crates/engine/src/wide_math.rs:1204-1212 | the limb loop returns the order of the values |
| Uint512.LeadingZerosU512 | crates/engine/src/wide_math.rs:1282-1289 | 512 minus the bit length of the value |
| Uint512.SubU512 | crates/engine/src/wide_math.rs:1257-1267 | the borrow loop returns the integer difference, for a >= b |
| Uint512.ShlU512 | crates/engine/src/wide_math.rs:1215-1233 | multiplication by 2^bits modulo 2^512, for every shift count |
| Uint512.ShrU512 | crates/engine/src/wide_math.rs:1236-1254 | floor division by 2^bits, for every shift count |
| Uint512.SetBitAdds | crates/engine/src/wide_math.rs:1270-1279 | adds 2^bit when the bit is clear and changes nothing otherwise |
| Uint512.LongDivide512 | crates/engine/src/wide_math.rs:1333-1352 | the 512-bit division loop is exact: num = q * den + r with r < den |
| Uint512.CheckedDivRemByU256 | crates/engine/src/wide_math.rs:1310-1355 | panics exactly on a zero divisor, None exactly when the quotient is 2^256 or more, otherwise the exact quotient and remainder; the `den_lz < num_lz` branch is proved dead |
| MulDiv.CeilDivPositiveChecked | crates/engine/src/wide_math.rs:1453-1461 | the ceiling of n / d; its "+ 1" never overflows |
| MulDiv.MulDivFloorWithRem | crates/engine/src/wide_math.rs:1474-1481 | floor and remainder of the unbounded product; panics exactly when the floor does not fit |
| MulDiv.MulDivFloorU256 | crates/engine/src/wide_math.rs:1465-1470 | floor of the unbounded product; panics exactly when it does not fit |
| MulDiv.CheckedMulDivCeilU256 | crates/engine/src/wide_math.rs:1499-1510 | the ceiling of the unbounded product; Some exactly when d is not zero and the ceiling fits |
| MulDiv.MulDivCeilU256 | crates/engine/src/wide_math.rs:1485-1494 | the ceiling of the unbounded product; panics exactly when it does not fit |
| MulDiv.MulDivFloorU128 | crates/engine/src/wide_math.rs:1600-1604 | the floor; panics exactly when the 128-bit product overflows |
| MulDiv.WideMulDivFloorU128 | crates/engine/src/wide_math.rs:1620-1626 | the floor of the unbounded product; panics exactly when the floor itself overflows |
| MulDiv.WideMulDivCeilOrOverI128Max | crates/engine/src/wide_math.rs:1684-1698 | Ok exactly when the ceiling is below 2^127, and then the ceiling |
| MulDiv.FloorDivSignedConservative | crates/engine/src/wide_math.rs:1366-1418 | the floor toward minus infinity on every input; panics exactly on a zero divisor and on (MIN, 1) |
| MulDiv.FloorDivSignedI128 | crates/engine/src/wide_math.rs:1423-1448 | the same on i128; panics exactly on a zero divisor and on (i128::MIN, 1) |
| MulDiv.WideSignedMulDivFloor | crates/engine/src/wide_math.rs:1538-1582 | the exact floor while its magnitude is below 2^255; beyond that exactly which inputs panic and which come back off by 2^256 |
| MulDiv.WideExactly | crates/engine/src/wide_math.rs:1538-1582 | the exact floor is returned if and only if den is not zero, k is not MIN against a basis, and the floor lies strictly between -2^255 and 2^255 |
| MulDiv.WideCounterexamples | crates/engine/src/wide_math.rs:1538-1582 | 2^255 * 1 / 1 comes back as -2^255 and 2^255 * -1 / 1 panics |
| KPair.SettleFromKPair | crates/engine/src/wide_math.rs:1630-1675 | the floor of basis * (k_now - k_then) / den; panics exactly when den is zero or the floor leaves -(2^127 - 1) .. 2^127 - 1 |
| KPair.SettlementSplits | crates/engine/src/wide_math.rs:1630-1675 | settling a move in two pays at most the single settlement and less by at most one atom |
| KPair.PathLosesAtMostOnePerStop | crates/engine/src/wide_math.rs:1630-1675 | over any path of n segments the total is at most the single settlement and less by at most n - 1 atoms |
| KPair.SettlingEachLosesAtMostOnePerStop | crates/engine/src/wide_math.rs:1630-1675 | settling a path returns exactly when each of its settlements does; if the single one returns too, the returned values obey that bound |
| KPair.PathLossIsTight | crates/engine/src/wide_math.rs:1630-1675 | for every n <= den a path loses exactly n - 1 atoms, so the bound is the best possible |
| KPair.RoundTripSettlement | crates/engine/src/wide_math.rs:1630-1675 | k0 -> k1 -> k0 sums to 0 if den divides the product and to -1 otherwise |
| ShareMath.PricesAreFloors | crates/program/src/hlp.rs:115-132 | without saturation both conversions are the floors of the exact fractions with offsets 10^6 and 1 |
| ShareMath.MintIsFairExactly | crates/program/src/hlp.rs:115-121 | for all inputs: a deposit mints at most its fair share if and only if it is not Overminted (nav is u128::MAX and the product is u128::MAX) |
| ShareMath.OvermintedCounterexample | crates/program/src/hlp.rs:115-121 | an input of that family: one atom mints one share worth more than it |
| ShareMath.PayoutIsFairExactly | crates/program/src/hlp.rs:126-132 | for all inputs: a redemption pays at most its fair share if and only if it is not Overpaid (total + 10^6 saturates and the product is u128::MAX, or nav + 1 saturates too and one share is redeemed) |
| ShareMath.OverpaidCounterexamples | crates/program/src/hlp.rs:126-132 | inputs of both kinds: one share at nav u128::MAX, and a third of all shares at nav 2, pay one atom where less is due |
| Overpayment.OverpaymentIsReachable | crates/program/src/processor.rs:3990-4144 | a run from a new market, with House losses, to a state in which the handler pays an Overpaid redemption and the share price falls |
| ShareMath.ClaimHolds | crates/program/src/hlp.rs:31-37 | a share price that does not fall lowers no holding's redeemable claim |
| ShareMath.SplitRedemptionPaysLess | crates/program/src/hlp.rs:126-132 | any list of redemptions pays at most one redemption of the summed shares |
| ShareMath.SplitDepositMintsLess | crates/program/src/hlp.rs:115-121 | any list of deposits mints at most one deposit of the summed assets |
| ShareMath.RoundTrip | crates/program/src/hlp.rs:115-132 | deposit then immediate redemption returns at most the deposit and loses less than nav / (total + minted + 10^6) + 1 |
| ShareMath.DonationCannotCapture | crates/program/src/hlp.rs:31-37 | after any donation a new depositor's loss on immediate exit is at most one atom plus a millionth of the vault |
| LpBook.DepositShares | crates/program/src/processor.rs:3755-3769 | the shares minted are a positive number, the largest that the deposit less its fee is worth at the NAV before it (Overminted and saturated inputs aside) |
| LpBook.Payout | crates/program/src/processor.rs:4086-4097 | the payout is the largest amount the burned shares are worth, less the fee in basis points rounded down; Overpaid shares fetch one atom |
| LpBook.MintKeepsBook | crates/program/src/processor.rs:3797-3830 | after a deposit positions still add up to total_shares and pending <= shares for everyone |
| LpBook.RequestKeepsBook | crates/program/src/processor.rs:3973-3984 | the same after a redemption request, which overwrites the pending slot |
| LpBook.BurnIsExact | crates/program/src/processor.rs:4062-4131 | when positions add up, the insufficient-shares check of an execution never fires, the saturating burn is exact and the sums still agree |
| Market.MarketAccounts.Deposit | crates/program/src/processor.rs:1333-1412 | on success the amount moves from the wallet to the vault, and V, C_tot and the owner's capital rise by it; no other balance, account or field changes; on an error nothing does |
| Market.MarketAccounts.Withdraw | crates/program/src/processor.rs:1121-1201 | on success the amount moves from the vault to the wallet, the account's losses are settled in full, capital plus PnL falls by exactly the amount and still covers the whole fee debt, C_tot falls with its capital and V by the amount; on an error nothing changes |
| Market.MarketAccounts.FundHouse | crates/program/src/processor.rs:1527-1589 | tokens from a wallet, or from the HLP buffer for a deploy, move to the vault, and V, C_tot and the House's capital rise by the amount; nothing else changes |
| Market.MarketAccounts.WithdrawHouse | crates/program/src/processor.rs:1591-1715 | succeeds only with no HLP share outstanding and the lock over; then vault tokens, V and House equity fall by the amount, C_tot with its capital |
| Market.MarketAccounts.DepositHlp | crates/program/src/processor.rs:3662-3832 | the amount moves to the buffer, position and total grow by the same positive number of shares, the most the deposit less its fee is worth at the NAV before; the queue and all other positions stay |
| Market.MarketAccounts.ExecuteHlp | crates/program/src/processor.rs:3990-4144 | the due, held, queued shares are burned and the slot emptied, and their worth less the fee moves from the buffer to the wallet; nothing else changes |
| Market.MarketAccounts.HarvestHlp | crates/program/src/processor.rs:4617-4688 | the amount moves from the vault to the buffer, House equity and V fall by it, C_tot with its capital; nothing else changes |
| Market.MarketAccounts.DepositInsLp | crates/program/src/processor.rs:4218-4370 | the amount moves to the vault, V, I and the budget of domain 0 rise by it, and the fair number of shares at I before is minted; nothing else changes |
| Market.MarketAccounts.ExecuteInsLp | crates/program/src/processor.rs:4446-4611 | what leaves the vault is what V, I and the budget of domain 0 lose and the fair payout of the shares burned; I stays at or above the floor and no reserved credit or spent budget is paid |
| Market.MarketAccounts.RequestRedeem | crates/program/src/processor.rs:3915-3984 | queues between one and all held shares, due after the delay in force now; no share, token or other position moves |
| Market.MarketAccounts.FundInsurance | crates/program/src/processor.rs:3182-3240 | tokens, V, I and the budget of domain 2 * asset + side move by the amount, and no other domain; zero changes nothing |
| Market.MarketAccounts.RequestInsurance | crates/program/src/processor.rs:3321-3397 | announces a positive amount that leaves the floor, due after the delay in force now; no token and no engine counter moves |
| Market.MarketAccounts.ExecuteInsurance | crates/program/src/processor.rs:3405-3513 | the announced, due amount leaves the vault, V, I and the announced domain for the wallet, I stays at or above the floor, the slot is emptied |
| Market.MarketAccounts.ReadHlpNav | crates/program/src/hlp.rs:150-180 | NAV is the buffer plus House capital plus PnL less the fee debt less the discount, floored at zero, and an error exactly when a step of that leaves i128; the discount is none on losses and on a gain its basis points (at most all of it) rounded down, from a product capped at 2^127 - 1 |
| Market.MarketAccounts.SetHouseLock | crates/program/src/processor.rs:2974-3044 | succeeds exactly for a slot that is not earlier than the lock, and then the lock is that slot; nothing else changes |
| Market.MarketAccounts.SetLpParams | crates/program/src/processor.rs:3580-3655 | the named vault has exactly the new delay, fee and minimum (HLP also the haircut), a new vault is empty, an old one keeps total and positions, and nothing else changes |
| Market.MarketAccounts.SetInsuranceParams | crates/program/src/processor.rs:3246-3315 | a new config is stored with an empty slot; an existing one changes exactly when neither knob falls, to the new knobs with the pending slot kept |
| Market.MarketAccounts.ProcessInstruction | crates/program/src/processor.rs:1121-4690 | every instruction, in any valid state, does what its step function says or nothing, keeps the custody invariant and creates no token |
| Effects.ParamsMoveNothing | crates/program/src/processor.rs:3580-3655 | new LP terms leave total_shares, every position and queue, every token and the other vault as they were |
| Effects.DepositSucceedsExactly | crates/program/src/processor.rs:1333-1412 | in a valid state a deposit succeeds if and only if the wallet covers it, the account stays under its collateral cap, account and market validate, and V stays within the engine's bound: nothing else can fail or overflow |
| Effects.FundHouseSucceedsExactly | crates/program/src/processor.rs:1527-1589 | in a valid state funding the House succeeds if and only if the House exists, the source covers it, House and market validate, and V stays within the engine's bound |
| Effects.WithdrawSucceedsExactly | crates/program/src/processor.rs:1121-1201 | in a valid state a withdrawal succeeds if and only if the account is idle and validates, amount plus fee debt is at most capital plus PnL and amount at most the capital left after losses, and the market is live and validates after it: C_tot, V and the vault's tokens always cover it |
| Effects.HarvestSucceedsExactly | crates/program/src/processor.rs:4617-4688 | the same for House capital going back to the buffer |
| Effects.ExecuteInsuranceSucceedsExactly | crates/program/src/processor.rs:3405-3513 | a due announced withdrawal pays if and only if floor, promises, domain ledger and market shape allow it; V and the tokens always suffice |
| Success.DepositHlpSucceedsExactly | crates/program/src/processor.rs:3662-3832 | in a valid state an HLP deposit succeeds if and only if House and config exist, House equity is in range, the amount reaches the minimum, is covered by the wallet and buys at least one share without overflow |
| Success.ExecuteHlpSucceedsExactly | crates/program/src/processor.rs:3990-4144 | an HLP redemption succeeds if and only if the LP has shares queued and due, they can be priced, and the buffer holds the payout |
| Success.DepositInsLpSucceedsExactly | crates/program/src/processor.rs:4218-4370 | an InsLP deposit succeeds if and only if the config exists, the amount reaches the minimum, is covered and buys at least one share, and the engine accepts it into domain 0 |
| Success.ExecuteInsLpSucceedsExactly | crates/program/src/processor.rs:4446-4611 | an InsLP redemption succeeds if and only if shares are queued and due, they can be priced, payout plus floor is at most I, and the engine can pay it: no reserved credit, spent or reserved budget, ledgers and shape valid; tokens and V never stand in the way |
| Success.FundInsuranceSucceedsExactly | crates/program/src/processor.rs:3182-3240 | funding succeeds if and only if side and asset exist, the wallet covers it and the engine accepts it into domain 2 * asset + side |
| Success.RequestRedeemSucceedsExactly | crates/program/src/processor.rs:3915-3984 | a request succeeds if and only if the LP has a position and asks for between one and all of its shares |
| Success.RequestInsuranceSucceedsExactly | crates/program/src/processor.rs:3321-3397 | an announcement succeeds if and only if the side exists and the amount is positive and leaves the floor |
| Success.WithdrawHouseSucceedsExactly | crates/program/src/processor.rs:1591-1715 | a House withdrawal succeeds if and only if the House exists, no HLP share is outstanding, the lock slot has come and the engine lets the amount out |
| Effects.EveryoneIsCovered | crates/program/src/state.rs:1098-1131 | after any run the vault's tokens back all user capital, the House's capital and I together |
| MarketSteps.MarkedEquity | crates/program/src/hlp.rs:150-180 | capital + PnL - |fee credits| less the discount, floored at zero; Ok exactly when every step of it is an i128 |
| MarketSteps.HaircutIsDiscount | crates/program/src/hlp.rs:173-177 | the haircut h of a gain satisfies h * 10^4 <= pnl * min(bps, 10^4) < (h + 1) * 10^4, or is (2^127 - 1) / 10^4 where the product saturates; a loss has none |
| MarketSteps.DiscountIsUnique | crates/program/src/hlp.rs:173-177 | that determines the haircut |
| MarketSteps.EquityMeans | crates/engine/src/v16.rs:15761-15771 | an account is solvent exactly when capital plus PnL covers the fee credits of either sign, and its marked equity is short of that by exactly the discount |
| MarketSteps.FeeDebtCounts | crates/engine/src/v16.rs:15761-15771 | one atom more of fee debt is one atom less of equity |
| Custody.TransferMoves | crates/program/src/processor.rs:1371-1397 | a transfer moves exactly the amount between the two accounts and touches no other balance |
| Custody.StepConserves | crates/program/src/processor.rs:1121-4690 | every instruction moves vault plus buffer by exactly its external flow and keeps V >= C_tot + I; vault tokens minus V change by exactly what is donated to the vault and what a resolved close takes out of V |
| Custody.StepKeepsCapitalCovered | crates/program/src/state.rs:2172-2200 | C_tot covers the House's and all users' capital after every instruction |
| Custody.StepKeepsInv | crates/program/src/processor.rs:1121-4690 | the custody invariant, with both share registers consistent, is kept by every instruction |
| Custody.RunConserves | crates/program/src/processor.rs:1121-4690 | over any run no token appears or disappears, vault plus buffer changes by the sum of external flows, vault tokens minus V by the donations to the vault plus the payouts of resolved closes, both never negative |
| Custody.LedgerExactly | crates/program/src/processor.rs:1121-4690 | vault tokens minus V are unchanged over a run if and only if nothing is donated to the vault and no resolved close takes anything out of V; they never fall, so what is stranded never leaves |
| Custody.LiveLedger | crates/program/src/processor.rs:1121-4690 | in a run after which the market is live nothing is stranded: only donations are unaccounted for |
| Custody.CloseStrandsItsPayout | crates/engine/src/v16.rs:14731-14768 | closing an account of a resolved market takes its payout out of V and empties the account, and the whole payout stays in the vault, since the crank moves no token |
| Custody.ResolvedWinnerIsStranded | crates/program/src/processor.rs:1019-1076 | a resolved market with one winner: after the crank V is 0 and its eight tokens are still in the vault |
| Custody.InstructionsKeepMode | crates/program/src/processor.rs:1121-4690 | no instruction changes whether the market is live, and only authority withdrawals and InsLP redemptions lower I |
| Custody.NewMarketIsValid | crates/program/src/state.rs:1986-2048 | a newly initialised market satisfies the custody invariant and the engine's shape validation |
| Custody.ReachableMarketsAreValid | crates/program/src/state.rs:1098-1131 | every state any run of a new market reaches satisfies the custody invariant |
| Custody.RunKeepsInv | crates/program/src/state.rs:1098-1131 | from any valid state, every run ends with V backed by tokens, V >= C_tot + I, C_tot covering all capital, and positions that add up |
| Isolation.BystandersKeepTheirStake | crates/program/src/processor.rs:1121-4690 | no instruction changes the tokens, shares or portfolio of anyone it does not involve, and the engine alone changes nobody's tokens or shares |
| Isolation.RunLeavesBystandersAlone | crates/program/src/processor.rs:1121-4690 | over any run a user takes no part in, the user's tokens and LP positions do not change |
| Isolation.CallerPaysTheFlow | crates/program/src/processor.rs:1121-4690 | the caller's own wallet pays, or is paid, exactly the external flow |
| Isolation.DepositThenWithdraw | crates/program/src/state.rs:2172-2200 | a deposit can be taken straight out again if and only if the market is live and the account idle, solvent and within C_tot and i128; wallet, vault and V are then as before and only the account's own losses were settled |
| Isolation.InsuranceInThenOut | crates/program/src/state.rs:1104-1127 | insurance put into a domain comes out again if and only if nothing is over-promised, restoring the engine exactly |
| LpRuns.DepositChanges | crates/program/src/processor.rs:4285-4368 | an LP deposit raises NAV by the whole amount and the total by the quoted shares |
| LpRuns.RedemptionChanges | crates/program/src/processor.rs:4528-4599 | a redemption lowers NAV by exactly the payout and the total by exactly the pending shares |
| LpRuns.StepKeepsPrice | crates/program/src/processor.rs:3740-3831 | no instruction lowers the share price of either vault unless NAV is lost outside redemptions or the redemption is Overpaid |
| LpRuns.RunKeepsPrice | crates/program/src/processor.rs:4218-4611 | over any such run the price at every point is at most the price at the end |
| LpRuns.ClaimsNeverFall | crates/program/src/hlp.rs:123-132 | over any such run nobody's redeemable claim falls |
| LpRuns.SeedIsSafe | crates/program/src/inslp.rs:17-22 | from no shares and NAV F, (nav + 1) * 10^6 >= (total + 10^6) * (F + 1) holds throughout, so NAV never drops below F |
| LpRuns.LpsTakeOutAtMostTheyPutIn | crates/program/src/inslp.rs:17-22 | all LPs together redeem at most what they deposited plus what the vault earned |
| LpRuns.InsLpNeverSaturates | crates/program/src/inslp.rs:17-22 | started without shares, InsLP never meets an Overpaid redemption, so no hypothesis on sizes is needed |
| LpRuns.InsLpSeedIsSafe | crates/program/src/inslp.rs:17-22 | over any run in which only LPs draw insurance, I never falls below the authority-seeded amount, with no other hypothesis |
| HlpNavRuns.DeployKeepsNavExactly | crates/program/src/processor.rs:3838-3910 | a deploy keeps NAV if and only if House equity is not clipped (or nothing moves); it never raises NAV |
| HlpNavRuns.DeployLosesNav | crates/program/src/processor.rs:3838-3910 | a state in which a successful deploy of 3 takes NAV from 10 to 7 |
| HlpNavRuns.HarvestKeepsNavExactly | crates/program/src/processor.rs:4617-4688 | a harvest keeps NAV if and only if the equity left is not clipped (or nothing moves); it never lowers NAV |
| HlpNavRuns.QuietStepMovesNavByFlow | crates/program/src/processor.rs:3838-4144 | while no engine move touches the House and its equity is unclipped, NAV changes by exactly what comes in from outside |
| HlpNavRuns.QuietKeepsUnclipped | crates/program/src/hlp.rs:150-180 | with no haircut to take, non-trading instructions never clip the equity |
| HlpNavRuns.HlpSeedIsSafe | crates/program/src/processor.rs:3662-4144 | the seed and take-out bounds for HLP, with deploys, harvests, fee changes and engine moves on other accounts interleaved at will |
| HlpNavRuns.QuietRunsAreRegular | crates/program/src/processor.rs:3662-4144 | with House PnL below 2^107 at the start, no redemption of such a run is Overpaid |
| HlpNavRuns.QuietHlpSeedIsSafe | crates/program/src/processor.rs:3662-4144 | the same bounds from hypotheses on the start alone: no shares, a solvent House without haircut to take, PnL below 2^107 |
| Timelocks.QueueFrame | crates/program/src/processor.rs:3973-3984 | only an LP's own requests and executions change what it has queued |
| Timelocks.QueueComesFromRequest | crates/program/src/processor.rs:4374-4440 | whatever is queued is exactly what the LP's latest successful request named, unlocking at that slot plus the delay then in force |
| Timelocks.RedemptionWaited | crates/program/src/processor.rs:4052-4064 | every executed redemption answers an earlier request, burns exactly its shares, and comes at least its delay later |
| Timelocks.RequestPaysOnce | crates/program/src/processor.rs:4511-4589 | between two executions by one LP lies a new request: each request pays at most once |
| Timelocks.GovernanceRatchets | crates/program/src/state.rs:997-1027 | over any run the insurance config stays, and its floor and withdrawal delay never decrease |
| Timelocks.PayoutsLeaveTheFloor | crates/program/src/processor.rs:3461-3511 | any instruction that lowers I is an announced withdrawal or an InsLP redemption, and leaves I at or above the floor |
| Timelocks.InsuranceWithdrawalWasAnnounced | crates/program/src/processor.rs:3383-3395 | an authority withdrawal pays exactly the amount of its latest request from exactly the domain it named, no earlier than the delay in force at that request |
| Timelocks.InsuranceRequestPaysOnce | crates/program/src/processor.rs:3405-3513 | each insurance request pays at most once |
| Timelocks.HouseLockRatchets | crates/program/src/processor.rs:2974-3044 | over any run the House lock slot never decreases |
| Timelocks.HouseWithdrawalIsGuarded | crates/program/src/processor.rs:1591-1715 | no House withdrawal succeeds while LP shares exist or before any lock slot the House had earlier in the run |
| Timelocks.HouseLockHolds | crates/program/src/processor.rs:2974-3044 | once a run commits a lock slot, no later House withdrawal of the run succeeds before that slot |
| Twap.TwapAccount.ObserveBuffer | crates/program/src/state.rs:1312-1376 | the in-place update: an account bound elsewhere is refused untouched, otherwise state and emission are those of one observation |
| Twap.SameSecondErases | crates/program/src/state.rs:1345-1375 | two prices in one second leave the state and emission of the second alone |
| Twap.FlashesLeaveNoTrace | crates/program/src/state.rs:1345-1375 | dropping every price replaced within its second changes no later state and no emitted average, over any history |
| Twap.AccumulatorIsFold | crates/program/src/state.rs:1312-1376 | whatever the clock does, the account holds the capped fold of the whole history with weights min(max(dt, 0), 10) and its value at the anchor |
| Twap.WindowWeighs | crates/program/src/state.rs:1345-1375 | a window spanning 10 or more seconds weighs at least 10, even with backward clocks inside it |
| Twap.EmissionRule | crates/program/src/state.rs:1312-1376 | while the u128 sums do not saturate and the window weighs at most u64::MAX, a price is emitted if and only if 30 s have passed since the anchor, and it is the window's weighted average |
| Twap.EmissionExactly | crates/program/src/state.rs:1312-1376 | on every history, saturated or not: a price is emitted if and only if 30 s have passed since the anchor and the capped sums gained weight and average to a u64, and it is that average |
| Twap.EmissionWithinWindow | crates/program/src/dexamm.rs:71-82 | an emitted price lies between the least and greatest price weighted in its window |
| Twap.EmissionsApart | crates/program/src/state.rs:1345-1375 | any two emissions are at least 30 s apart, saturation or not |
| DexMark.EwmaClosesGap | crates/program/src/state.rs:1690-1699 | a step never overshoots, leaves four fifths of the gap rounded up, and stands still if and only if the gap is at most 4 |
| DexMark.EwmaConverges | crates/program/src/state.rs:1690-1699 | from any u64 mark, 268 steps on any constant input end within 4 of it and stay |
| DexMark.DexAsset.CrankDexSpot | crates/program/src/processor.rs:2617-2635 | the mark moves if and only if a price is emitted and the accrual accepted, and then by a fifth of its gap to that price; a refused accrual leaves everything as it was |
| DexMark.TwapFollowsCommitted | crates/program/src/processor.rs:2617-2635 | the TWAP account is that of the committed observations alone |
| DexMark.MarkStaysInHull | crates/program/src/state.rs:1650-1687 | over any run of cranks and unchanged accruals the mark stays within the hull of its seed and the committed spots |
| CatchUp.PlanAccrualSteps | packages/keeper/src/freshness.ts:50-88 | the pushed prices are those of the bounded walk, one per segment; without a positive mark, all are the target; there is a step if and only if maxSteps >= 1 |
| CatchUp.StepsExactly | packages/keeper/src/freshness.ts:16-28 | at least one step is planned if and only if maxSteps >= 1, and never more than maxSteps |
| CatchUp.NoStepPlanned | packages/keeper/src/freshness.ts:16-28 | an input with maxSteps 0 for which no step is planned |
| CatchUp.PlanCatchesUp | packages/keeper/src/freshness.ts:16-28 | unless maxSteps stops it the plan covers exactly max(1, behind) slots, and at least min(behind, n * maxDt) with n steps; one step fewer would fall short |
| CatchUp.SegmentsAreFull | packages/keeper/src/freshness.ts:72-78 | every planned segment but the last is exactly maxDt slots, and the last takes what is left, at least one |
| CatchUp.SlotsWithinBehind | packages/keeper/src/freshness.ts:16-28 | the planned slots add up to at most max(1, behind) |
| CatchUp.PlanIsAdmitted | packages/keeper/src/freshness.ts:72-87 | from a positive mark, every step satisfies |move| * 10^4 <= bps * dt * previous price and moves toward the target without passing it |
| CatchUp.GreedyDominates | packages/keeper/src/freshness.ts:72-87 | after every segment the plan is at least as close to the target as any admitted schedule over the same segments |
| CatchUp.GreedyIsOptimal | packages/keeper/src/freshness.ts:43-88 | the plan reaches the target if and only if some admitted schedule does |
| Base58.AlphabetOrdered | apps/indexer/src/index.ts:82 | the alphabet is the 58 characters 1-9, A-Z without I and O, a-z without l, in ascending order |
| Base58.DigitIsPosition | apps/indexer/src/index.ts:82-92 | the digit of a character is its position in the alphabet, and nothing outside has one |
| Base58.MulAdd | apps/indexer/src/index.ts:90-100 | the in-place digit step multiplies the number by 58, adds the digit and keeps it minimal |
| Base58.B58Decode | apps/indexer/src/index.ts:83-102 | nothing outside the alphabet; otherwise a zero byte per leading '1' followed by the minimal big-endian bytes of the number |
| Base58.DecodedValue | apps/indexer/src/index.ts:83-102 | the decoded bytes, read big-endian, are the base-58 value of the string |
| Base58.MinimalIsUnique | apps/indexer/src/index.ts:88-100 | a number has exactly one minimal byte list, so what the loop builds is determined by its value |
| Base58.StandardExactlyOffAllOnes | apps/indexer/src/index.ts:101-102 | the result is that of the draft's decoding algorithm if and only if the string is not all '1's; then there is one zero byte too many |
| Base58.DecodingIsInjective | apps/indexer/src/index.ts:83-102 | two strings over the alphabet never decode to the same bytes |
| RateLimiter.OpenWriteGuard.GuardOpenWrite | apps/indexer/src/auth.ts:70-97 | too large exactly above 16384 bytes, and then nothing changes; otherwise limited exactly when the bucket of the header's address (of "unknown" without a header) holds 30 hits less than 60,000 ms old; the table is the next one |
| RateLimiter.OpenWriteGuard.DropExpired | apps/indexer/src/auth.ts:90-95 | the deletion loop removes exactly the buckets whose every hit has expired |
| RateLimiter.OthersKeepTheirHits | apps/indexer/src/auth.ts:78-89 | a request whose header names a neither reads the bucket of any other address nor changes which of its hits are recent |
| RateLimiter.AdmissionIsRecorded | apps/indexer/src/auth.ts:88-89 | an admitted request leaves in its own bucket exactly the recent hits and its own |
| RateLimiter.DropsOnlyUnderPressure | apps/indexer/src/auth.ts:90-95 | an admission drops no bucket up to 5,000, and above keeps exactly those with a hit less than 60,000 ms old |
| RateLimiter.OthersDoNotMatter | apps/indexer/src/auth.ts:70-97 | with a steady clock, removing every request of other addresses from a run changes no verdict for an address |
| RateLimiter.AnotherClientIsAdmitted | apps/indexer/src/auth.ts:78-87 | after 30 requests of one address in a millisecond, the next in it is admitted if and only if it comes from another address |
| RateLimiter.ForgettingChangesNothing | apps/indexer/src/auth.ts:70-97 | with a steady clock (no reading revives a hit an earlier one saw expired), every decision equals that of a limiter keeping the whole history, so filtering and pruning change nothing later |
| RateLimiter.OrderedIsSteady | apps/indexer/src/auth.ts:79-80 | a clock that never goes back is steady |
| RateLimiter.GuardHoldsTheLimit | apps/indexer/src/auth.ts:58-66 | with a steady clock, the requests whose header names an address (that have none, for "unknown") are admitted at most 30 times in any half-open window of 60,000 ms |
| RateLimiter.AtMostLimitPerWindow | apps/indexer/src/auth.ts:64-66 | the limiter keeping the whole history meets that bound on every run, whatever the clock does |
| RateLimiter.RefusedExactlyAtTheLimit | apps/indexer/src/auth.ts:80-87 | with a steady clock, a request of acceptable size is refused if and only if 30 admissions of its address are less than 60,000 ms old, and there are never more |
| RateLimiter.RefusedExactlyAfterAFullWindow | apps/indexer/src/auth.ts:80-87 | with a clock that never goes back, it is refused if and only if 30 requests were admitted in the window ending with it |
| RateLimiter.BucketsAreSmall | apps/indexer/src/auth.ts:88-89 | no bucket ever holds more than 30 hits |
| RateLimiter.LosslessExactly | apps/indexer/src/auth.ts:70-97 | the guard decides as the full history does on every run reading a clock, if and only if no reading of that clock revives a hit an earlier one saw expired |
| RateLimiter.RevivalParts | apps/indexer/src/auth.ts:79-80 | for every t0, t1, t2, after a burst at t0 and one request at t1 the decision at t2 parts from the full history if and only if t1 - t0 >= 60,000 > t2 - t0, and then the guard admits what it refuses |
| RateLimiter.BackwardClockForgets | apps/indexer/src/auth.ts:79-80 | the run 0 (30 times), 60,000, 0: the guard admits the last request, the 31st in one window |

## Left out

- Engine internals: trades, liquidations, cranks and resolution appear as `EngineMove`, which
  may change anything but tokens, may lower V only on a market that is no longer live, cannot
  make it live again, and must keep V >= C_tot + I and all capital inside C_tot. Deposits,
  withdrawals and domain insurance follow the engine's own code; the parts of its account,
  domain and market validations that these calls leave as they found are one Boolean each.
- Solana plumbing: account ownership, PDA derivation, signers, rent, CPI encoding, byte
  layouts, and the checks that a config belongs to its market. An instruction that fails is
  reverted by the runtime, so its method commits only after its last check.
- Authority checks, session keys and the House exposure cap: they refuse more and add no state.
- Spread, skew funding, the Pyth gate, the mock pool and the constant-product spot: single
  formulas. The spot is an input of `DexMark`, and a refused accrual one Boolean.
- U256 `bitand`, the operator forwarding impls, I256 `signum` and `saturating_add`,
  `mul_div_ceil_u128`, `fee_debt_u128_checked` and the two `saturating_mul` helpers: easy members.
- Uint256.KaniU256.CheckedMul: multiplication, and the shift, `or` and division text, are the
  same in both layouts and written once; layout agreement is stated for add, sub, mul and cmp.
- HlpNavRuns.HlpSeedIsSafe: assumes that no engine move touches the House, unclipped equity and
  no Overpaid redemption along the run; without the first two the House's losses are the LPs'
  losses. HlpNavRuns.QuietHlpSeedIsSafe needs only the first along the run.
- Timelocks.RedemptionWaited: the unlock slot saturates at the end of the u64 slot counter, so
  an execution in that very last slot may come early.
- Timelocks.InsuranceWithdrawalWasAnnounced: the same last-slot exception.
- Twap.EmissionRule: assumes that the two u128 sums do not saturate and that the window weighs
  at most u64::MAX; `EmissionExactly` says what is emitted without that.
- DexMark.MarkStaysInHull: the same assumption, on the committed observations.
- CatchUp.GreedyIsOptimal: prices are non-negative, as the engine's are; keeper slot numbers
  are unbounded integers, so JavaScript number overflow is not modelled.
- RateLimiter.OpenWriteGuard.GuardOpenWrite: a content-length is a real number or not finite;
  header parsing, and several isolates each with a map of its own, are not modelled.
- The rest of the indexer, the keeper's networking, the SDK, the web client: I/O and UI.
