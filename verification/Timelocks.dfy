/**
 * Timelocks and governance over whole runs: every payout answers its own earlier request
 * after the delay in force at that request, and insurance withdrawals respect a floor and a
 * delay that only ever rise.
 */
module Timelocks {
  import opened Words
  import opened LpBook
  import opened MarketSteps
  import opened Custody
  import opened LpRuns

  // ---------- redemptions ----------

  function PositionIn(s: State, kind: LpKind, who: Owner): Position {
    var b := BookFor(s, kind);
    if b.None? then Position(0, 0, 0) else PositionOf(b.value, who)
  }

  function DelayIn(s: State, kind: LpKind): u64 {
    var b := BookFor(s, kind);
    if b.None? then 0 else b.value.delay
  }

  predicate IsExecutionBy(op: Op, kind: LpKind, who: Owner) {
    if kind.Hlp? then op == ExecuteHlp(who) else op == ExecuteInsLp(who)
  }

  predicate IsRequestBy(op: Op, kind: LpKind, who: Owner) {
    op.RequestRedeem? && op.kind == kind && op.who == who
  }

  predicate TouchesQueue(op: Op, kind: LpKind, who: Owner) {
    IsExecutionBy(op, kind, who) || IsRequestBy(op, kind, who)
  }

  /** Nothing but an LP's own requests and executions changes what the LP has queued. */
  lemma QueueFrame(s: State, now: u64, op: Op, kind: LpKind, who: Owner)
    requires Step(s, now, op).Err? || !TouchesQueue(op, kind, who)
    ensures var p, p' := PositionIn(s, kind, who), PositionIn(Next(s, now, op), kind, who);
            p'.pending == p.pending && p'.unlock == p.unlock
  {
    if WritesBook(op) {
      WriterKeepsQueue(s, now, op, kind, who);
    } else {
      BooksUntouched(s, now, op);
    }
    hide Step, Next;
  }

  lemma WriterKeepsQueue(s: State, now: u64, op: Op, kind: LpKind, who: Owner)
    requires (Step(s, now, op).Err? || !TouchesQueue(op, kind, who)) && WritesBook(op)
    ensures var p, p' := PositionIn(s, kind, who), PositionIn(Next(s, now, op), kind, who);
            p'.pending == p.pending && p'.unlock == p.unlock
  {
    if op.RequestRedeem? || op.SetLpParams? {
      TermsKeepQueue(s, now, op, kind, who);
    } else {
      TradesKeepQueue(s, now, op, kind, who);
    }
    hide Step, Next;
  }

  lemma TermsKeepQueue(s: State, now: u64, op: Op, kind: LpKind, who: Owner)
    requires (Step(s, now, op).Err? || !TouchesQueue(op, kind, who)) && (op.RequestRedeem? || op.SetLpParams?)
    ensures var p, p' := PositionIn(s, kind, who), PositionIn(Next(s, now, op), kind, who);
            p'.pending == p.pending && p'.unlock == p.unlock
  {
  }

  lemma TradesKeepQueue(s: State, now: u64, op: Op, kind: LpKind, who: Owner)
    requires Step(s, now, op).Err? || !TouchesQueue(op, kind, who)
    requires WritesBook(op) && !op.RequestRedeem? && !op.SetLpParams?
    ensures var p, p' := PositionIn(s, kind, who), PositionIn(Next(s, now, op), kind, who);
            p'.pending == p.pending && p'.unlock == p.unlock
  {
    hide HlpNav, DepositShares, Payout, Moved, InsuranceIn, InsuranceOut;
  }

  lemma RequestQueues(s: State, now: u64, op: Op, kind: LpKind, who: Owner)
    requires IsRequestBy(op, kind, who) && Step(s, now, op).Ok?
    ensures var p := PositionIn(Next(s, now, op), kind, who);
            p.pending == op.shares > 0 && p.unlock == SaturatingAdd64(now, DelayIn(s, kind))
  {
  }

  lemma ExecutionClears(s: State, now: u64, op: Op, kind: LpKind, who: Owner)
    requires IsExecutionBy(op, kind, who) && Step(s, now, op).Ok?
    ensures 0 < PositionIn(s, kind, who).pending && now >= PositionIn(s, kind, who).unlock
    ensures PositionIn(Next(s, now, op), kind, who).pending == 0
  {
    hide HlpNav, Payout, Moved, InsuranceOut;
  }

  /** Instruction i is the LP's successful request that n still has to answer. */
  ghost predicate LastRequest(s: State, run: Run, i: nat, n: nat, kind: LpKind, who: Owner)
    requires i < n <= |run|
  {
    && IsRequestBy(run[i].1, kind, who) && Succeeds(s, run, i)
    && forall j :: i < j < n && Succeeds(s, run, j) ==> !TouchesQueue(run[j].1, kind, who)
  }

  lemma LastRequestStands(s: State, run: Run, i: nat, m: nat, kind: LpKind, who: Owner)
    requires i < m < |run| && LastRequest(s, run, i, m, kind, who)
    requires Step(Before(s, run, m), run[m].0, run[m].1).Err? || !TouchesQueue(run[m].1, kind, who)
    ensures LastRequest(s, run, i, m + 1, kind, who)
  {
    hide Step;
  }

  lemma RequestIsLast(s: State, run: Run, m: nat, kind: LpKind, who: Owner)
    requires m < |run| && IsRequestBy(run[m].1, kind, who)
    requires Step(Before(s, run, m), run[m].0, run[m].1).Ok?
    ensures LastRequest(s, run, m, m + 1, kind, who)
  {
    hide Step;
  }

  lemma TouchesMeans(op: Op, kind: LpKind, who: Owner)
    ensures TouchesQueue(op, kind, who) <==> IsExecutionBy(op, kind, who) || IsRequestBy(op, kind, who)
    ensures IsRequestBy(op, kind, who) ==> op.RequestRedeem?
  {
  }

  /** Whatever an LP has queued was queued by its latest successful request, as it stands. */
  lemma {:induction false} QueueComesFromRequest(s: State, run: Run, n: nat, kind: LpKind, who: Owner) returns (i: nat)
    requires n <= |run| && PositionIn(s, kind, who).pending == 0
    requires PositionIn(Before(s, run, n), kind, who).pending > 0
    ensures i < n && LastRequest(s, run, i, n, kind, who) && run[i].1.RequestRedeem?
    ensures PositionIn(Before(s, run, n), kind, who).pending == run[i].1.shares
    ensures PositionIn(Before(s, run, n), kind, who).unlock
         == SaturatingAdd64(run[i].0, DelayIn(Before(s, run, i), kind))
  {
    hide *;
    BeforeStart(s, run);
    var m := n - 1;
    NextState(s, run, m);
    var b, now, op := Before(s, run, m), run[m].0, run[m].1;
    TouchesMeans(op, kind, who);
    if Step(b, now, op).Ok? && IsRequestBy(op, kind, who) {
      i := m;
      RequestQueues(b, now, op, kind, who);
      RequestIsLast(s, run, m, kind, who);
    } else {
      if Step(b, now, op).Ok? && IsExecutionBy(op, kind, who) {
        ExecutionClears(b, now, op, kind, who);
      }
      QueueFrame(b, now, op, kind, who);
      i := QueueComesFromRequest(s, run, m, kind, who);
      LastRequestStands(s, run, i, m, kind, who);
    }
  }

  /**
   * Every executed redemption answers an earlier request by the same LP, burns exactly the
   * shares that request named, and comes at least the delay in force at that request later
   * (up to the end of the slot counter). Between the two the LP executed nothing else.
   */
  lemma RedemptionWaited(s: State, run: Run, j: nat, kind: LpKind, who: Owner) returns (i: nat)
    requires j < |run| && PositionIn(s, kind, who).pending == 0
    requires IsExecutionBy(run[j].1, kind, who) && Succeeds(s, run, j)
    ensures i < j && LastRequest(s, run, i, j, kind, who) && run[i].1.RequestRedeem?
    ensures PositionIn(Before(s, run, j), kind, who).pending == run[i].1.shares
    ensures run[j].0 >= run[i].0 + DelayIn(Before(s, run, i), kind) || run[j].0 == U64_MAX
  {
    ExecutionClears(Before(s, run, j), run[j].0, run[j].1, kind, who);
    i := QueueComesFromRequest(s, run, j, kind, who);
    hide Step, PositionIn, DelayIn;
  }

  /** Each request pays at most once: two executions by one LP answer two different requests. */
  lemma RequestPaysOnce(s: State, run: Run, j1: nat, j2: nat, kind: LpKind, who: Owner)
    requires j1 < j2 < |run| && PositionIn(s, kind, who).pending == 0
    requires IsExecutionBy(run[j1].1, kind, who) && Succeeds(s, run, j1)
    requires IsExecutionBy(run[j2].1, kind, who) && Succeeds(s, run, j2)
    ensures exists i :: j1 < i < j2 && LastRequest(s, run, i, j2, kind, who)
  {
    var i := RedemptionWaited(s, run, j2, kind, who);
    hide Step, PositionIn;
  }

  // ---------- insurance governance ----------

  function WithdrawDelay(s: State): u64 {
    if s.insurance.None? then 0 else s.insurance.value.delay
  }

  lemma GovernanceRatchetsStep(s: State, now: u64, op: Op)
    ensures s.insurance.Some? ==> Next(s, now, op).insurance.Some?
    ensures Floor(Next(s, now, op)) >= Floor(s)
    ensures WithdrawDelay(Next(s, now, op)) >= WithdrawDelay(s)
  {
    if OnAccounts(op) {
      AccountsFrame(s, now, op);
    } else {
      FundsRatchet(s, now, op);
    }
    hide Step, Next;
  }

  lemma FundsRatchet(s: State, now: u64, op: Op)
    requires !OnAccounts(op)
    ensures s.insurance.Some? ==> Next(s, now, op).insurance.Some?
    ensures Floor(Next(s, now, op)) >= Floor(s)
    ensures WithdrawDelay(Next(s, now, op)) >= WithdrawDelay(s)
    ensures !TouchesPending(op) ==> PendingIn(Next(s, now, op)) == PendingIn(s)
  {
    if WritesBook(op) {
      LpFrame(s, now, op);
    } else {
      InsuranceRatchets(s, now, op);
    }
    hide Step, Next;
  }

  lemma InsuranceRatchets(s: State, now: u64, op: Op)
    requires !WritesBook(op) && !OnAccounts(op)
    ensures s.insurance.Some? ==> Next(s, now, op).insurance.Some?
    ensures Floor(Next(s, now, op)) >= Floor(s)
    ensures WithdrawDelay(Next(s, now, op)) >= WithdrawDelay(s)
    ensures !TouchesPending(op) ==> PendingIn(Next(s, now, op)) == PendingIn(s)
  {
    hide Moved, InsuranceIn, InsuranceOut;
  }

  lemma {:induction false} GovernanceOnlyRises(s: State, run: Run, i: nat, j: nat)
    requires i <= j <= |run|
    ensures Before(s, run, i).insurance.Some? ==> Before(s, run, j).insurance.Some?
    ensures Floor(Before(s, run, j)) >= Floor(Before(s, run, i))
    ensures WithdrawDelay(Before(s, run, j)) >= WithdrawDelay(Before(s, run, i))
  {
    if i < j {
      GovernanceOnlyRises(s, run, i, j - 1);
      NextState(s, run, j - 1);
      GovernanceRatchetsStep(Before(s, run, j - 1), run[j - 1].0, run[j - 1].1);
    }
    hide Step, Floor, WithdrawDelay;
  }

  /** Over any run the insurance config stays, and its floor and withdrawal delay never decrease. */
  lemma GovernanceRatchets(s: State, run: Run, i: nat, j: nat)
    requires i <= j <= |run| && Before(s, run, i).insurance.Some?
    ensures Before(s, run, j).insurance.Some?
    ensures var c, c' := Before(s, run, i).insurance.value, Before(s, run, j).insurance.value;
            c'.floor >= c.floor && c'.delay >= c.delay
  {
    GovernanceOnlyRises(s, run, i, j);
    hide Before;
  }

  /**
   * Only the engine's own loss absorption may take insurance below the floor: any instruction
   * that lowers I ends with I at or above the floor in force.
   */
  lemma PayoutsLeaveTheFloor(s: State, now: u64, op: Op)
    requires !op.EngineMove? && Next(s, now, op).engine.insurance < s.engine.insurance
    ensures op.ExecuteInsurance? || op.ExecuteInsLp?
    ensures var s' := Next(s, now, op);
            s'.insurance.Some? ==> s'.engine.insurance >= s'.insurance.value.floor
  {
    if !op.ExecuteInsurance? && !op.ExecuteInsLp? {
      InstructionsKeepMode(s, now, op);
    }
    hide HlpNav, DepositShares, Payout, Moved, Mint, Burn, Request, EngineDeposit, EngineWithdraw, InsuranceIn;
  }

  predicate TouchesPending(op: Op) {
    op.RequestInsurance? || op.ExecuteInsurance?
  }

  function PendingIn(s: State): (u128, u64, nat, nat) {
    if s.insurance.None? then (0, 0, 0, 0)
    else
      var c := s.insurance.value;
      (c.pending, c.unlock, c.asset, c.side)
  }

  lemma PendingFrame(s: State, now: u64, op: Op)
    requires Step(s, now, op).Err? || !TouchesPending(op)
    ensures PendingIn(Next(s, now, op)) == PendingIn(s)
  {
    NextMeans(s, now, op);
    if OnAccounts(op) {
      AccountsFrame(s, now, op);
    } else {
      FundsRatchet(s, now, op);
    }
    hide Step, Next;
  }

  lemma InsuranceRequestQueues(s: State, now: u64, op: Op)
    requires op.RequestInsurance? && Step(s, now, op).Ok?
    ensures PendingIn(Next(s, now, op)) == (op.amount, SaturatingAdd64(now, WithdrawDelay(s)), op.asset, op.side)
    ensures op.amount > 0
  {
  }

  /** The budget of one domain pays the amount; every other domain is as it was. */
  ghost predicate PaidFromDomain(e: Engine, e': Engine, domain: nat, amount: u128) {
    && domain in e.domains && domain in e'.domains
    && e'.domains[domain].budget == e.domains[domain].budget - amount
    && (forall d :: d != domain ==> (d in e.domains <==> d in e'.domains))
    && (forall d :: d != domain && d in e.domains ==> e'.domains[d] == e.domains[d])
  }

  lemma InsuranceExecutionClears(s: State, now: u64, op: Op)
    requires op.ExecuteInsurance? && Step(s, now, op).Ok?
    ensures 0 < PendingIn(s).0 && now >= PendingIn(s).1
    ensures PendingIn(Next(s, now, op)).0 == 0
    ensures Next(s, now, op).engine.insurance == s.engine.insurance - PendingIn(s).0
    ensures var (amount, _, asset, side) := PendingIn(s);
            PaidFromDomain(s.engine, Next(s, now, op).engine, 2 * asset + side, amount)
  {
    hide Moved;
  }

  ghost predicate LastInsuranceRequest(s: State, run: Run, i: nat, n: nat)
    requires i < n <= |run|
  {
    && run[i].1.RequestInsurance? && Succeeds(s, run, i)
    && forall j :: i < j < n && Succeeds(s, run, j) ==> !TouchesPending(run[j].1)
  }

  lemma LastInsuranceRequestStands(s: State, run: Run, i: nat, m: nat)
    requires i < m < |run| && LastInsuranceRequest(s, run, i, m)
    requires Step(Before(s, run, m), run[m].0, run[m].1).Err? || !TouchesPending(run[m].1)
    ensures LastInsuranceRequest(s, run, i, m + 1)
  {
    hide Step;
  }

  lemma InsuranceRequestIsLast(s: State, run: Run, m: nat)
    requires m < |run| && run[m].1.RequestInsurance?
    requires Step(Before(s, run, m), run[m].0, run[m].1).Ok?
    ensures LastInsuranceRequest(s, run, m, m + 1)
  {
    hide Step;
  }

  lemma TouchesPendingMeans(op: Op)
    ensures TouchesPending(op) <==> op.RequestInsurance? || op.ExecuteInsurance?
  {
  }

  lemma {:induction false} PendingComesFromRequest(s: State, run: Run, n: nat) returns (i: nat)
    requires n <= |run| && PendingIn(s).0 == 0 && PendingIn(Before(s, run, n)).0 > 0
    ensures i < n && run[i].1.RequestInsurance? && LastInsuranceRequest(s, run, i, n)
    ensures PendingIn(Before(s, run, n)) == (
              run[i].1.amount, SaturatingAdd64(run[i].0, WithdrawDelay(Before(s, run, i))),
              run[i].1.asset, run[i].1.side)
  {
    hide *;
    BeforeStart(s, run);
    var m := n - 1;
    NextState(s, run, m);
    var b, now, op := Before(s, run, m), run[m].0, run[m].1;
    TouchesPendingMeans(op);
    if Step(b, now, op).Ok? && op.RequestInsurance? {
      i := m;
      InsuranceRequestQueues(b, now, op);
      InsuranceRequestIsLast(s, run, m);
    } else {
      if Step(b, now, op).Ok? && op.ExecuteInsurance? {
        InsuranceExecutionClears(b, now, op);
      }
      PendingFrame(b, now, op);
      i := PendingComesFromRequest(s, run, m);
      LastInsuranceRequestStands(s, run, i, m);
    }
  }

  /**
   * Every authority withdrawal of insurance was announced: it pays exactly the amount of the
   * latest request out of the domain that request named, no earlier than the delay in force
   * at that request after it, and no other withdrawal answered that request.
   */
  lemma InsuranceWithdrawalWasAnnounced(s: State, run: Run, j: nat) returns (i: nat)
    requires j < |run| && PendingIn(s).0 == 0
    requires run[j].1.ExecuteInsurance? && Succeeds(s, run, j)
    ensures i < j && run[i].1.RequestInsurance? && LastInsuranceRequest(s, run, i, j)
    ensures Before(s, run, j + 1).engine.insurance == Before(s, run, j).engine.insurance - run[i].1.amount
    ensures PaidFromDomain(Before(s, run, j).engine, Before(s, run, j + 1).engine,
              2 * run[i].1.asset + run[i].1.side, run[i].1.amount)
    ensures run[j].0 >= run[i].0 + WithdrawDelay(Before(s, run, i)) || run[j].0 == U64_MAX
  {
    hide Step, Next, Before, PendingIn, WithdrawDelay, PaidFromDomain, LastInsuranceRequest;
    InsuranceExecutionClears(Before(s, run, j), run[j].0, run[j].1);
    i := PendingComesFromRequest(s, run, j);
    NextState(s, run, j);
  }

  lemma InsuranceRequestPaysOnce(s: State, run: Run, j1: nat, j2: nat)
    requires j1 < j2 < |run| && PendingIn(s).0 == 0
    requires run[j1].1.ExecuteInsurance? && Succeeds(s, run, j1)
    requires run[j2].1.ExecuteInsurance? && Succeeds(s, run, j2)
    ensures exists i :: j1 < i < j2 && LastInsuranceRequest(s, run, i, j2)
  {
    var i := InsuranceWithdrawalWasAnnounced(s, run, j2);
    hide Step, PendingIn;
  }

  // ---------- House capital ----------

  lemma HouseLockRatchetsStep(s: State, now: u64, op: Op)
    ensures Next(s, now, op).houseLock >= s.houseLock
  {
    if OnAccounts(op) {
      AccountsRatchetLock(s, now, op);
    } else {
      FundsFrame(s, now, op);
    }
    hide Step, Next;
  }

  lemma AccountsRatchetLock(s: State, now: u64, op: Op)
    requires OnAccounts(op)
    ensures Next(s, now, op).houseLock >= s.houseLock
  {
    hide Moved, EngineDeposit, EngineWithdraw, CapitalCovered;
  }

  lemma {:induction false} HouseLockRatchets(s: State, run: Run, i: nat, j: nat)
    requires i <= j <= |run|
    ensures Before(s, run, j).houseLock >= Before(s, run, i).houseLock
  {
    if i < j {
      HouseLockRatchets(s, run, i, j - 1);
      NextState(s, run, j - 1);
      HouseLockRatchetsStep(Before(s, run, j - 1), run[j - 1].0, run[j - 1].1);
    }
    hide Step;
  }

  /**
   * The authority's own House withdrawal never happens while LP shares are outstanding, nor
   * before any lock slot committed earlier in the run.
   */
  lemma HouseWithdrawalIsGuarded(s: State, run: Run, i: nat, j: nat)
    requires i <= j < |run| && run[j].1.WithdrawHouse? && Succeeds(s, run, j)
    ensures TotalOf(Before(s, run, j), Hlp) == 0
    ensures run[j].0 >= Before(s, run, i).houseLock
  {
    HouseLockRatchets(s, run, i, j);
    hide DrainHouseStep;
  }

  lemma LockIsStored(s: State, now: u64, slot: u64)
    requires Step(s, now, SetHouseLock(slot)).Ok?
    ensures Next(s, now, SetHouseLock(slot)).houseLock == slot
  {
  }

  /** Once a lock slot is committed, no House withdrawal of the run succeeds before it. */
  lemma HouseLockHolds(s: State, run: Run, i: nat, j: nat)
    requires i < j < |run| && run[i].1.SetHouseLock? && Succeeds(s, run, i)
    requires run[j].1.WithdrawHouse? && Succeeds(s, run, j)
    ensures run[j].0 >= run[i].1.slot
  {
    LockIsStored(Before(s, run, i), run[i].0, run[i].1.slot);
    NextState(s, run, i);
    HouseLockRatchets(s, run, i + 1, j);
    HouseWithdrawalIsGuarded(s, run, j, j);
    hide Step, Next;
  }
}
