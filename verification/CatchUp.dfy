/**
 * The keeper's catch-up planner (packages/keeper/src/freshness.ts): how many accruals to send
 * and which price each one pushes. Numbers are unbounded integers, as its bigints are.
 */
module CatchUp {
  import opened Arith

  const MAX_MARGIN_BPS: int := 10_000

  datatype Args = Args(
    mark: int, target: int, slotLast: int, nowSlot: int, maxDt: int, bps: nat, maxSteps: int)

  function Max(a: int, b: int): int { if a > b then a else b }
  function Min(a: int, b: int): int { if a < b then a else b }

  function DtCap(args: Args): (c: int)
    ensures c >= 1
  {
    if args.maxDt > 0 then args.maxDt else 1
  }

  function Behind(args: Args): nat {
    Max(0, args.nowSlot - args.slotLast)
  }

  /** The steps planCatchUpAccruals returns: ceil(behind / dt), at least 1, at most maxSteps. */
  function SegmentCount(args: Args): int {
    Min(Max(1, -((0 - Behind(args)) / DtCap(args))), args.maxSteps)
  }

  /** The slots the next segment covers when remaining are left. */
  function SegmentDt(cap: int, remaining: int): (dt: int)
    requires cap >= 1
    ensures 1 <= dt <= cap
  {
    Max(1, Min(cap, remaining))
  }

  function RemainingAfter(args: Args, k: nat): int {
    if k == 0 then Behind(args)
    else RemainingAfter(args, k - 1) - SegmentDt(DtCap(args), RemainingAfter(args, k - 1))
  }

  function DtAt(args: Args, k: nat): int {
    SegmentDt(DtCap(args), RemainingAfter(args, k))
  }

  /** One step of the walk: toward the target, by at most the price-move budget. */
  function Walk(price: int, target: int, bps: nat, dt: int): int {
    var budget := TruncDiv(price * bps * dt, MAX_MARGIN_BPS);
    var diff := if target > price then target - price else price - target;
    var move := if diff < budget then diff else budget;
    if target > price then price + move else price - move
  }

  function PriceAfter(args: Args, k: nat): int {
    if k == 0 then args.mark else Walk(PriceAfter(args, k - 1), args.target, args.bps, DtAt(args, k - 1))
  }

  /**
   * planAccrualSteps: without a prior mark every segment pushes the target; otherwise step i
   * pushes the i-th price of the walk.
   */
  method PlanAccrualSteps(args: Args) returns (out: seq<int>)
    ensures |out| == Max(0, SegmentCount(args))
    ensures |out| >= 1 <==> args.maxSteps >= 1
    ensures args.mark <= 0 ==> forall i :: 0 <= i < |out| ==> out[i] == args.target
    ensures args.mark > 0 ==> forall i :: 0 <= i < |out| ==> out[i] == PriceAfter(args, i + 1)
  {
    var segments := SegmentCount(args);
    StepsExactly(args);
    if args.mark <= 0 {
      return seq(Max(0, segments), i => args.target);
    }
    out := [];
    var price, remaining: int := args.mark, Behind(args);
    var i := 0;
    while i < segments
      invariant 0 <= i <= Max(0, segments) && |out| == i
      invariant price == PriceAfter(args, i) && remaining == RemainingAfter(args, i)
      invariant forall k :: 0 <= k < i ==> out[k] == PriceAfter(args, k + 1)
    {
      var dt := Max(1, Min(DtCap(args), remaining));
      remaining := remaining - dt;
      var budget := TruncDiv(price * args.bps * dt, MAX_MARGIN_BPS);
      var diff := if args.target > price then args.target - price else price - args.target;
      var move := if diff < budget then diff else budget;
      price := if args.target > price then price + move else price - move;
      out := out + [price];
      i := i + 1;
    }
  }

  /** A plan has a step, as its documentation promises, exactly when maxSteps allows one. */
  lemma StepsExactly(args: Args)
    ensures SegmentCount(args) >= 1 <==> args.maxSteps >= 1
    ensures args.maxSteps >= 1 ==> SegmentCount(args) <= args.maxSteps
  {
  }

  /** An asset ten slots behind with maxSteps 0: no step at all is planned. */
  lemma NoStepPlanned()
    ensures SegmentCount(Args(100, 200, 0, 10, 5, 100, 0)) == 0
    ensures SegmentCount(Args(100, 200, 0, 10, 5, 100, 8)) == 2
  {
    DivModUnique(-10, 5, -2, 0);
  }

  // ---------- the slots planned ----------

  function Covered(args: Args, k: nat): int {
    if k == 0 then 0 else Covered(args, k - 1) + DtAt(args, k - 1)
  }

  lemma {:induction false} CoveredIsSpent(args: Args, k: nat)
    ensures Covered(args, k) == Behind(args) - RemainingAfter(args, k)
  {
    if k > 0 {
      CoveredIsSpent(args, k - 1);
    }
  }

  lemma {:induction false} EarlySegmentsAreFull(args: Args, k: nat)
    requires k * DtCap(args) <= Behind(args)
    ensures RemainingAfter(args, k) == Behind(args) - k * DtCap(args)
  {
    if k > 0 {
      var c := DtCap(args);
      assert k * c == (k - 1) * c + c;
      EarlySegmentsAreFull(args, k - 1);
    }
  }

  /** The segments never cover more slots than the asset is behind (one slot if it is not). */
  lemma SlotsWithinBehind(args: Args, k: nat)
    requires k <= SegmentCount(args)
    ensures Covered(args, k) <= Max(1, Behind(args))
  {
    CoveredIsSpent(args, k);
    if k > 0 {
      var c, b := DtCap(args), Behind(args);
      var m := k - 1;
      if b > 0 {
        SegmentsBefore(b, c, m);
        EarlySegmentsAreFull(args, m);
      } else {
        assert -b == 0;
        DivModUnique(0, c, 0, 0);
        assert m == 0;
      }
    }
  }

  lemma SegmentsBefore(b: int, c: int, m: nat)
    requires b > 0 && c >= 1 && m < Max(1, -((0 - b) / c))
    ensures m * c < b
  {
    FloorIsGreatest(0 - b, c, 0 - m);
    assert (0 - m) * c == -(m * c);
    MulMono(0, m, c);
  }

  /** All segments but the last are full. */
  lemma FullSegments(args: Args, k: nat)
    requires k < SegmentCount(args)
    ensures k == 0 || k * DtCap(args) < Behind(args)
    ensures Behind(args) > 0 ==> RemainingAfter(args, k) == Behind(args) - k * DtCap(args) > 0
  {
    var c, b := DtCap(args), Behind(args);
    if b > 0 {
      SegmentsBefore(b, c, k);
      EarlySegmentsAreFull(args, k);
    } else {
      DivModUnique(0, c, 0, 0);
    }
  }

  /**
   * The plan catches up: as many segments as it takes and no more, each of at most maxDt slots.
   * It covers every slot the asset is behind (one slot if it is not behind), unless maxSteps
   * stops it, and then it covers maxSteps full segments.
   */
  lemma PlanCatchesUp(args: Args)
    requires args.maxSteps >= 1
    ensures var n := SegmentCount(args);
            var behind, c := Max(0, args.nowSlot - args.slotLast), if args.maxDt > 0 then args.maxDt else 1;
            && n >= 1
            && (n < args.maxSteps ==> Covered(args, n) == Max(1, behind))
            && Covered(args, n) >= Min(behind, n * c)
            && (behind > 0 ==> (n - 1) * c < behind)
  {
    var n, c, b := SegmentCount(args), DtCap(args), Behind(args);
    FullSegments(args, n - 1);
    CoveredIsSpent(args, n - 1);
    MulDistributes(n, -1, c);
    if b == 0 {
      DivModUnique(0, c, 0, 0);
    } else if n < args.maxSteps {
      EnoughSegments(b, c, n);
    }
  }

  lemma EnoughSegments(b: int, c: int, n: int)
    requires b > 0 && c >= 1 && n == Max(1, -((0 - b) / c))
    ensures b <= n * c
  {
    FloorIsGreatest(0 - b, c, (0 - b) / c);
    MulMono(-((0 - b) / c), n, c);
    assert (0 - b) / c * c == -(-((0 - b) / c) * c);
  }

  /** Every planned segment but the last is full, and the last takes what is left (at least one slot). */
  lemma SegmentsAreFull(args: Args, k: nat)
    requires k < SegmentCount(args)
    ensures var behind, c := Max(0, args.nowSlot - args.slotLast), if args.maxDt > 0 then args.maxDt else 1;
            && 1 <= DtAt(args, k) <= c
            && (k + 1 < SegmentCount(args) ==> DtAt(args, k) == c)
            && (k + 1 == SegmentCount(args) ==> DtAt(args, k) == Max(1, Min(c, behind - k * c)))
  {
    FullSegments(args, k);
    if k + 1 < SegmentCount(args) {
      FullSegments(args, k + 1);
      MulDistributes(k, 1, DtCap(args));
    } else if Behind(args) == 0 {
      DivModUnique(0, DtCap(args), 0, 0);
    }
  }

  // ---------- one step ----------

  /** What a step may move: the floor of price * bps * dt / 10000. */
  function Budget(price: int, bps: nat, dt: int): int {
    (price * (bps * dt)) / MAX_MARGIN_BPS
  }

  /** The engine's per-slot bound on one accrual. */
  ghost predicate Admitted(before: int, after: int, bps: nat, dt: int) {
    Max(after - before, before - after) * 10_000 <= before * (bps * dt)
  }

  lemma BudgetFacts(price: nat, bps: nat, dt: nat)
    ensures Budget(price, bps, dt) >= 0
    ensures TruncDiv(price * bps * dt, MAX_MARGIN_BPS) == Budget(price, bps, dt)
    ensures forall move ::
              0 <= move <= Budget(price, bps, dt) <==> 0 <= move && move * MAX_MARGIN_BPS <= price * (bps * dt)
  {
    MulMono(0, bps, dt);
    MulMono(0, price, bps * dt);
    MulAssociates(price, bps, dt);
  }

  /** A planned step never overshoots, never turns back, and is always admitted. */
  lemma WalkIsSafe(price: nat, target: nat, bps: nat, dt: nat)
    ensures var next := Walk(price, target, bps, dt);
            && (price <= target ==> next == Min(target, price + Budget(price, bps, dt)) && price <= next)
            && (price >= target ==> next == Max(target, price - Budget(price, bps, dt)) && price >= next)
            && Admitted(price, next, bps, dt)
            && next >= 0
  {
    BudgetFacts(price, bps, dt);
    hide Budget;
  }

  lemma {:induction false} WalkStaysInRange(args: Args, k: nat)
    requires args.mark > 0 && args.target >= 0
    ensures PriceAfter(args, k) >= 0
    ensures args.mark <= args.target ==> args.mark <= PriceAfter(args, k) <= args.target
    ensures args.mark >= args.target ==> args.mark >= PriceAfter(args, k) >= args.target
  {
    if k > 0 {
      WalkStaysInRange(args, k - 1);
      WalkIsSafe(PriceAfter(args, k - 1), args.target, args.bps, DtAt(args, k - 1));
      hide Walk, Admitted, Budget;
    }
  }

  /**
   * The plan moves monotonically to the target without passing it, and the engine admits
   * every step against the price before it.
   */
  lemma PlanIsAdmitted(args: Args, k: nat)
    requires args.mark > 0 && args.target >= 0
    ensures Admitted(PriceAfter(args, k), PriceAfter(args, k + 1), args.bps, DtAt(args, k))
    ensures args.mark <= args.target ==> PriceAfter(args, k) <= PriceAfter(args, k + 1) <= args.target
    ensures args.mark >= args.target ==> PriceAfter(args, k) >= PriceAfter(args, k + 1) >= args.target
  {
    WalkStaysInRange(args, k);
    WalkStaysInRange(args, k + 1);
    WalkIsSafe(PriceAfter(args, k), args.target, args.bps, DtAt(args, k));
    hide Walk, Admitted, Budget;
  }

  // ---------- optimality ----------

  /** Any other way to walk the same segments with non-negative prices the engine admits. */
  ghost predicate Schedule(args: Args, ps: seq<int>) {
    && |ps| > 0 && ps[0] == args.mark
    && (forall i :: 0 <= i < |ps| ==> ps[i] >= 0)
    && (forall i :: 0 <= i < |ps| - 1 ==> Admitted(ps[i], ps[i + 1], args.bps, DtAt(args, i)))
  }

  lemma BudgetGrows(p: nat, q: nat, bps: nat, dt: nat)
    requires p <= q
    ensures Budget(p, bps, dt) <= Budget(q, bps, dt)
    ensures bps * dt < MAX_MARGIN_BPS ==> Budget(q, bps, dt) <= Budget(p, bps, dt) + (q - p)
    ensures bps * dt >= MAX_MARGIN_BPS ==> Budget(p, bps, dt) >= p
  {
    var c := bps * dt;
    MulMono(0, bps, dt);
    MulMono(p, q, c);
    if c < MAX_MARGIN_BPS {
      MulMono(c, MAX_MARGIN_BPS, q - p);
      assert q * c == p * c + (q - p) * c;
      MulCommutes(c, q - p);
    } else {
      MulMono(MAX_MARGIN_BPS, c, p);
      MulCommutes(c, p);
    }
  }

  lemma AdmittedWithinBudget(p: nat, p': nat, bps: nat, dt: nat)
    requires Admitted(p, p', bps, dt)
    ensures p - Budget(p, bps, dt) <= p' <= p + Budget(p, bps, dt)
  {
    BudgetFacts(p, bps, dt);
    var move := Max(p' - p, p - p');
    assert 0 <= move && move * MAX_MARGIN_BPS <= p * (bps * dt);
  }

  /** One greedy step is at least as close as any admitted step from a price no closer. */
  lemma GreedyStepDominates(g: nat, p: nat, p': nat, target: nat, bps: nat, dt: nat)
    requires Admitted(p, p', bps, dt)
    ensures g <= target && Min(p, target) <= g ==> Min(p', target) <= Walk(g, target, bps, dt)
    ensures g >= target && Max(p, target) >= g ==> Max(p', target) >= Walk(g, target, bps, dt)
  {
    MulMono(0, bps, dt);
    WalkIsSafe(g, target, bps, dt);
    BudgetFacts(g, bps, dt);
    AdmittedWithinBudget(p, p', bps, dt);
    if p <= g {
      BudgetGrows(p, g, bps, dt);
    } else {
      BudgetGrows(g, p, bps, dt);
    }
    hide Walk, Budget, Admitted;
  }

  /** After every segment the plan is at least as close to the target as any schedule. */
  lemma {:induction false} GreedyDominates(args: Args, ps: seq<int>, k: nat)
    requires args.mark > 0 && args.target >= 0 && Schedule(args, ps) && k < |ps|
    ensures args.mark <= args.target ==> Min(ps[k], args.target) <= PriceAfter(args, k)
    ensures args.mark >= args.target ==> Max(ps[k], args.target) >= PriceAfter(args, k)
  {
    if k > 0 {
      GreedyDominates(args, ps, k - 1);
      WalkStaysInRange(args, k - 1);
      assert Admitted(ps[k - 1], ps[k - 1 + 1], args.bps, DtAt(args, k - 1));
      GreedyStepDominates(PriceAfter(args, k - 1), ps[k - 1], ps[k], args.target, args.bps, DtAt(args, k - 1));
      hide Walk, Admitted, Budget;
    }
  }

  /**
   * The greedy plan is optimal: it ends at least as close to the target as any admitted
   * schedule over the same segments, and reaches the target if and only if one does.
   */
  lemma GreedyIsOptimal(args: Args, k: nat)
    requires args.mark > 0 && args.target >= 0
    ensures PriceAfter(args, k) == args.target <==>
              exists ps :: Schedule(args, ps) && |ps| == k + 1 && ps[k] == args.target
  {
    var greedy := GreedySchedule(args, k);
    if ps :| Schedule(args, ps) && |ps| == k + 1 && ps[k] == args.target {
      GreedyDominates(args, ps, k);
      WalkStaysInRange(args, k);
    }
  }

  lemma {:induction false} GreedySchedule(args: Args, k: nat) returns (ps: seq<int>)
    requires args.mark > 0 && args.target >= 0
    ensures Schedule(args, ps) && |ps| == k + 1 && ps[k] == PriceAfter(args, k)
  {
    if k == 0 {
      ps := [args.mark];
    } else {
      var before := GreedySchedule(args, k - 1);
      ps := before + [PriceAfter(args, k)];
      PlanIsAdmitted(args, k - 1);
      WalkStaysInRange(args, k);
      hide Walk, Admitted;
    }
  }
}
