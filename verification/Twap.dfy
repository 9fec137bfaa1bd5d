/**
 * The rolling time-weighted average behind CrankDexSpot (twap_observe_buffer in
 * crates/program/src/state.rs, twap_accumulate and twap_average in dexamm.rs).
 */
module Twap {
  import opened Wrappers
  import opened Arith
  import opened Words

  const WINDOW_SECS: int := 30
  const MAX_OBS_DT_SECS: int := 10

  type i64 = x: int | -0x8000_0000_0000_0000 <= x < 0x8000_0000_0000_0000
  const I64_MAX: i64 := 0x7fff_ffff_ffff_ffff
  const I64_MIN: i64 := -0x8000_0000_0000_0000

  function SaturatingSubI64(a: i64, b: i64): i64 {
    if a - b > I64_MAX then I64_MAX else if a - b < I64_MIN then I64_MIN else a - b
  }

  /** Seconds from b to a, saturating, never negative. */
  function Elapsed(a: i64, b: i64): (d: u64)
    ensures d >= WINDOW_SECS <==> a - b >= WINDOW_SECS
  {
    var d := SaturatingSubI64(a, b);
    if d < 0 then 0 else d
  }

  /** twap_accumulate. */
  function Accumulate(cumulative: u128, lastPrice: u64, dt: u64): u128 {
    MulMono(0, lastPrice, dt);
    SaturatingAdd(cumulative, lastPrice * dt)
  }

  /** twap_average. */
  function Average(cumNow: u128, cumThen: u128, window: u64): Option<u64> {
    if window == 0 then None
    else if cumNow < cumThen then None
    else
      DivShrinks(cumNow - cumThen, window);
      var q := (cumNow - cumThen) / window;
      if q > U64_MAX then None else Some(q)
  }

  /** The accumulator account; Fresh is the zeroed account before its first observation. */
  datatype Accumulator = Fresh | Live(
    lastTs: i64, lastPrice: u64, cumulative: u128, weighted: u128,
    anchorTs: i64, anchorCumulative: u128, anchorWeighted: u128)

  /** One observation on the account it is bound to: the new account and what is emitted. */
  function Observe(a: Accumulator, now: i64, spot: u64): (Accumulator, Option<u64>) {
    if a.Fresh? then (Live(now, spot, 0, 0, now, 0, 0), None)
    else
      var dt := Elapsed(now, a.lastTs);
      var w := if dt < MAX_OBS_DT_SECS then dt else MAX_OBS_DT_SECS;
      var cumulative := Accumulate(a.cumulative, a.lastPrice, w);
      var weighted := SaturatingAdd(a.weighted, w);
      var a' := a.(lastTs := now, lastPrice := spot, cumulative := cumulative, weighted := weighted);
      if Elapsed(now, a.anchorTs) < WINDOW_SECS then (a', None)
      else
        var gained := if weighted < a.anchorWeighted then 0 else weighted - a.anchorWeighted;
        var window := if gained > U64_MAX then U64_MAX else gained;
        var twap := Average(cumulative, a.anchorCumulative, window);
        if twap.None? then (a', None)
        else (a'.(anchorTs := now, anchorCumulative := cumulative, anchorWeighted := weighted), twap)
  }

  datatype Key = Key(market: nat, asset: nat)

  /** The account with its binding, overwritten in place by every observation. */
  class TwapAccount {
    var bound: Option<Key>
    var state: Accumulator

    ghost predicate Valid()
      reads this
    {
      bound.None? <==> state.Fresh?
    }

    constructor ()
      ensures Valid() && state == Fresh
    {
      bound := None;
      state := Fresh;
    }

    /** twap_observe_buffer: an account bound to another market or asset is refused untouched. */
    method ObserveBuffer(key: Key, now: i64, spot: u64) returns (r: Result<Option<u64>, ()>)
      requires Valid()
      modifies this
      ensures Valid()
      ensures r.Err? <==> old(bound).Some? && old(bound).value != key
      ensures r.Err? ==> state == old(state) && bound == old(bound)
      ensures r.Ok? ==> bound == Some(key) && (state, r.value) == Observe(old(state), now, spot)
    {
      if state.Fresh? {
        bound := Some(key);
        state := Live(now, spot, 0, 0, now, 0, 0);
        return Ok(None);
      }
      if bound != Some(key) {
        return Err(());
      }
      var before := state;
      var dt := Elapsed(now, before.lastTs);
      var w := if dt < MAX_OBS_DT_SECS then dt else MAX_OBS_DT_SECS;
      var cumulative := Accumulate(before.cumulative, before.lastPrice, w);
      var weighted := SaturatingAdd(before.weighted, w);
      state := state.(cumulative := cumulative, weighted := weighted);
      state := state.(lastTs := now, lastPrice := spot);
      if Elapsed(now, before.anchorTs) >= WINDOW_SECS {
        var gained := if weighted < before.anchorWeighted then 0 else weighted - before.anchorWeighted;
        var twap := Average(cumulative, before.anchorCumulative, if gained > U64_MAX then U64_MAX else gained);
        if twap.Some? {
          state := state.(anchorTs := now, anchorCumulative := cumulative, anchorWeighted := weighted);
          return Ok(twap);
        }
      }
      return Ok(None);
    }
  }

  // ---------- histories ----------

  datatype Obs = Obs(ts: i64, spot: u64)

  function After(a: Accumulator, h: seq<Obs>): Accumulator {
    if |h| == 0 then a
    else Observe(After(a, h[..|h| - 1]), h[|h| - 1].ts, h[|h| - 1].spot).0
  }

  /** What observation i of a history, started on a fresh account, emits. */
  function EmittedAt(h: seq<Obs>, i: nat): Option<u64>
    requires i < |h|
  {
    Observe(After(Fresh, h[..i]), h[i].ts, h[i].spot).1
  }

  /** Everything a history emits, in order. */
  function Emissions(a: Accumulator, h: seq<Obs>): seq<u64> {
    if |h| == 0 then []
    else
      var n := |h| - 1;
      Emissions(a, h[..n]) + AsList(Observe(After(a, h[..n]), h[n].ts, h[n].spot).1)
  }

  // ---------- a price replaced within the second leaves no trace ----------

  /** Observing price x and then y in the same second is observing y alone. */
  lemma SameSecondErases(a: Accumulator, t: i64, x: u64, y: u64)
    ensures var (b, e1) := Observe(a, t, x);
            var (c, e2) := Observe(b, t, y);
            var (d, e) := Observe(a, t, y);
            c == d && e2.None? && e1 == e
  {
  }

  /** Emissions as a list, so that none adds nothing. */
  function AsList(e: Option<u64>): seq<u64> {
    if e.Some? then [e.value] else []
  }

  lemma Extended(a: Accumulator, h: seq<Obs>, o: Obs)
    ensures After(a, h + [o]) == Observe(After(a, h), o.ts, o.spot).0
    ensures Emissions(a, h + [o]) == Emissions(a, h) + AsList(Observe(After(a, h), o.ts, o.spot).1)
  {
    assert (h + [o])[..|h|] == h;
    hide Observe;
  }

  lemma {:induction false} HistoriesCompose(a: Accumulator, h: seq<Obs>, k: seq<Obs>)
    ensures After(a, h + k) == After(After(a, h), k)
    ensures Emissions(a, h + k) == Emissions(a, h) + Emissions(After(a, h), k)
  {
    hide *;
    if |k| == 0 {
      assert h + k == h && k == [];
      NoObservation(After(a, h));
    } else {
      var n := |k| - 1;
      var p, o := k[..n], k[n];
      HistoriesCompose(a, h, p);
      assert k == p + [o];
      assert h + k == (h + p) + [o];
      Extended(a, h + p, o);
      Extended(After(a, h), p, o);
      assert (Emissions(a, h) + Emissions(After(a, h), p)) + AsList(Observe(After(a, h + p), o.ts, o.spot).1)
          == Emissions(a, h) + (Emissions(After(a, h), p) + AsList(Observe(After(a, h + p), o.ts, o.spot).1));
    }
  }

  lemma NoObservation(a: Accumulator)
    ensures After(a, []) == a && Emissions(a, []) == []
  {
  }

  lemma SameSecondPair(a: Accumulator, p: seq<Obs>, x: Obs, y: Obs)
    requires x.ts == y.ts
    ensures After(a, p + [x] + [y]) == After(a, p + [y])
    ensures Emissions(a, p + [x] + [y]) == Emissions(a, p + [y])
  {
    Extended(a, p, x);
    Extended(a, p + [x], y);
    Extended(a, p, y);
    SameSecondErases(After(a, p), x.ts, x.spot, y.spot);
    hide Observe;
  }

  /** The history without every observation that a later one in the same second replaces. */
  function Settled(h: seq<Obs>): (k: seq<Obs>)
    ensures |k| <= |h|
    decreases |h|
  {
    var n := |h|;
    if n == 0 then []
    else if n >= 2 && h[n - 2].ts == h[n - 1].ts then Settled(h[..n - 2] + [h[n - 1]])
    else Settled(h[..n - 1]) + [h[n - 1]]
  }

  /**
   * Dropping every price that was replaced within its own second changes neither the final
   * account nor any emitted average, whatever comes before, between or after.
   */
  lemma {:induction false} FlashesLeaveNoTrace(a: Accumulator, h: seq<Obs>)
    ensures After(a, Settled(h)) == After(a, h)
    ensures Emissions(a, Settled(h)) == Emissions(a, h)
    decreases |h|
  {
    hide *;
    var n := |h|;
    SettledByEnd(h);
    if n >= 2 && h[n - 2].ts == h[n - 1].ts {
      var p, x, y := h[..n - 2], h[n - 2], h[n - 1];
      FlashesLeaveNoTrace(a, p + [y]);
      assert h == p + [x] + [y];
      SameSecondPair(a, p, x, y);
    } else if n > 0 {
      var p, y := h[..n - 1], h[n - 1];
      FlashesLeaveNoTrace(a, p);
      assert h == p + [y];
      Extended(a, p, y);
      Extended(a, Settled(p), y);
    }
  }

  lemma SettledByEnd(h: seq<Obs>)
    ensures var n := |h|;
            && (n == 0 ==> Settled(h) == h)
            && (n >= 2 && h[n - 2].ts == h[n - 1].ts ==> Settled(h) == Settled(h[..n - 2] + [h[n - 1]]))
            && (n == 1 || (n >= 2 && h[n - 2].ts != h[n - 1].ts) ==> Settled(h) == Settled(h[..n - 1]) + [h[n - 1]])
  {
  }

  // ---------- the accumulator is a fold over the whole history ----------

  /** min(max(later - earlier, 0), 10), on unbounded integers. */
  function Weight(earlier: int, later: int): (w: nat)
    ensures w <= 10
  {
    if later <= earlier then 0 else if later - earlier < 10 then later - earlier else 10
  }

  /** Total weight of a history, and total weighted price. */
  function WeightSum(h: seq<Obs>): nat {
    var n := |h|;
    if n < 2 then 0 else WeightSum(h[..n - 1]) + Weight(h[n - 2].ts, h[n - 1].ts)
  }

  function PriceSum(h: seq<Obs>): nat {
    var n := |h|;
    if n < 2 then 0
    else
      MulMono(0, h[n - 2].spot, Weight(h[n - 2].ts, h[n - 1].ts));
      PriceSum(h[..n - 1]) + h[n - 2].spot * Weight(h[n - 2].ts, h[n - 1].ts)
  }

  function Capped(x: nat): u128 {
    if x > U128_MAX then U128_MAX else x
  }

  /** The observation the current window is anchored at: the last emission, or the first one. */
  function AnchorIndex(h: seq<Obs>): (i: nat)
    requires |h| > 0
    ensures i < |h|
  {
    var n := |h| - 1;
    if n == 0 || EmittedAt(h, n).Some? then n else AnchorIndex(h[..n])
  }

  /**
   * Whatever the clock does, the account holds exactly the capped sums over the whole history
   * and the sums up to the anchor.
   */
  lemma {:induction false} AccumulatorIsFold(h: seq<Obs>)
    requires |h| > 0
    ensures var a, i := After(Fresh, h), AnchorIndex(h);
            a == Live(h[|h| - 1].ts, h[|h| - 1].spot, Capped(PriceSum(h)), Capped(WeightSum(h)),
                      h[i].ts, Capped(PriceSum(h[..i + 1])), Capped(WeightSum(h[..i + 1])))
  {
    hide *;
    var n := |h| - 1;
    if n == 0 {
      FirstObservation(h);
    } else {
      var p := h[..n];
      AccumulatorIsFold(p);
      var i := AnchorIndex(p);
      assert p[i] == h[i] && p[..i + 1] == h[..i + 1] && p[n - 1] == h[n - 1] && h[..n + 1] == h;
      SumsExtend(h);
      FoldStep(After(Fresh, p), h[n], PriceSum(p), WeightSum(p));
      LastObservation(h);
    }
  }

  lemma FirstObservation(h: seq<Obs>)
    requires |h| == 1
    ensures After(Fresh, h) == Live(h[0].ts, h[0].spot, 0, 0, h[0].ts, 0, 0)
    ensures AnchorIndex(h) == 0 && h[..1] == h
    ensures Capped(PriceSum(h)) == Capped(WeightSum(h)) == 0
  {
    assert h[..0] == [];
  }

  lemma LastObservation(h: seq<Obs>)
    requires |h| >= 2
    ensures var n := |h| - 1;
            var p := h[..n];
            && After(Fresh, h) == Observe(After(Fresh, p), h[n].ts, h[n].spot).0
            && EmittedAt(h, n) == Observe(After(Fresh, p), h[n].ts, h[n].spot).1
            && AnchorIndex(h) == if EmittedAt(h, n).Some? then n else AnchorIndex(p)
  {
    hide Observe;
  }

  lemma FoldStep(a: Accumulator, o: Obs, price: nat, weight: nat)
    requires a.Live? && a.cumulative == Capped(price) && a.weighted == Capped(weight)
    ensures var (b, e) := Observe(a, o.ts, o.spot);
            var w := Weight(a.lastTs, o.ts);
            && price + a.lastPrice * w >= 0
            && var c, v := Capped(price + a.lastPrice * w), Capped(weight + w);
            b == if e.Some? then Live(o.ts, o.spot, c, v, o.ts, c, v)
                 else Live(o.ts, o.spot, c, v, a.anchorTs, a.anchorCumulative, a.anchorWeighted)
  {
    var w := Weight(a.lastTs, o.ts);
    ObservedFields(a, o.ts, o.spot);
    SaturationCaps(price, a.lastPrice * w);
    SaturationCaps(weight, w);
    hide Observe, Capped, SaturatingAdd, Weight;
  }

  lemma SumsExtend(h: seq<Obs>)
    requires |h| >= 2
    ensures var n, p := |h| - 1, h[..|h| - 1];
            && WeightSum(h) == WeightSum(p) + Weight(h[n - 1].ts, h[n].ts)
            && PriceSum(h) == PriceSum(p) + h[n - 1].spot * Weight(h[n - 1].ts, h[n].ts)
            && h[n - 1].spot * Weight(h[n - 1].ts, h[n].ts) >= 0
  {
    MulMono(0, h[|h| - 2].spot, Weight(h[|h| - 2].ts, h[|h| - 1].ts));
  }

  /** What one observation does to a live account, with the window rolled on emission. */
  lemma ObservedFields(a: Accumulator, now: i64, spot: u64)
    requires a.Live?
    ensures var (b, e) := Observe(a, now, spot);
            var w := Weight(a.lastTs, now);
            && a.lastPrice * w >= 0
            && b.Live? && b.lastTs == now && b.lastPrice == spot
            && b.cumulative == SaturatingAdd(a.cumulative, a.lastPrice * w)
            && b.weighted == SaturatingAdd(a.weighted, w)
            && (if e.Some? then
                  b.anchorTs == now && b.anchorCumulative == b.cumulative && b.anchorWeighted == b.weighted
                else
                  b.anchorTs == a.anchorTs && b.anchorCumulative == a.anchorCumulative
                     && b.anchorWeighted == a.anchorWeighted)
  {
    var w := Weight(a.lastTs, now);
    MulMono(0, a.lastPrice, w);
    var dt := Elapsed(now, a.lastTs);
    assert w == if dt < MAX_OBS_DT_SECS then dt else MAX_OBS_DT_SECS;
  }

  lemma SaturationCaps(x: nat, y: int)
    ensures y >= 0 ==> SaturatingAdd(Capped(x), y) == Capped(x + y)
  {
  }

  // ---------- when an average is emitted, and what it is ----------

  function WindowWeight(h: seq<Obs>, i: nat): int
    requires i < |h|
  {
    WeightSum(h) - WeightSum(h[..i + 1])
  }

  function WindowPrice(h: seq<Obs>, i: nat): int
    requires i < |h|
  {
    PriceSum(h) - PriceSum(h[..i + 1])
  }

  /** A window spanning t seconds of wall clock weighs at least min(t, 10), even if the clock jumps back. */
  lemma {:induction false} WindowWeighs(h: seq<Obs>, i: nat)
    requires i < |h|
    ensures WindowWeight(h, i) >= 0
    ensures h[|h| - 1].ts - h[i].ts >= 10 ==> WindowWeight(h, i) >= 10
    ensures WindowWeight(h, i) >= h[|h| - 1].ts - h[i].ts || WindowWeight(h, i) >= 10
  {
    if i == |h| - 1 {
      assert h[..i + 1] == h;
    } else {
      var p := h[..|h| - 1];
      WindowWeighs(p, i);
      assert p[..i + 1] == h[..i + 1];
      SumsExtend(h);
      hide WeightSum;
    }
  }

  /** Every price that carries weight in the window after observation i lies in lo .. hi. */
  ghost predicate WeightedWithin(h: seq<Obs>, i: nat, lo: int, hi: int) {
    forall k :: i <= k < |h| - 1 && Weight(h[k].ts, h[k + 1].ts) > 0 ==> lo <= h[k].spot <= hi
  }

  lemma {:induction false} WindowPriceWithin(h: seq<Obs>, i: nat, lo: int, hi: int)
    requires i < |h| && WeightedWithin(h, i, lo, hi)
    ensures lo * WindowWeight(h, i) <= WindowPrice(h, i) <= hi * WindowWeight(h, i)
  {
    hide *;
    var n := |h| - 1;
    if i == n {
      EmptyWindow(h);
    } else {
      WeightedPrefix(h, i, lo, hi);
      WindowPriceWithin(h[..n], i, lo, hi);
      WindowGrows(h, i);
      StepWithin(lo, hi, h[n - 1].spot, Weight(h[n - 1].ts, h[n].ts), WindowWeight(h[..n], i), WindowPrice(h[..n], i));
    }
  }

  lemma EmptyWindow(h: seq<Obs>)
    requires |h| > 0
    ensures WindowWeight(h, |h| - 1) == WindowPrice(h, |h| - 1) == 0
  {
    hide PriceSum, WeightSum;
    assert h[..|h|] == h;
  }

  lemma WindowGrows(h: seq<Obs>, i: nat)
    requires i < |h| - 1
    ensures var n := |h| - 1;
            var w := Weight(h[n - 1].ts, h[n].ts);
            && WindowWeight(h, i) == WindowWeight(h[..n], i) + w
            && WindowPrice(h, i) == WindowPrice(h[..n], i) + h[n - 1].spot * w
  {
    hide PriceSum, WeightSum, Weight;
    assert h[..|h| - 1][..i + 1] == h[..i + 1];
    SumsExtend(h);
  }

  lemma WeightedPrefix(h: seq<Obs>, i: nat, lo: int, hi: int)
    requires i < |h| - 1 && WeightedWithin(h, i, lo, hi)
    ensures WeightedWithin(h[..|h| - 1], i, lo, hi)
    ensures var n := |h| - 1;
            Weight(h[n - 1].ts, h[n].ts) > 0 ==> lo <= h[n - 1].spot <= hi
  {
    hide Weight;
    var n := |h| - 1;
    assert h[n - 1 + 1] == h[n];
    forall k | i <= k < n - 1 && Weight(h[..n][k].ts, h[..n][k + 1].ts) > 0
      ensures lo <= h[..n][k].spot <= hi
    {
      assert Weight(h[k].ts, h[k + 1].ts) > 0;
    }
  }

  lemma StepWithin(lo: int, hi: int, x: int, w: nat, weight: int, price: int)
    requires lo * weight <= price <= hi * weight && (w > 0 ==> lo <= x <= hi)
    ensures lo * (weight + w) <= price + x * w <= hi * (weight + w)
  {
    if w > 0 {
      MulMono(lo, x, w);
      MulMono(x, hi, w);
    }
    assert lo * (weight + w) == lo * weight + lo * w;
    assert hi * (weight + w) == hi * weight + hi * w;
  }

  lemma QuotientWithin(price: int, weight: int, lo: int, hi: int)
    requires weight > 0 && lo * weight <= price <= hi * weight
    ensures lo <= price / weight <= hi
  {
    FloorIsGreatest(price, weight, lo);
    FloorIsGreatest(price, weight, hi + 1);
    assert (hi + 1) * weight == hi * weight + weight;
  }

  /** Neither u128 sum saturates. */
  ghost predicate Unsaturated(h: seq<Obs>) {
    PriceSum(h) <= U128_MAX && WeightSum(h) <= U128_MAX
  }

  /** The window that the last observation closes weighs at most u64::MAX. */
  ghost predicate WindowFits(h: seq<Obs>) {
    |h| >= 2 ==> WindowWeight(h, AnchorIndex(h[..|h| - 1])) <= U64_MAX
  }

  lemma {:induction false} PrefixSums(h: seq<Obs>, i: nat)
    requires i <= |h|
    ensures PriceSum(h[..i]) <= PriceSum(h) && WeightSum(h[..i]) <= WeightSum(h)
  {
    if i == |h| {
      assert h[..i] == h;
    } else {
      var p := h[..|h| - 1];
      PrefixSums(p, i);
      assert p[..i] == h[..i];
      if |h| >= 2 {
        SumsExtend(h);
      }
    }
  }

  /**
   * Absent saturation, the last observation emits exactly when 30 seconds have passed since
   * the anchor, whatever the clock did in between; the window then weighs at least 10, and
   * the emitted value is its weighted price over its weight.
   */
  lemma EmissionRule(h: seq<Obs>)
    requires |h| >= 2 && Unsaturated(h) && WindowFits(h)
    ensures var n, i := |h| - 1, AnchorIndex(h[..|h| - 1]);
            && (EmittedAt(h, n).Some? <==> h[n].ts - h[i].ts >= 30)
            && (EmittedAt(h, n).Some? ==> WindowWeight(h, i) >= 10)
            && (EmittedAt(h, n).Some? ==> EmittedAt(h, n).value == WindowPrice(h, i) / WindowWeight(h, i))
  {
    hide Observe, PriceSum, WeightSum, Weight, AnchorIndex, After;
    var n := |h| - 1;
    var p := h[..n];
    var i := AnchorIndex(p);
    AccumulatorIsFold(p);
    assert p[i] == h[i] && p[..i + 1] == h[..i + 1] && p[n - 1] == h[n - 1];
    SumsExtend(h);
    PrefixSums(h, n);
    PrefixSums(h, i + 1);
    WindowWeighs(h, i);
    if h[n].ts - h[i].ts >= WINDOW_SECS {
      WindowPriceWithin(h, i, 0, U64_MAX);
      QuotientWithin(WindowPrice(h, i), WindowWeight(h, i), 0, U64_MAX);
      EmissionOf(After(Fresh, p), h[n].ts, h[n].spot, PriceSum(h), WeightSum(h));
    }
    NoEarlyEmission(After(Fresh, p), h[n].ts, h[n].spot);
  }

  lemma NoEarlyEmission(a: Accumulator, now: i64, spot: u64)
    requires a.Live?
    ensures Observe(a, now, spot).1.Some? ==> now - a.anchorTs >= WINDOW_SECS
  {
  }

  lemma EmissionOf(a: Accumulator, now: i64, spot: u64, price: nat, weight: nat)
    requires a.Live? && now - a.anchorTs >= WINDOW_SECS && price <= U128_MAX && weight <= U128_MAX
    requires weight - a.anchorWeighted <= U64_MAX
    requires price == a.cumulative + a.lastPrice * Weight(a.lastTs, now) && weight == a.weighted + Weight(a.lastTs, now)
    requires a.anchorCumulative <= price && a.anchorWeighted < weight
    requires (price - a.anchorCumulative) / (weight - a.anchorWeighted) <= U64_MAX
    ensures Observe(a, now, spot).1 == Some((price - a.anchorCumulative) / (weight - a.anchorWeighted))
  {
    ObservedFields(a, now, spot);
    var w := Weight(a.lastTs, now);
    var dt := Elapsed(now, a.lastTs);
    assert w == if dt < MAX_OBS_DT_SECS then dt else MAX_OBS_DT_SECS;
  }

  /**
   * What a window emits: nothing before 30 seconds or without weight, otherwise price over
   * weight (at most u64::MAX of it) if that fits u64.
   */
  function WindowAverage(seconds: int, price: nat, weight: nat): Option<u64> {
    var divisor := if weight < 0x1_0000_0000_0000_0000 then weight else 0xffff_ffff_ffff_ffff;
    if seconds < 30 || weight == 0 || price / divisor >= 0x1_0000_0000_0000_0000 then None else Some(price / divisor)
  }

  /** On every history, saturated or not, the last observation emits the average of its window's capped sums. */
  lemma EmissionExactly(h: seq<Obs>)
    requires |h| >= 2
    ensures var n, i := |h| - 1, AnchorIndex(h[..|h| - 1]);
            var price := Capped(PriceSum(h)) - Capped(PriceSum(h[..i + 1]));
            var weight := Capped(WeightSum(h)) - Capped(WeightSum(h[..i + 1]));
            && price >= 0 && weight >= 0
            && EmittedAt(h, n) == WindowAverage(h[n].ts - h[i].ts, price, weight)
  {
    hide *;
    var n := |h| - 1;
    var p := h[..n];
    BeforeTheLast(h);
    SumsExtend(h);
    LastObservation(h);
    SaturatedEmission(After(Fresh, p), h[n].ts, h[n].spot, PriceSum(p), WeightSum(p));
  }

  /** The account that the last observation of a history meets. */
  lemma BeforeTheLast(h: seq<Obs>)
    requires |h| >= 2
    ensures var p, n, i := h[..|h| - 1], |h| - 1, AnchorIndex(h[..|h| - 1]);
            var price, weight := Capped(PriceSum(h[..i + 1])), Capped(WeightSum(h[..i + 1]));
            && price <= Capped(PriceSum(p)) && weight <= Capped(WeightSum(p))
            && After(Fresh, p) == Live(h[n - 1].ts, h[n - 1].spot, Capped(PriceSum(p)), Capped(WeightSum(p)),
                                       h[i].ts, price, weight)
  {
    hide *;
    var n := |h| - 1;
    var p := h[..n];
    var i := AnchorIndex(p);
    AccumulatorIsFold(p);
    assert p[..i + 1] == h[..i + 1];
    PrefixSums(p, i + 1);
    CappedGrows(PriceSum(h[..i + 1]), PriceSum(p));
    CappedGrows(WeightSum(h[..i + 1]), WeightSum(p));
  }

  lemma CappedGrows(x: nat, y: nat)
    requires x <= y
    ensures Capped(x) <= Capped(y)
  {
  }

  lemma SaturatedEmission(a: Accumulator, now: i64, spot: u64, price: nat, weight: nat)
    requires a.Live? && a.cumulative == Capped(price) && a.weighted == Capped(weight)
    requires a.anchorCumulative <= a.cumulative && a.anchorWeighted <= a.weighted
    ensures var w := Weight(a.lastTs, now);
            && price + a.lastPrice * w >= 0
            && var p, v := Capped(price + a.lastPrice * w) - a.anchorCumulative, Capped(weight + w) - a.anchorWeighted;
            p >= 0 && v >= 0 && Observe(a, now, spot).1 == WindowAverage(now - a.anchorTs, p, v)
  {
    hide *;
    var w := Weight(a.lastTs, now);
    MulMono(0, a.lastPrice, w);
    SaturationCaps(price, a.lastPrice * w);
    SaturationCaps(weight, w);
    CappedGrows(price, price + a.lastPrice * w);
    CappedGrows(weight, weight + w);
    ObservedFields(a, now, spot);
    EmittedAverage(a, now, spot);
  }

  lemma EmittedAverage(a: Accumulator, now: i64, spot: u64)
    requires a.Live?
    ensures var (b, e) := Observe(a, now, spot);
            && b.Live?
            && (b.cumulative >= a.anchorCumulative && b.weighted >= a.anchorWeighted ==>
                  var price, weight := b.cumulative - a.anchorCumulative, b.weighted - a.anchorWeighted;
                  e == WindowAverage(now - a.anchorTs, price, weight))
  {
    hide Accumulate, SaturatingAdd;
  }

  /** An emitted average lies between the least and greatest price weighted in its window. */
  lemma EmissionWithinWindow(h: seq<Obs>, lo: int, hi: int)
    requires |h| >= 2 && Unsaturated(h) && WindowFits(h) && EmittedAt(h, |h| - 1).Some?
    requires WeightedWithin(h, AnchorIndex(h[..|h| - 1]), lo, hi)
    ensures lo <= EmittedAt(h, |h| - 1).value <= hi
  {
    var i := AnchorIndex(h[..|h| - 1]);
    EmissionRule(h);
    WindowPriceWithin(h, i, lo, hi);
    hide *;
    QuotientWithin(WindowPrice(h, i), WindowWeight(h, i), lo, hi);
  }

  /** After an emission the anchor never lies before it, and it is itself an emission. */
  lemma {:induction false} AnchorFollowsEmission(h: seq<Obs>, i: nat)
    requires i < |h| && EmittedAt(h, i).Some?
    ensures i <= AnchorIndex(h)
    ensures AnchorIndex(h) == 0 || EmittedAt(h, AnchorIndex(h)).Some?
  {
    hide Observe, After;
    var n := |h| - 1;
    if i < n && EmittedAt(h, n).None? {
      var p := h[..n];
      assert p[..i] == h[..i];
      AnchorFollowsEmission(p, i);
      var k := AnchorIndex(p);
      assert p[..k] == h[..k];
    }
  }

  /** Two emissions are never less than 30 seconds apart on the observed clock. */
  lemma {:induction false} EmissionsApart(h: seq<Obs>, i: nat, j: nat)
    requires i < j < |h| && EmittedAt(h, i).Some? && EmittedAt(h, j).Some?
    ensures h[j].ts - h[i].ts >= 30
    decreases j
  {
    hide Observe, AnchorIndex, PriceSum, WeightSum;
    var p := h[..j];
    assert p[..i] == h[..i];
    AnchorFollowsEmission(p, i);
    AccumulatorIsFold(p);
    var k := AnchorIndex(p);
    NoEarlyEmission(After(Fresh, p), h[j].ts, h[j].spot);
    if i < k {
      assert p[..k] == h[..k];
      EmissionsApart(h, i, k);
    }
  }
}
