/**
 * The DEX-priced mark: the EWMA step of crates/program/src/state.rs fed by the TWAP, as
 * process_crank_dex_spot drives it. A crank that the engine rejects is reverted whole.
 */
module DexMark {
  import opened Arith
  import opened Words
  import opened Twap

  const EWMA_ALPHA_BPS: int := 2_000
  const BPS: int := 10_000

  function ClipAtZero(x: int): int {
    if x < 0 then 0 else x
  }

  /** ewma_step. */
  function EwmaStep(mark: u64, spot: u64): u64 {
    var delta := TruncDiv((spot - mark) * EWMA_ALPHA_BPS, BPS);
    var next := mark + delta;
    EwmaMoves(mark, spot);
    ClipAtZero(next)
  }

  function Gap(mark: int, spot: int): nat {
    if spot >= mark then spot - mark else mark - spot
  }

  lemma FifthOf(g: nat)
    ensures (g * EWMA_ALPHA_BPS) / BPS == g / 5
  {
    var q, r := g / 5, g % 5;
    DivModUnique(g * EWMA_ALPHA_BPS, BPS, q, r * EWMA_ALPHA_BPS);
  }

  /** A step covers a fifth of the gap, rounded toward the old mark. */
  lemma EwmaMoves(mark: u64, spot: u64)
    ensures mark + TruncDiv((spot - mark) * EWMA_ALPHA_BPS, BPS)
         == if spot >= mark then mark + Gap(mark, spot) / 5 else mark - Gap(mark, spot) / 5
  {
    FifthOf(Gap(mark, spot));
    if spot < mark {
      assert (spot - mark) * EWMA_ALPHA_BPS == -(Gap(mark, spot) * EWMA_ALPHA_BPS);
    }
  }

  /**
   * The mark moves toward the input without passing it, and the gap that is left is four
   * fifths of the old one rounded up: it shrinks strictly until it is at most 4, and stays.
   */
  lemma EwmaClosesGap(mark: u64, spot: u64)
    ensures var next := EwmaStep(mark, spot);
            && (mark <= spot ==> mark <= next <= spot)
            && (mark >= spot ==> mark >= next >= spot)
            && Gap(next, spot) == Gap(mark, spot) - Gap(mark, spot) / 5
            && (Gap(mark, spot) > 4 ==> Gap(next, spot) < Gap(mark, spot))
            && (Gap(mark, spot) <= 4 <==> next == mark)
  {
    EwmaMoves(mark, spot);
  }

  /** The mark after n cranks on a constant input. */
  function EwmaTimes(mark: u64, spot: u64, n: nat): u64 {
    if n == 0 then mark else EwmaStep(EwmaTimes(mark, spot, n - 1), spot)
  }

  /** Four cranks at least halve a gap of 32 or more, and never widen any gap. */
  lemma FourCranksHalve(mark: u64, spot: u64, n: nat)
    ensures var g, g4 := Gap(EwmaTimes(mark, spot, n), spot), Gap(EwmaTimes(mark, spot, n + 4), spot);
            g4 <= g && (g >= 32 ==> 2 * g4 <= g)
  {
    var m0 := EwmaTimes(mark, spot, n);
    var m1, m2, m3 := EwmaStep(m0, spot), EwmaTimes(mark, spot, n + 2), EwmaTimes(mark, spot, n + 3);
    assert EwmaTimes(mark, spot, n + 1) == m1;
    assert m2 == EwmaStep(m1, spot) && m3 == EwmaStep(m2, spot);
    assert EwmaTimes(mark, spot, n + 4) == EwmaStep(m3, spot);
    EwmaClosesGap(m0, spot);
    EwmaClosesGap(m1, spot);
    EwmaClosesGap(m2, spot);
    EwmaClosesGap(m3, spot);
    hide EwmaStep, EwmaTimes;
  }

  /** The gap halves with every four cranks until it is below 32. */
  lemma {:induction false} GapDecays(mark: u64, spot: u64, k: nat)
    ensures var g := Gap(EwmaTimes(mark, spot, 4 * k), spot);
            g < 32 || g * Pow2(k) <= Gap(mark, spot)
  {
    if k > 0 {
      GapDecays(mark, spot, k - 1);
      FourCranksHalve(mark, spot, 4 * (k - 1));
      hide EwmaTimes;
      var g, g' := Gap(EwmaTimes(mark, spot, 4 * k), spot), Gap(EwmaTimes(mark, spot, 4 * (k - 1)), spot);
      if g >= 32 {
        MulMono(2 * g, g', Pow2(k - 1));
        MulAssociates(2, g, Pow2(k - 1));
        MulAssociates(g, 2, Pow2(k - 1));
      }
    }
  }

  lemma {:induction false} GapShrinksFrom(mark: u64, spot: u64, n: nat, m: nat)
    ensures var g, g' := Gap(EwmaTimes(mark, spot, n), spot), Gap(EwmaTimes(mark, spot, n + m), spot);
            g' <= g && (g' <= 4 || g' + m <= g)
  {
    if m > 0 {
      GapShrinksFrom(mark, spot, n, m - 1);
      assert EwmaTimes(mark, spot, n + m) == EwmaStep(EwmaTimes(mark, spot, n + m - 1), spot);
      EwmaClosesGap(EwmaTimes(mark, spot, n + m - 1), spot);
      hide EwmaStep, EwmaTimes;
    }
  }

  /**
   * From any mark to any constant input, 268 cranks bring the mark within 4 units of it, and
   * further cranks keep it there.
   */
  lemma EwmaConverges(mark: u64, spot: u64, n: nat)
    requires n >= 268
    ensures Gap(EwmaTimes(mark, spot, n), spot) <= 4
  {
    var g := Gap(EwmaTimes(mark, spot, 4 * 60), spot);
    GapDecays(mark, spot, 60);
    Pow2Of64();
    Pow2Adds(60, 4);
    if g >= 32 {
      MulMono(32, g, Pow2(60));
    }
    GapShrinksFrom(mark, spot, 240, n - 240);
    hide EwmaTimes;
  }

  // ---------- the pipeline ----------

  datatype Event = Crank(ts: i64, spot: u64, accepted: bool) | AccrueUnchanged

  datatype Pipeline = Pipeline(twap: Accumulator, mark: u64)

  /** The mark crank_oracle_buffer proposes; a zero mark is the defensive fallback. */
  function NextMark(mark: u64, price: u64): u64 {
    if mark == 0 then price else EwmaStep(mark, price)
  }

  /** One event; a crank whose accrual the engine refuses leaves no trace at all. */
  function Advance(p: Pipeline, e: Event): Pipeline {
    if e.AccrueUnchanged? then p
    else
      var (twap, price) := Observe(p.twap, e.ts, e.spot);
      if price.None? then Pipeline(twap, p.mark)
      else if e.accepted then Pipeline(twap, NextMark(p.mark, price.value))
      else p
  }

  /** The TWAP account and the engine slot's effective price, overwritten by every crank. */
  class DexAsset {
    var twap: Accumulator
    var mark: u64

    ghost function View(): Pipeline
      reads this
    {
      Pipeline(twap, mark)
    }

    constructor (seed: u64)
      ensures View() == Pipeline(Fresh, seed)
    {
      twap := Fresh;
      mark := seed;
    }

    /** process_crank_dex_spot from the observed spot on: only a full window moves the mark. */
    method CrankDexSpot(now: i64, spot: u64, accepted: bool) returns (moved: bool)
      modifies this
      ensures View() == Advance(old(View()), Crank(now, spot, accepted))
      ensures var price := Observe(old(twap), now, spot).1;
              && (moved <==> price.Some? && accepted)
              && (!moved ==> mark == old(mark))
              && (moved && old(mark) != 0 ==>
                    var gap := Gap(old(mark), price.value);
                    Gap(mark, price.value) == gap - gap / 5)
              && (moved && old(mark) == 0 ==> mark == price.value)
              && (price.Some? && !accepted ==> View() == old(View()))
      ensures moved || Observe(old(twap), now, spot).1.None? ==> twap == Observe(old(twap), now, spot).0
    {
      var before := twap;
      var (state, price) := Observe(twap, now, spot);
      twap := state;
      if price.None? {
        return false;
      }
      if !accepted {
        twap := before;
        return false;
      }
      EwmaClosesGap(mark, price.value);
      mark := if mark == 0 then price.value else EwmaStep(mark, price.value);
      return true;
    }
  }

  /** Whether the event's observation is committed. */
  predicate Commits(p: Pipeline, e: Event) {
    e.Crank? && (Observe(p.twap, e.ts, e.spot).1.None? || e.accepted)
  }

  function RunPipeline(seed: u64, events: seq<Event>): Pipeline {
    if |events| == 0 then Pipeline(Fresh, seed)
    else Advance(RunPipeline(seed, events[..|events| - 1]), events[|events| - 1])
  }

  /** The observations that were committed, in order. */
  function Observed(seed: u64, events: seq<Event>): seq<Obs> {
    if |events| == 0 then []
    else
      var n := |events| - 1;
      var before := Observed(seed, events[..n]);
      if Commits(RunPipeline(seed, events[..n]), events[n]) then before + [Obs(events[n].ts, events[n].spot)]
      else before
  }

  ghost predicate SpotsWithin(h: seq<Obs>, lo: int, hi: int) {
    forall k :: 0 <= k < |h| ==> lo <= h[k].spot <= hi
  }

  /** No window of the history outgrows u64. */
  ghost predicate WindowsFit(h: seq<Obs>) {
    forall n :: 0 <= n <= |h| ==> WindowFits(h[..n])
  }

  lemma WindowsFitPrefix(h: seq<Obs>, m: nat)
    requires m <= |h| && WindowsFit(h)
    ensures WindowsFit(h[..m]) && WindowFits(h)
  {
    assert h[..|h|] == h;
    assert forall n :: 0 <= n <= m ==> h[..m][..n] == h[..n];
  }

  lemma {:induction false} TwapFollowsCommitted(seed: u64, events: seq<Event>)
    ensures RunPipeline(seed, events).twap == After(Fresh, Observed(seed, events))
  {
    if |events| > 0 {
      var n := |events| - 1;
      TwapFollowsCommitted(seed, events[..n]);
      hide Observe, NextMark;
      if events[n].Crank? {
        Extended(Fresh, Observed(seed, events[..n]), Obs(events[n].ts, events[n].spot));
      }
    }
  }

  /** The average a committed crank feeds in lies between the observed prices. */
  lemma AverageWithin(h: seq<Obs>, o: Obs, lo: int, hi: int)
    requires Unsaturated(h + [o]) && WindowFits(h + [o]) && SpotsWithin(h, lo, hi)
    requires Observe(After(Fresh, h), o.ts, o.spot).1.Some?
    ensures lo <= Observe(After(Fresh, h), o.ts, o.spot).1.value <= hi
  {
    var k := h + [o];
    if |h| > 0 {
      assert k[..|h|] == h;
      assert WeightedWithin(k, AnchorIndex(k[..|k| - 1]), lo, hi) by {
        forall j | 0 <= j < |k| - 1
          ensures lo <= k[j].spot <= hi
        {
          assert k[j] == h[j];
        }
      }
      EmissionWithinWindow(k, lo, hi);
    }
  }

  lemma NextMarkWithin(mark: u64, price: u64, lo: int, hi: int)
    requires lo <= mark <= hi && lo <= price <= hi
    ensures lo <= NextMark(mark, price) <= hi
  {
    EwmaClosesGap(mark, price);
  }

  /**
   * Over any run of cranks and unchanged accruals, the mark stays between the least and the
   * greatest of its seed and the committed spots.
   */
  lemma {:induction false} MarkStaysInHull(seed: u64, events: seq<Event>, lo: int, hi: int)
    requires lo <= seed <= hi && SpotsWithin(Observed(seed, events), lo, hi)
    requires Unsaturated(Observed(seed, events)) && WindowsFit(Observed(seed, events))
    ensures lo <= RunPipeline(seed, events).mark <= hi
  {
    hide Observe, NextMark, Unsaturated, WindowsFit, WindowFits, Observed;
    if |events| > 0 {
      var n := |events| - 1;
      CommittedPrefix(seed, events);
      HypothesesOnPrefix(Observed(seed, events), |Observed(seed, events[..n])|, lo, hi);
      MarkStaysInHull(seed, events[..n], lo, hi);
      hide *;
      StepStaysInHull(seed, events, lo, hi);
    }
  }

  lemma HypothesesOnPrefix(h: seq<Obs>, m: nat, lo: int, hi: int)
    requires m <= |h| && Unsaturated(h) && WindowsFit(h) && SpotsWithin(h, lo, hi)
    ensures Unsaturated(h[..m]) && WindowsFit(h[..m]) && SpotsWithin(h[..m], lo, hi) && WindowFits(h)
  {
    PrefixSums(h, m);
    WindowsFitPrefix(h, m);
    hide WindowsFit, WindowFits, PriceSum, WeightSum;
    assert forall k :: 0 <= k < m ==> h[..m][k] == h[k];
  }

  lemma CommittedPrefix(seed: u64, events: seq<Event>)
    requires |events| > 0
    ensures var h, all, e := Observed(seed, events[..|events| - 1]), Observed(seed, events), events[|events| - 1];
            && |h| <= |all| && all[..|h|] == h
            && (Commits(RunPipeline(seed, events[..|events| - 1]), e) ==> all == h + [Obs(e.ts, e.spot)])
  {
    hide Observe;
  }

  lemma StepStaysInHull(seed: u64, events: seq<Event>, lo: int, hi: int)
    requires |events| > 0 && Unsaturated(Observed(seed, events)) && WindowFits(Observed(seed, events))
    requires SpotsWithin(Observed(seed, events[..|events| - 1]), lo, hi)
    requires lo <= RunPipeline(seed, events[..|events| - 1]).mark <= hi
    ensures lo <= RunPipeline(seed, events).mark <= hi
  {
    var n := |events| - 1;
    var p, e, h := RunPipeline(seed, events[..n]), events[n], Observed(seed, events[..n]);
    CommittedPrefix(seed, events);
    if Commits(p, e) && Observe(p.twap, e.ts, e.spot).1.Some? {
      TwapFollowsCommitted(seed, events[..n]);
      AverageWithin(h, Obs(e.ts, e.spot), lo, hi);
      NextMarkWithin(p.mark, Observe(p.twap, e.ts, e.spot).1.value, lo, hi);
    }
    hide Observe, NextMark, Observed, Unsaturated, SpotsWithin, WindowFits;
  }
}
