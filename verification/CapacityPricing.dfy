/**
 * The utilisation pricing of agents/capacity_broker/agent.py: a step control over three zones,
 * applied to the last price cycle after cycle, with a short history of price changes.
 *
 * The settings are constant over a run. The suggested price and the failsafe record, which
 * change no state, are left out.
 */
module CapacityPricing {
  import opened Common

  datatype Settings = Settings(
    surge: real, relax: real, target: real, window: real,
    basePrice: real, stepBps: int, discountMaxBps: int)

  /** Settings that make sense: a positive base price, steps below the whole price. */
  predicate ValidSettings(s: Settings) {
    s.basePrice > 0.0 && 0 <= s.stepBps <= 10000 && 0 <= s.discountMaxBps < 10000 && s.window >= 0.0
  }

  const DEFAULTS := Settings(0.85, 0.40, 0.65, 0.05, 1.0, 50, 500)

  datatype Mode = Surge | Discount | Normal

  datatype Pricing = Pricing(mode: Mode, current: real, proposed: real, deltaBps: int)

  /** Python's `int()` of a float: towards zero. */
  function Truncate(x: real): int {
    if x >= 0.0 then x.Floor else -((-x).Floor)
  }

  function MinInt(a: int, b: int): int {
    if a <= b then a else b
  }

  function ModeOf(s: Settings, u: real): Mode {
    if u >= s.surge then Surge else if u <= s.relax then Discount else Normal
  }

  /** The price change in basis points for a utilisation. */
  function DeltaBps(s: Settings, u: real): int {
    match ModeOf(s, u)
    case Surge =>
      if u > s.target + s.window then MinInt(s.stepBps * 2, Truncate((u - s.target) * 10000.0))
      else if u > s.target then s.stepBps else 0
    case Discount =>
      if u < s.target - s.window then -MinInt(s.discountMaxBps, Truncate((s.target - u) * 10000.0))
      else if u < s.target then -s.stepBps else 0
    case Normal =>
      if s.target - s.window < u < s.target + s.window then 0
      else if u > s.target then s.stepBps else -s.stepBps
  }

  function Factor(deltaBps: int): real {
    1.0 + deltaBps as real / 10000.0
  }

  /** The next price: moved by the change, and in a discount never below half the base price. */
  function NextPrice(s: Settings, current: real, u: real): real {
    var moved := current * Factor(DeltaBps(s, u));
    if ModeOf(s, u).Discount? && moved < s.basePrice * 0.5 then s.basePrice * 0.5 else moved
  }

  lemma FactorSpelledOut(deltaBps: int)
    ensures Factor(deltaBps) == (10000 + deltaBps) as real / 10000.0
  {
  }

  /** The price moves by the change, a part of ten thousand per basis point. */
  lemma {:induction false} MovedByDelta(s: Settings, current: real, u: real)
    ensures var moved := current * ((10000 + DeltaBps(s, u)) as real / 10000.0);
            NextPrice(s, current, u) == if ModeOf(s, u).Discount? then Max(s.basePrice * 0.5, moved) else moved
  {
    hide Factor, DeltaBps;
    FactorSpelledOut(DeltaBps(s, u));
  }

  /** A positive change raises the price, a negative one lowers it, none leaves it. */
  lemma {:induction false} PriceFollowsDelta(s: Settings, current: real, u: real)
    requires current > 0.0 && !ModeOf(s, u).Discount?
    ensures DeltaBps(s, u) > 0 <==> NextPrice(s, current, u) > current
    ensures DeltaBps(s, u) < 0 <==> NextPrice(s, current, u) < current
  {
    hide DeltaBps;
    MovedByDelta(s, current, u);
    var share := DeltaBps(s, u) as real / 10000.0;
    assert NextPrice(s, current, u) == current + current * share;
    SignOfProduct(current, share);
  }

  lemma SignOfProduct(x: real, y: real)
    requires x > 0.0
    ensures x * y > 0.0 <==> y > 0.0
    ensures x * y < 0.0 <==> y < 0.0
  {
  }

  // ----- The size of a step --------------------------------------------------------------------

  lemma {:induction false} DeltaBounds(s: Settings, u: real)
    requires ValidSettings(s)
    ensures !ModeOf(s, u).Discount? ==> -s.stepBps <= DeltaBps(s, u) <= 2 * s.stepBps
    ensures ModeOf(s, u).Discount? ==> DeltaBps(s, u) <= 0
  {
    if u > s.target + s.window {
      assert (u - s.target) * 10000.0 >= 0.0;
    }
    if u < s.target - s.window {
      assert (s.target - u) * 10000.0 >= 0.0;
    }
  }

  /** How far a utilisation is from the target, in basis points. */
  function Distance(s: Settings, u: real): real {
    if u >= s.target then (u - s.target) * 10000.0 else (s.target - u) * 10000.0
  }

  /** The change goes towards the target, if anywhere. */
  lemma {:induction false} DeltaSign(s: Settings, u: real)
    requires ValidSettings(s)
    ensures DeltaBps(s, u) > 0 ==> u > s.target
    ensures DeltaBps(s, u) < 0 ==> u <= s.target
  {
    DeltaBounds(s, u);
    if u < s.target - s.window {
      assert (s.target - u) * 10000.0 >= 0.0;
    }
  }

  /** A normal utilisation moves by nothing inside the dead band and by a whole step outside. */
  lemma NormalStep(s: Settings, u: real)
    requires s.relax < u < s.surge
    ensures s.target - s.window < u < s.target + s.window ==> DeltaBps(s, u) == 0
    ensures u >= s.target + s.window && u > s.target ==> DeltaBps(s, u) == s.stepBps
    ensures u <= s.target - s.window ==> DeltaBps(s, u) == if u > s.target then s.stepBps else -s.stepBps
  {
  }

  /** A surge moves by the distance in whole basis points, up to two steps; by one step inside the
      dead band; and never below the target. */
  lemma SurgeStep(s: Settings, u: real)
    requires ValidSettings(s) && u >= s.surge
    ensures u <= s.target ==> DeltaBps(s, u) == 0
    ensures s.target < u <= s.target + s.window ==> DeltaBps(s, u) == s.stepBps
    ensures u > s.target + s.window && Distance(s, u) >= (2 * s.stepBps) as real ==>
              DeltaBps(s, u) == 2 * s.stepBps
    ensures u > s.target + s.window && Distance(s, u) < (2 * s.stepBps) as real ==>
              DeltaBps(s, u) as real <= Distance(s, u) < DeltaBps(s, u) as real + 1.0
  {
  }

  /** A discount likewise, down to the maximum discount. */
  lemma DiscountStep(s: Settings, u: real)
    requires ValidSettings(s) && u < s.surge && u <= s.relax
    ensures u >= s.target ==> DeltaBps(s, u) == 0
    ensures s.target - s.window <= u < s.target ==> DeltaBps(s, u) == -s.stepBps
    ensures u < s.target - s.window && Distance(s, u) >= s.discountMaxBps as real ==>
              DeltaBps(s, u) == -s.discountMaxBps
    ensures u < s.target - s.window && Distance(s, u) < s.discountMaxBps as real ==>
              -DeltaBps(s, u) as real <= Distance(s, u) < -DeltaBps(s, u) as real + 1.0
  {
  }

  // ----- When a fuller broker never gets the lower change ------------------------------------------

  /** A utilisation: the caller clamps used over allowed to this range. */
  predicate IsRatio(u: real) {
    0.0 <= u <= 1.0
  }

  ghost predicate Monotone(s: Settings) {
    forall u, v | IsRatio(u) && IsRatio(v) && u <= v :: DeltaBps(s, u) <= DeltaBps(s, v)
  }

  /** Some normal utilisations below the dead band come after the discount zone. */
  predicate LowGap(s: Settings) {
    0.0 <= s.relax < 1.0 && s.relax < s.surge && s.relax < s.target - s.window
  }

  /** The discount zone reaches from below the dead band into it. */
  predicate LowOverlap(s: Settings) {
    s.window > 0.0 && 0.0 < s.target - s.window <= 1.0
    && s.target - s.window <= s.relax && s.target - s.window < s.surge
  }

  /** Some normal utilisations above the dead band come before the surge zone. */
  predicate HighGap(s: Settings) {
    0.0 < s.surge <= 1.0 && s.relax < s.surge && s.target + s.window < s.surge
  }

  /** The surge zone reaches from inside the dead band to above it. */
  predicate HighOverlap(s: Settings) {
    s.window > 0.0 && 0.0 <= s.target + s.window < 1.0 && s.surge <= s.target + s.window
  }

  /** Where a plain step meets a change in proportion to the distance, the step is the smaller one. */
  predicate StepsFit(s: Settings) {
    && (LowGap(s) || LowOverlap(s) ==>
          s.stepBps <= s.discountMaxBps
          && s.stepBps as real <= 10000.0 * Max(s.target - s.relax, s.window))
    && (HighGap(s) || HighOverlap(s) ==>
          s.stepBps as real <= 10000.0 * Max(s.surge - s.target, s.window))
  }

  lemma TruncateAtLeast(x: real, k: int)
    requires 0.0 <= x
    ensures k as real <= x <==> k <= Truncate(x)
  {
  }

  lemma TruncateMonotone(x: real, y: real)
    requires 0.0 <= x <= y
    ensures Truncate(x) <= Truncate(y)
  {
  }

  lemma {:induction false} DeltaOrdered(s: Settings, u: real, v: real)
    requires ValidSettings(s) && StepsFit(s) && IsRatio(u) && IsRatio(v) && u <= v
    ensures DeltaBps(s, u) <= DeltaBps(s, v)
  {
    hide Truncate;
    if u < s.target - s.window {
      TruncateAtLeast((s.target - u) * 10000.0, s.stepBps);
      TruncateAtLeast((s.target - u) * 10000.0, 0);
    }
    if v > s.target + s.window {
      TruncateAtLeast((v - s.target) * 10000.0, s.stepBps);
      TruncateAtLeast((v - s.target) * 10000.0, 0);
    }
    if v < s.target - s.window {
      TruncateMonotone((s.target - v) * 10000.0, (s.target - u) * 10000.0);
    }
    if u > s.target + s.window {
      TruncateMonotone((u - s.target) * 10000.0, (v - s.target) * 10000.0);
    }
  }

  /** Two utilisations at the lower edge, the fuller one with the smaller change. */
  lemma {:induction false} LowStepTooWide(s: Settings) returns (u: real, v: real)
    requires ValidSettings(s) && (LowGap(s) || LowOverlap(s))
    requires s.stepBps > s.discountMaxBps
             || s.stepBps as real > 10000.0 * Max(s.target - s.relax, s.window)
    ensures IsRatio(u) && IsRatio(v) && u <= v && DeltaBps(s, u) > DeltaBps(s, v)
  {
    hide Truncate;
    if LowGap(s) {
      u, v := s.relax, (s.relax + Min(Min(s.surge, 1.0), s.target - s.window)) / 2.0;
    } else {
      v := s.target - s.window;
      var x := (10000.0 * s.window + s.stepBps as real) / 2.0;
      u := if s.stepBps > s.discountMaxBps then 0.0 else Max(0.0, s.target - x / 10000.0);
      assert s.stepBps <= s.discountMaxBps ==> (s.target - u) * 10000.0 <= x;
    }
    TruncateAtLeast((s.target - u) * 10000.0, s.stepBps);
    TruncateAtLeast((s.target - u) * 10000.0, 0);
  }

  /** The same at the upper edge. */
  lemma {:induction false} HighStepTooWide(s: Settings) returns (u: real, v: real)
    requires ValidSettings(s) && (HighGap(s) || HighOverlap(s))
    requires s.stepBps as real > 10000.0 * Max(s.surge - s.target, s.window)
    ensures IsRatio(u) && IsRatio(v) && u <= v && DeltaBps(s, u) > DeltaBps(s, v)
  {
    hide Truncate;
    if HighGap(s) {
      u, v := (Max(Max(s.relax, 0.0), s.target + s.window) + s.surge) / 2.0, s.surge;
    } else {
      u := s.target + s.window;
      var x := (10000.0 * s.window + s.stepBps as real) / 2.0;
      v := Min(1.0, s.target + x / 10000.0);
      assert (v - s.target) * 10000.0 <= x;
    }
    TruncateAtLeast((v - s.target) * 10000.0, s.stepBps);
  }

  /** A fuller broker never gets a lower price change, if and only if the steps fit the zones. */
  lemma {:induction false} DeltaIsMonotoneIff(s: Settings)
    requires ValidSettings(s)
    ensures Monotone(s) <==> StepsFit(s)
  {
    hide DeltaBps, LowGap, LowOverlap, HighGap, HighOverlap, Max, IsRatio;
    if StepsFit(s) {
      forall u, v | IsRatio(u) && IsRatio(v) && u <= v ensures DeltaBps(s, u) <= DeltaBps(s, v) {
        DeltaOrdered(s, u, v);
      }
    } else if (HighGap(s) || HighOverlap(s)) && s.stepBps as real > 10000.0 * Max(s.surge - s.target, s.window) {
      var u, v := HighStepTooWide(s);
    } else {
      var u, v := LowStepTooWide(s);
    }
  }

  /** Enough, and simpler to check: a step no wider than the dead band, wherever the zones lie. */
  lemma {:induction false} NarrowStepsAreMonotone(s: Settings)
    requires ValidSettings(s)
    requires s.stepBps <= s.discountMaxBps && s.stepBps as real <= 10000.0 * s.window
    ensures Monotone(s)
  {
    hide Monotone;
    DeltaIsMonotoneIff(s);
  }

  /**
   * The defaults are monotone. With a tighter surge zone the same step is too wide; with
   * discounts switched off it is too, unless the discount zone is out of reach.
   */
  lemma {:induction false} DefaultsAreMonotone()
    ensures ValidSettings(DEFAULTS) && Monotone(DEFAULTS)
    ensures !Monotone(DEFAULTS.(window := 0.001, surge := 0.651))
    ensures !Monotone(DEFAULTS.(discountMaxBps := 0))
    ensures Monotone(DEFAULTS.(discountMaxBps := 0, relax := -1.0))
  {
    hide Monotone;
    NarrowStepsAreMonotone(DEFAULTS);
    DeltaIsMonotoneIff(DEFAULTS.(window := 0.001, surge := 0.651));
    DeltaIsMonotoneIff(DEFAULTS.(discountMaxBps := 0));
    DeltaIsMonotoneIff(DEFAULTS.(discountMaxBps := 0, relax := -1.0));
  }

  // ----- The price over a run -----------------------------------------------------------------

  function Power(x: real, n: nat): real {
    if n == 0 then 1.0 else Power(x, n - 1) * x
  }

  /** The price after a run of cycles that start from the base price. */
  function PriceAfter(s: Settings, run: seq<real>): real {
    if run == [] then s.basePrice
    else NextPrice(s, PriceAfter(s, run[..|run| - 1]), run[|run| - 1])
  }

  lemma PriceOfLonger(s: Settings, run: seq<real>, u: real)
    ensures PriceAfter(s, []) == s.basePrice
    ensures PriceAfter(s, run + [u]) == NextPrice(s, PriceAfter(s, run), u)
  {
    assert (run + [u])[..|run|] == run;
  }

  lemma NextPriceByMode(s: Settings, current: real, u: real)
    ensures var moved := current * Factor(DeltaBps(s, u));
            NextPrice(s, current, u) ==
            if ModeOf(s, u).Discount? && moved < s.basePrice * 0.5 then s.basePrice * 0.5 else moved
  {
  }

  lemma PriceAtStart(s: Settings)
    ensures PriceAfter(s, []) == s.basePrice
  {
  }

  lemma FactorOfNothing(price: real)
    ensures price * Factor(0) == price
  {
  }

  lemma ProductBounds(a: real, b: real, x: real, y: real)
    requires 0.0 <= a <= b && 0.0 <= x <= y
    ensures 0.0 <= a * x <= b * y
  {
    assert a * x <= a * y by {
      assert a * (y - x) >= 0.0;
    }
    assert a * y <= b * y by {
      assert (b - a) * y >= 0.0;
    }
    assert a * x >= 0.0;
  }

  lemma ScaleByUnit(a: real, k: real)
    requires a >= 0.0 && k >= 0.0
    ensures a * k >= 0.0
    ensures k <= 1.0 ==> a * k <= a
    ensures k >= 1.0 ==> a * k >= a
  {
    var gap := a * (k - 1.0);
    assert gap == a * k - a;
    assert k <= 1.0 ==> gap <= 0.0;
    assert k >= 1.0 ==> gap >= 0.0;
  }

  lemma {:induction false} PowerBounds(x: real, n: nat)
    requires x >= 0.0
    ensures Power(x, n) >= 0.0
    ensures x <= 1.0 ==> Power(x, n) <= 1.0
    ensures x >= 1.0 ==> Power(x, n) >= 1.0
  {
    if n > 0 {
      PowerBounds(x, n - 1);
      if x <= 1.0 {
        ProductBounds(Power(x, n - 1), 1.0, x, 1.0);
      } else {
        ProductBounds(1.0, Power(x, n - 1), 1.0, x);
      }
    }
  }

  /** The strongest fall and rise of one cycle outside the discount zone. */
  function Down(s: Settings): real {
    1.0 - s.stepBps as real / 10000.0
  }

  function Up(s: Settings): real {
    1.0 + 2.0 * (s.stepBps as real / 10000.0)
  }

  function Curve(start: real, x: real, n: nat): real {
    start * Power(x, n)
  }

  function Lowest(s: Settings, n: nat): real {
    Curve(s.basePrice * 0.5, Down(s), n)
  }

  function Highest(s: Settings, n: nat): real {
    Curve(s.basePrice, Up(s), n)
  }

  lemma Associate(a: real, b: real, c: real)
    ensures (a * b) * c == a * (b * c)
  {
  }

  lemma {:induction false} CurveMoves(a: real, x: real, n: nat)
    ensures Curve(a, x, n + 1) == Curve(a, x, n) * x
  {
    Associate(a, Power(x, n), x);
  }

  lemma {:induction false} CurveBounds(a: real, x: real, n: nat)
    requires a >= 0.0 && x >= 0.0
    ensures Curve(a, x, n) >= 0.0
    ensures x <= 1.0 ==> Curve(a, x, n) <= a
    ensures x >= 1.0 ==> Curve(a, x, n) >= a
  {
    PowerBounds(x, n);
    hide Power;
    ScaleByUnit(a, Power(x, n));
  }

  lemma FractionBounds(s: Settings)
    requires ValidSettings(s)
    ensures 0.0 <= Down(s) <= 1.0 <= Up(s)
  {
  }

  lemma {:induction false} BoundsMove(s: Settings, n: nat)
    requires ValidSettings(s)
    ensures Lowest(s, n + 1) == Lowest(s, n) * Down(s)
    ensures Highest(s, n + 1) == Highest(s, n) * Up(s)
    ensures 0.0 <= Lowest(s, n) <= s.basePrice * 0.5
    ensures Highest(s, n) >= s.basePrice
  {
    hide Curve, Up, Down;
    FractionBounds(s);
    CurveMoves(s.basePrice * 0.5, Down(s), n);
    CurveMoves(s.basePrice, Up(s), n);
    CurveBounds(s.basePrice * 0.5, Down(s), n);
    CurveBounds(s.basePrice, Up(s), n);
  }

  lemma FactorBounds(s: Settings, u: real)
    requires ValidSettings(s)
    ensures !ModeOf(s, u).Discount? ==> Factor(DeltaBps(s, u)) >= Down(s)
    ensures Factor(DeltaBps(s, u)) <= Up(s)
    ensures ModeOf(s, u).Discount? ==> Factor(DeltaBps(s, u)) <= 1.0
  {
    hide DeltaBps;
    DeltaBounds(s, u);
  }

  /** Whatever the utilisations, the price after n cycles lies between these two curves. */
  lemma {:induction false} PriceStaysInBand(s: Settings, run: seq<real>)
    requires ValidSettings(s)
    ensures Lowest(s, |run|) <= PriceAfter(s, run) <= Highest(s, |run|)
    decreases |run|
  {
    hide Lowest, Highest, Factor, DeltaBps;
    if run == [] {
      BandStart(s);
    } else {
      var n, u := |run| - 1, run[|run| - 1];
      PriceStaysInBand(s, run[..n]);
      StepStaysInBand(s, PriceAfter(s, run[..n]), u, n);
    }
  }

  lemma BandStart(s: Settings)
    requires ValidSettings(s)
    ensures Lowest(s, 0) <= s.basePrice <= Highest(s, 0)
  {
  }

  lemma {:induction false} StepStaysInBand(s: Settings, price: real, u: real, n: nat)
    requires ValidSettings(s) && Lowest(s, n) <= price <= Highest(s, n)
    ensures Lowest(s, n + 1) <= NextPrice(s, price, u) <= Highest(s, n + 1)
  {
    hide Lowest, Highest, Factor, DeltaBps, Up, Down;
    BoundsMove(s, n);
    BoundsMove(s, n + 1);
    FactorBounds(s, u);
    var f := Factor(DeltaBps(s, u));
    FractionBounds(s);
    if ModeOf(s, u).Discount? {
      if f >= 0.0 {
        ProductBounds(price, Highest(s, n), f, Up(s));
      } else {
        assert price * f <= 0.0;
      }
    } else {
      ProductBounds(Lowest(s, n), price, Down(s), f);
      ProductBounds(price, Highest(s, n), f, Up(s));
    }
  }

  // ----- The broker -------------------------------------------------------------------------

  const TOLERANCE := 0.000001
  const HISTORY_LENGTH := 10

  datatype Change = Change(ts: real, utilization: real, proposed: real, current: Option<real>, mode: Mode)

  predicate Differs(last: Option<real>, proposed: real) {
    last.None? || proposed - last.value > TOLERANCE || last.value - proposed > TOLERANCE
  }

  function Latest(log: seq<Change>): seq<Change> {
    if |log| <= HISTORY_LENGTH then log else log[|log| - HISTORY_LENGTH..]
  }

  class Broker {
    const s: Settings
    var lastPrice: Option<real>
    var lastPriceTs: Option<real>
    var priceHistory: seq<Change>
    /** For the statement only: every utilisation so far, and every change ever recorded. */
    ghost var run: seq<real>
    ghost var log: seq<Change>

    ghost predicate Valid()
      reads this
    {
      && ValidSettings(s)
      && priceHistory == Latest(log)
      && lastPrice == (if run == [] then None else Some(PriceAfter(s, run)))
    }

    constructor (s: Settings)
      requires ValidSettings(s)
      ensures Valid() && this.s == s && run == [] && log == []
    {
      this.s := s;
      lastPrice, lastPriceTs, priceHistory := None, None, [];
      run, log := [], [];
    }

    /** The three branches, up to the change they choose and the price they propose. */
    method ChoosePolicy(u: real) returns (p: Pricing)
      requires Valid()
      ensures p.mode == ModeOf(s, u) && p.deltaBps == DeltaBps(s, u)
      ensures p.current == PriceAfter(s, run) && p.proposed == NextPrice(s, p.current, u)
      ensures p.current == if lastPrice.Some? then lastPrice.value else s.basePrice
    {
      hide PriceAfter, Factor, Truncate, MinInt, NextPrice;
      NextPriceByMode(s, PriceAfter(s, run), u);
      PriceAtStart(s);
      var current := if lastPrice.Some? then lastPrice.value else s.basePrice;
      FactorOfNothing(current);
      var delta := 0;
      var proposed: real;
      var mode: Mode;
      if u >= s.surge {
        mode := Surge;
        if u > s.target + s.window {
          delta := MinInt(s.stepBps * 2, Truncate((u - s.target) * 10000.0));
        } else if u > s.target {
          delta := s.stepBps;
        }
        assert delta == DeltaBps(s, u);
        proposed := current * Factor(delta);
      } else if u <= s.relax {
        mode := Discount;
        if u < s.target - s.window {
          delta := -MinInt(s.discountMaxBps, Truncate((s.target - u) * 10000.0));
        } else if u < s.target {
          delta := -s.stepBps;
        }
        assert delta == DeltaBps(s, u);
        var moved := current * Factor(delta);
        proposed := if moved < s.basePrice * 0.5 then s.basePrice * 0.5 else moved;
      } else {
        mode := Normal;
        if s.target - s.window < u < s.target + s.window {
          assert delta == DeltaBps(s, u);
          proposed := current;
        } else {
          delta := if u > s.target then s.stepBps else -s.stepBps;
          assert delta == DeltaBps(s, u);
          proposed := current * Factor(delta);
        }
      }
      p := Pricing(mode, current, proposed, delta);
    }

    method DeriveInventoryPolicy(u: real) returns (p: Pricing)
      requires Valid()
      ensures p.mode == ModeOf(s, u) && p.deltaBps == DeltaBps(s, u)
      ensures p.current == PriceAfter(s, run) && p.proposed == PriceAfter(s, run + [u])
      ensures p.mode == if u >= s.surge then Surge else if u <= s.relax then Discount else Normal
      ensures p.current == if lastPrice.Some? then lastPrice.value else s.basePrice
      ensures var moved := p.current * ((10000 + p.deltaBps) as real / 10000.0);
              p.proposed == if p.mode.Discount? then Max(s.basePrice * 0.5, moved) else moved
    {
      hide PriceAfter, DeltaBps, NextPrice;
      p := ChoosePolicy(u);
      PriceOfLonger(s, run, u);
      MovedByDelta(s, p.current, u);
    }

    /** Take over the proposed price and record the change. */
    method Record(u: real, now: real, p: Pricing)
      requires Valid() && p.proposed == PriceAfter(s, run + [u])
      modifies this
      ensures Valid() && run == old(run) + [u]
      ensures lastPrice == Some(p.proposed) && lastPriceTs == Some(now)
      ensures var last := old(lastPrice);
              var differs := last.None? || p.proposed - last.value > 0.000001 || last.value - p.proposed > 0.000001;
              log == old(log) + if differs then [Change(now, u, p.proposed, last, p.mode)] else []
      ensures priceHistory == if |log| <= 10 then log else log[|log| - 10..]
    {
      hide PriceAfter;
      if Differs(lastPrice, p.proposed) {
        var change := Change(now, u, p.proposed, lastPrice, p.mode);
        priceHistory := priceHistory + [change];
        if |priceHistory| > HISTORY_LENGTH {
          priceHistory := priceHistory[1..];
        }
        log := log + [change];
      }
      lastPrice := Some(p.proposed);
      lastPriceTs := Some(now);
      run := run + [u];
    }

    /** The pricing part of a cycle with a known utilisation. */
    method ApplyUtilization(u: real, now: real) returns (p: Pricing)
      requires Valid()
      modifies this
      ensures Valid() && run == old(run) + [u]
      ensures lastPrice == Some(p.proposed) && lastPriceTs == Some(now)
      ensures p.mode == ModeOf(s, u) && p.deltaBps == DeltaBps(s, u)
      ensures var last := old(lastPrice);
              var differs := last.None? || p.proposed - last.value > 0.000001 || last.value - p.proposed > 0.000001;
              log == old(log) + if differs then [Change(now, u, p.proposed, last, p.mode)] else []
      ensures priceHistory == if |log| <= 10 then log else log[|log| - 10..]
      ensures var current := if old(lastPrice).Some? then old(lastPrice).value else s.basePrice;
              var moved := current * ((10000 + p.deltaBps) as real / 10000.0);
              p.proposed == if u < s.surge && u <= s.relax then Max(s.basePrice * 0.5, moved) else moved
      ensures Lowest(s, |run|) <= p.proposed <= Highest(s, |run|)
    {
      hide PriceAfter, DeltaBps, Lowest, Highest;
      p := DeriveInventoryPolicy(u);
      Record(u, now, p);
      PriceStaysInBand(s, run);
    }
  }
}
