/** Tiered liquidation before the close: each tier names a cumulative share that must be sold by then. */
module ForcedExit {
  import opened Prelude

  datatype Tier = Tier(minutesBefore: real, cumulative: real)

  /** A tier to fire: the cumulative target and the share of the present holding to sell for it. */
  datatype Firing = Firing(target: real, fraction: real)

  const FORCE_EXIT_TIERS := [Tier(30.0, 0.5), Tier(25.0, 1.0)]
  const ORDER_CUTOFF_MINUTES_BEFORE_CLOSE := 20.0

  predicate ValidTiers(tiers: seq<Tier>) {
    forall i :: 0 <= i < |tiers| ==> 0.0 < tiers[i].cumulative <= 1.0
  }

  // ---- which tier is pending ----

  predicate Eligible(tier: Tier, progress: real, minutes: real) {
    minutes <= tier.minutesBefore && tier.cumulative > progress
  }

  /** The largest cumulative target among the eligible tiers. */
  function Target(tiers: seq<Tier>, progress: real, minutes: real): Option<real> {
    if tiers == [] then None
    else
      var rest, last := Target(tiers[..|tiers| - 1], progress, minutes), tiers[|tiers| - 1];
      if !Eligible(last, progress, minutes) then rest
      else if rest.Some? && rest.value > last.cumulative then rest
      else Some(last.cumulative)
  }

  function Pending(tiers: seq<Tier>, progress: real, minutes: real): Option<Firing> {
    if progress >= 1.0 then None
    else match Target(tiers, progress, minutes)
      case None => None
      case Some(target) =>
        Some(Firing(target, if target >= 1.0 then 1.0 else (target - progress) / (1.0 - progress)))
  }

  method PendingForceExitTier(tiers: seq<Tier>, progress: real, minutes: real) returns (r: Option<Firing>)
    ensures r == Pending(tiers, progress, minutes)
  {
    if progress >= 1.0 {
      return None;
    }
    var target: Option<real> := None;
    for i := 0 to |tiers|
      invariant target == Target(tiers[..i], progress, minutes)
    {
      assert tiers[..i + 1][..i] == tiers[..i];
      if minutes <= tiers[i].minutesBefore && tiers[i].cumulative > progress {
        target := match target
          case None => Some(tiers[i].cumulative)
          case Some(t) => Some(if t > tiers[i].cumulative then t else tiers[i].cumulative);
      }
    }
    assert tiers[..|tiers|] == tiers;
    if target == None {
      return None;
    }
    r := Some(Firing(target.value, if target.value >= 1.0 then 1.0 else (target.value - progress) / (1.0 - progress)));
  }

  lemma {:induction false} TargetIsGreatest(tiers: seq<Tier>, progress: real, minutes: real)
    ensures var r := Target(tiers, progress, minutes);
            && (r.None? <==> forall i :: 0 <= i < |tiers| ==> !Eligible(tiers[i], progress, minutes))
            && (r.Some? ==>
                  && r.value > progress
                  && (exists i :: 0 <= i < |tiers| && Eligible(tiers[i], progress, minutes) &&
                        tiers[i].cumulative == r.value)
                  && (forall i :: 0 <= i < |tiers| && minutes <= tiers[i].minutesBefore ==>
                        tiers[i].cumulative <= r.value))
  {
    if tiers == [] {
    } else {
      var n := |tiers| - 1;
      TargetIsGreatest(tiers[..n], progress, minutes);
      if i :| 0 <= i < n && Eligible(tiers[..n][i], progress, minutes)
              && Some(tiers[..n][i].cumulative) == Target(tiers[..n], progress, minutes) {
        assert Eligible(tiers[i], progress, minutes);
      }
      assert Eligible(tiers[n], progress, minutes) ==> Target(tiers, progress, minutes).Some?;
      forall i | 0 <= i < |tiers| && Target(tiers, progress, minutes).None?
        ensures !Eligible(tiers[i], progress, minutes)
      {
        if i < n { assert !Eligible(tiers[..n][i], progress, minutes); }
      }
    }
  }

  // ---- a holding through the passes of one day ----

  /** Units still held, share sold so far, and the targets fired, in order. */
  datatype Day = Day(held: int, progress: real, fired: seq<real>)

  function SellQty(held: int, orderQty: int, fraction: real): int {
    var qty := if held <= 0 then orderQty else held;
    if fraction >= 1.0 then qty else (qty as real * fraction).Floor
  }

  /** What one firing sells: a holding of nothing is not listed, and an order for nothing is skipped. */
  function Sold(held: int, fraction: real): int {
    if held <= 0 then 0 else Max(0, SellQty(held, 0, fraction))
  }

  /** One tier fires and its orders fill. */
  function Fire(d: Day, f: Firing): Day { Day(d.held - Sold(d.held, f.fraction), f.target, d.fired + [f.target]) }

  /** One pass `minutes` before the close. */
  function Step(tiers: seq<Tier>, d: Day, minutes: real): Day {
    match Pending(tiers, d.progress, minutes)
    case None => d
    case Some(f) => Fire(d, f)
  }

  function Run(tiers: seq<Tier>, qty: int, passes: seq<real>): Day {
    if passes == [] then Day(qty, 0.0, [])
    else Step(tiers, Run(tiers, qty, passes[..|passes| - 1]), passes[|passes| - 1])
  }

  /** What the schedule leaves of `qty` once the share `progress` is sold. */
  function Unsold(progress: real, qty: int): real { (1.0 - progress) * qty as real }

  /** At least the unsold share is held, and less than one unit of rounding more for each tier fired. */
  ghost predicate Bounded(d: Day, qty: int) {
    && Unsold(d.progress, qty) <= d.held as real
    && (if d.fired == [] then d.held == qty && d.progress == 0.0
        else d.held as real < Unsold(d.progress, qty) + |d.fired| as real)
  }

  lemma Cancel(x: real, y: real, b: real)
    requires b > 0.0 && x * b == y * b
    ensures x == y
  {
  }

  lemma MulMono(x: real, y: real, g: real)
    requires g > 0.0
    ensures x >= y ==> x * g >= y * g
    ensures x > y ==> x * g > y * g
  {
  }

  /** Keeping (1-t)/(1-c) of a share (1-c) leaves (1-t). */
  lemma Ratio(c: real, t: real) returns (g: real)
    requires 0.0 <= c < t < 1.0
    ensures 0.0 < g < 1.0 && g * (1.0 - c) == 1.0 - t && (t - c) / (1.0 - c) == 1.0 - g
  {
    var b := 1.0 - c;
    g := (1.0 - t) / b;
    assert g * b == 1.0 - t;
    var f := (t - c) / b;
    assert f * b == t - c;
    assert (1.0 - g) * b == b - g * b;
    Cancel(f, 1.0 - g, b);
    if g <= 0.0 { MulMono(0.0, g, b); }
    if g >= 1.0 { MulMono(g, 1.0, b); }
  }

  lemma UnsoldScales(c: real, t: real, g: real, qty: int)
    requires g * (1.0 - c) == 1.0 - t
    ensures Times(Unsold(c, qty), g) == Unsold(t, qty)
  {
    var b, q := 1.0 - c, qty as real;
    assert b * q * g == (g * b) * q;
  }

  // Products are kept behind a name so that the steps below stay linear.
  function Times(x: real, y: real): real { x * y }

  lemma TimesMono(x: real, y: real, g: real)
    requires x <= y && g > 0.0
    ensures Times(x, g) <= Times(y, g)
  {
    MulMono(y, x, g);
  }

  lemma TimesSum(u: real, k: real, g: real)
    ensures Times(u + k, g) == Times(u, g) + Times(k, g)
  {
  }

  lemma TimesRest(x: real, g: real)
    requires x >= 0.0 && 0.0 < g < 1.0
    ensures 0.0 <= Times(x, 1.0 - g) == x - Times(x, g)
  {
    assert x * (1.0 - g) == x - x * g;
    TimesMono(0.0, x, 1.0 - g);
  }

  /** Selling the floored share 1 - `g` of `x` units, themselves within `k` of `u`. */
  lemma FloorSale(x: int, u: real, g: real, k: real)
    requires x >= 0 && u <= x as real <= u + k && k >= 0.0 && 0.0 < g < 1.0
    ensures var sold := Times(x as real, 1.0 - g).Floor;
            0 <= sold && Times(u, g) <= (x - sold) as real < Times(u, g) + k + 1.0
  {
    TimesMono(u, x as real, g);
    TimesMono(x as real, u + k, g);
    TimesSum(u, k, g);
    TimesRest(x as real, g);
    TimesRest(k, g);
  }

  lemma BoundedRange(d: Day, qty: int)
    requires Bounded(d, qty)
    ensures Unsold(d.progress, qty) <= d.held as real <= Unsold(d.progress, qty) + |d.fired| as real
  {
    assert Unsold(0.0, qty) == qty as real;
  }

  /** A middle tier: the sale keeps the holding within bounds, one unit wider. */
  lemma SaleKeepsBounds(d: Day, qty: int, t: real, f: real)
    requires Bounded(d, qty) && 0.0 <= d.progress < t < 1.0 && d.held > 0 && f == (t - d.progress) / (1.0 - d.progress)
    ensures Sold(d.held, f) >= 0 && Bounded(Day(d.held - Sold(d.held, f), t, d.fired + [t]), qty)
  {
    var g := Ratio(d.progress, t);
    var share := d.held as real * f;
    UnsoldScales(d.progress, t, g, qty);
    BoundedRange(d, qty);
    FloorSale(d.held, Unsold(d.progress, qty), g, |d.fired| as real);
    assert Sold(d.held, f) == share.Floor;
    assert share == Times(d.held as real, 1.0 - g);
  }

  lemma UnsoldSign(progress: real, qty: nat)
    requires progress <= 1.0
    ensures Unsold(progress, qty) >= 0.0
    ensures progress == 1.0 ==> Unsold(progress, qty) == 0.0
    ensures progress < 1.0 && qty > 0 ==> Unsold(progress, qty) > 0.0
    ensures qty == 0 ==> Unsold(progress, qty) == 0.0
  {
    if progress < 1.0 && qty > 0 { MulMono(1.0 - progress, 0.0, qty as real); }
  }

  /** Firing the last tier, or any tier once nothing is held, keeps the bounds with nothing held. */
  lemma EmptyKeepsBounds(d: Day, qty: nat, t: real)
    requires Bounded(d, qty) && d.progress < t <= 1.0 && (t == 1.0 || d.held <= 0)
    ensures Bounded(Day(0, t, d.fired + [t]), qty) && d.held >= 0
  {
    UnsoldSign(d.progress, qty);
    UnsoldSign(t, qty);
  }

  lemma FireKeepsBounds(d: Day, qty: nat, f: Firing)
    requires Bounded(d, qty) && 0.0 <= d.progress < f.target <= 1.0
    requires f.fraction == if f.target >= 1.0 then 1.0 else (f.target - d.progress) / (1.0 - d.progress)
    ensures Bounded(Fire(d, f), qty)
  {
    if f.target < 1.0 && d.held > 0 {
      SaleKeepsBounds(d, qty, f.target, f.fraction);
    } else {
      EmptyKeepsBounds(d, qty, f.target);
    }
  }

  lemma StepKeepsBounds(tiers: seq<Tier>, d: Day, minutes: real, qty: nat)
    requires ValidTiers(tiers) && 0.0 <= d.progress <= 1.0 && Bounded(d, qty)
    ensures var e := Step(tiers, d, minutes);
            Bounded(e, qty) && d.progress <= e.progress <= 1.0 && (d.progress == e.progress <==> e.fired == d.fired)
  {
    TargetIsGreatest(tiers, d.progress, minutes);
    var p := Pending(tiers, d.progress, minutes);
    if p.Some? {
      FireKeepsBounds(d, qty, p.value);
    }
  }

  /** In every run of passes: progress stays in [0, 1]; fired targets strictly increase, so none fires twice, whatever
      was missed; and the holding is within one unit per fired tier of the share the schedule leaves. */
  lemma {:induction false} HoldingFollowsSchedule(tiers: seq<Tier>, qty: nat, passes: seq<real>)
    requires ValidTiers(tiers)
    ensures var d := Run(tiers, qty, passes);
            && 0.0 <= d.progress <= 1.0
            && Bounded(d, qty)
            && (forall i, j :: 0 <= i < j < |d.fired| ==> d.fired[i] < d.fired[j])
            && (if d.fired == [] then d.progress == 0.0 else d.progress == d.fired[|d.fired| - 1])
  {
    if passes == [] {
    } else {
      var n := |passes| - 1;
      var d := Run(tiers, qty, passes[..n]);
      HoldingFollowsSchedule(tiers, qty, passes[..n]);
      StepKeepsBounds(tiers, d, passes[n], qty);
      TargetIsGreatest(tiers, d.progress, passes[n]);
    }
  }

  /** A tier whose time has come in some pass. */
  ghost predicate Reached(tier: Tier, passes: seq<real>) {
    exists k :: 0 <= k < |passes| && passes[k] <= tier.minutesBefore
  }

  /** Progress is the largest cumulative share of any tier reached, whichever passes were missed and in any order. */
  lemma {:induction false} ProgressIsGreatestReached(tiers: seq<Tier>, qty: nat, passes: seq<real>)
    requires ValidTiers(tiers)
    ensures var c := Run(tiers, qty, passes).progress;
            && (forall i :: 0 <= i < |tiers| && Reached(tiers[i], passes) ==> tiers[i].cumulative <= c)
            && (c == 0.0 || exists i :: 0 <= i < |tiers| && Reached(tiers[i], passes) && tiers[i].cumulative == c)
  {
    if passes == [] {
    } else {
      var n := |passes| - 1;
      var before, d := passes[..n], Run(tiers, qty, passes[..n]);
      ProgressIsGreatestReached(tiers, qty, before);
      HoldingFollowsSchedule(tiers, qty, before);
      TargetIsGreatest(tiers, d.progress, passes[n]);
      forall i | 0 <= i < |tiers|
        ensures Reached(tiers[i], passes) <==> Reached(tiers[i], before) || passes[n] <= tiers[i].minutesBefore
      {
        ReachedGrows(tiers[i], passes);
      }
    }
  }

  lemma ReachedGrows(tier: Tier, passes: seq<real>)
    requires passes != []
    ensures Reached(tier, passes) <==>
              Reached(tier, passes[..|passes| - 1]) || passes[|passes| - 1] <= tier.minutesBefore
  {
    var before := passes[..|passes| - 1];
    if Reached(tier, before) {
      var k :| 0 <= k < |before| && before[k] <= tier.minutesBefore;
      assert passes[k] <= tier.minutesBefore;
    }
    if Reached(tier, passes) {
      var k :| 0 <= k < |passes| && passes[k] <= tier.minutesBefore;
      assert k < |before| ==> before[k] == passes[k];
    }
  }

  /** A position is flat at the end of the day exactly if some pass reached a tier of 100%. */
  lemma FlatIffLastTierReached(tiers: seq<Tier>, qty: nat, passes: seq<real>)
    requires ValidTiers(tiers) && qty > 0
    ensures Run(tiers, qty, passes).held == 0 <==>
            exists i :: 0 <= i < |tiers| && tiers[i].cumulative == 1.0 && Reached(tiers[i], passes)
  {
    var d := Run(tiers, qty, passes);
    HoldingFollowsSchedule(tiers, qty, passes);
    ProgressIsGreatestReached(tiers, qty, passes);
    FullProgressIsFlat(tiers, qty, passes);
    UnsoldSign(d.progress, qty);
  }

  lemma {:induction false} FullProgressIsFlat(tiers: seq<Tier>, qty: nat, passes: seq<real>)
    requires ValidTiers(tiers)
    ensures Run(tiers, qty, passes).progress == 1.0 ==> Run(tiers, qty, passes).held == 0
  {
    if passes == [] {
    } else {
      var n := |passes| - 1;
      FullProgressIsFlat(tiers, qty, passes[..n]);
      HoldingFollowsSchedule(tiers, qty, passes[..n]);
      StepKeepsBounds(tiers, Run(tiers, qty, passes[..n]), passes[n], qty);
    }
  }

  /** With the configured tiers a pass anywhere between the last tier and the order cutoff flattens the position. */
  lemma ConfiguredTiersFlatten(qty: nat, passes: seq<real>, k: nat)
    requires k < |passes| && ORDER_CUTOFF_MINUTES_BEFORE_CLOSE < passes[k] <= 25.0
    ensures ValidTiers(FORCE_EXIT_TIERS)
    ensures Run(FORCE_EXIT_TIERS, qty, passes).held == 0
  {
    assert FORCE_EXIT_TIERS[1].cumulative == 1.0;
    assert Reached(FORCE_EXIT_TIERS[1], passes);
    HoldingFollowsSchedule(FORCE_EXIT_TIERS, qty, passes);
    ProgressIsGreatestReached(FORCE_EXIT_TIERS, qty, passes);
    FullProgressIsFlat(FORCE_EXIT_TIERS, qty, passes);
  }

  // ---- orders that fill only in part, or not at all ----

  /** One tier fires and `fill` units of what it orders are sold, at most all of them. */
  function FireFilled(d: Day, f: Firing, fill: int): Day {
    Day(d.held - Min(Max(fill, 0), Sold(d.held, f.fraction)), f.target, d.fired + [f.target])
  }

  function StepFilled(tiers: seq<Tier>, d: Day, minutes: real, fill: int): Day {
    match Pending(tiers, d.progress, minutes)
    case None => d
    case Some(f) => FireFilled(d, f, fill)
  }

  /** A day in which pass k, should it fire a tier, sells at most `fills[k]` units. */
  function RunFilled(tiers: seq<Tier>, qty: int, passes: seq<real>, fills: seq<int>): Day
    requires |fills| == |passes|
  {
    if passes == [] then Day(qty, 0.0, [])
    else
      var n := |passes| - 1;
      StepFilled(tiers, RunFilled(tiers, qty, passes[..n], fills[..n]), passes[n], fills[n])
  }

  /** Fills make no difference to which tiers fire: a tier is used up whether its orders fill or not. */
  lemma {:induction false} ProgressIgnoresFills(tiers: seq<Tier>, qty: int, other: int, passes: seq<real>,
                                                fills: seq<int>)
    requires |fills| == |passes|
    ensures RunFilled(tiers, qty, passes, fills).progress == Run(tiers, other, passes).progress
    ensures RunFilled(tiers, qty, passes, fills).fired == Run(tiers, other, passes).fired
  {
    if passes == [] {
    } else {
      ProgressIgnoresFills(tiers, qty, other, passes[..|passes| - 1], fills[..|passes| - 1]);
    }
  }

  lemma SoldShare(held: int, fraction: real)
    requires held > 0 && 0.0 < fraction
    ensures 0 <= Sold(held, fraction) <= held && (Sold(held, fraction) == held <==> fraction >= 1.0)
  {
    if fraction < 1.0 {
      TimesRest(held as real, fraction);
      TimesRest(held as real, 1.0 - fraction);
      MulMono(held as real, 0.0, 1.0 - fraction);
      assert Times(held as real, 1.0 - fraction) > 0.0;
      assert held as real * fraction == Times(held as real, fraction);
    }
  }

  lemma FractionPositive(tiers: seq<Tier>, progress: real, minutes: real)
    requires ValidTiers(tiers) && 0.0 <= progress <= 1.0
    ensures var p := Pending(tiers, progress, minutes);
            p.Some? ==> 0.0 < p.value.fraction && progress < p.value.target <= 1.0
                        && (p.value.fraction >= 1.0 <==> p.value.target == 1.0)
  {
    TargetIsGreatest(tiers, progress, minutes);
    var p := Pending(tiers, progress, minutes);
    if p.Some? && p.value.target < 1.0 {
      var g := Ratio(progress, p.value.target);
    }
  }

  /** In some pass the tier of 100% fired and its fill was everything still held. */
  predicate SoldOut(tiers: seq<Tier>, qty: int, passes: seq<real>, fills: seq<int>)
    requires |fills| == |passes|
  {
    passes != [] &&
    var n := |passes| - 1;
    var before := RunFilled(tiers, qty, passes[..n], fills[..n]);
    var p := Pending(tiers, before.progress, passes[n]);
    || SoldOut(tiers, qty, passes[..n], fills[..n])
    || (p.Some? && p.value.target == 1.0 && fills[n] >= before.held)
  }

  /** Whatever fills, a position is flat at the end of the day exactly if the 100% tier fired and filled completely. */
  lemma {:induction false} FlatIffSoldOut(tiers: seq<Tier>, qty: nat, passes: seq<real>, fills: seq<int>)
    requires ValidTiers(tiers) && qty > 0 && |fills| == |passes|
    ensures 0 <= RunFilled(tiers, qty, passes, fills).held <= qty
    ensures RunFilled(tiers, qty, passes, fills).held == 0 <==> SoldOut(tiers, qty, passes, fills)
  {
    if passes == [] {
    } else {
      var n := |passes| - 1;
      var before := RunFilled(tiers, qty, passes[..n], fills[..n]);
      FlatIffSoldOut(tiers, qty, passes[..n], fills[..n]);
      ProgressIgnoresFills(tiers, qty, qty, passes[..n], fills[..n]);
      HoldingFollowsSchedule(tiers, qty, passes[..n]);
      FractionPositive(tiers, before.progress, passes[n]);
      var p := Pending(tiers, before.progress, passes[n]);
      if p.Some? && before.held > 0 { SoldShare(before.held, p.value.fraction); }
    }
  }

  /** When every order fills, this is the run of the schedule. */
  lemma {:induction false} FullFillsAreTheSchedule(tiers: seq<Tier>, qty: nat, passes: seq<real>, fills: seq<int>)
    requires ValidTiers(tiers) && qty > 0 && |fills| == |passes| && forall k :: 0 <= k < |fills| ==> fills[k] >= qty
    ensures RunFilled(tiers, qty, passes, fills) == Run(tiers, qty, passes)
  {
    if passes == [] {
    } else {
      var n := |passes| - 1;
      var before := Run(tiers, qty, passes[..n]);
      FullFillsAreTheSchedule(tiers, qty, passes[..n], fills[..n]);
      FlatIffSoldOut(tiers, qty, passes[..n], fills[..n]);
      HoldingFollowsSchedule(tiers, qty, passes[..n]);
      FractionPositive(tiers, before.progress, passes[n]);
      var p := Pending(tiers, before.progress, passes[n]);
      if p.Some? && before.held > 0 { SoldShare(before.held, p.value.fraction); }
    }
  }

  /** After the last tier has fired nothing is sold any more that day, whatever was left unfilled. */
  lemma {:induction false} NothingAfterLastTier(tiers: seq<Tier>, qty: int, passes: seq<real>, fills: seq<int>, n: nat)
    requires |fills| == |passes| && n <= |passes| && RunFilled(tiers, qty, passes[..n], fills[..n]).progress >= 1.0
    ensures RunFilled(tiers, qty, passes, fills) == RunFilled(tiers, qty, passes[..n], fills[..n])
  {
    if n == |passes| {
      assert passes[..n] == passes && fills[..n] == fills;
    } else {
      var k := |passes| - 1;
      assert passes[..k][..n] == passes[..n] && fills[..k][..n] == fills[..n];
      NothingAfterLastTier(tiers, qty, passes[..k], fills[..k], n);
    }
  }

  /** With the configured tiers: ten units, one pass 24 minutes before the close whose order does not fill, and any
      passes after it whose orders would: the ten units stay overnight. */
  lemma UnfilledLastTierStaysOvernight(later: seq<real>, fills: seq<int>)
    requires |fills| == |later|
    ensures RunFilled(FORCE_EXIT_TIERS, 10, [24.0] + later, [0] + fills) == Day(10, 1.0, [1.0])
  {
    var passes, all := [24.0] + later, [0] + fills;
    assert passes[..1] == [24.0] && all[..1] == [0];
    TargetIsGreatest(FORCE_EXIT_TIERS, 0.0, 24.0);
    assert Eligible(FORCE_EXIT_TIERS[1], 0.0, 24.0);
    assert Pending(FORCE_EXIT_TIERS, 0.0, 24.0) == Some(Firing(1.0, 1.0));
    assert [24.0][..0] == [] && [0][..0] == [];
    assert RunFilled(FORCE_EXIT_TIERS, 10, [], []) == Day(10, 0.0, []);
    assert RunFilled(FORCE_EXIT_TIERS, 10, [24.0], [0]) == Day(10, 1.0, [1.0]);
    NothingAfterLastTier(FORCE_EXIT_TIERS, 10, passes, all, 1);
  }

  // ---- the orders of one firing and the state kept between passes ----

  datatype Holding = Holding(code: Text, qty: int)

  function OrderFor(h: Holding, orderQty: int, fraction: real): seq<Holding> {
    if h.code == EMPTY || SellQty(h.qty, orderQty, fraction) <= 0 then []
    else [Holding(h.code, SellQty(h.qty, orderQty, fraction))]
  }

  function Orders(holdings: seq<Holding>, orderQty: int, fraction: real): seq<Holding> {
    if holdings == [] then []
    else Orders(holdings[..|holdings| - 1], orderQty, fraction) + OrderFor(holdings[|holdings| - 1], orderQty, fraction)
  }

  ghost predicate AllReal(orders: seq<Holding>) {
    forall k :: 0 <= k < |orders| ==> orders[k].code != EMPTY && orders[k].qty > 0
  }

  /** Every order names a code and sells something. */
  lemma {:induction false} OrdersAreReal(holdings: seq<Holding>, orderQty: int, fraction: real)
    ensures AllReal(Orders(holdings, orderQty, fraction))
  {
    if holdings == [] {
    } else {
      var n := |holdings| - 1;
      var front, last := Orders(holdings[..n], orderQty, fraction), OrderFor(holdings[n], orderQty, fraction);
      OrdersAreReal(holdings[..n], orderQty, fraction);
      assert AllReal(last);
      assert AllReal(front + last);
    }
  }

  method ForceLiquidateStrategy(holdings: seq<Holding>, orderQty: int, fraction: real) returns (orders: seq<Holding>)
    ensures orders == Orders(holdings, orderQty, fraction)
  {
    orders := [];
    for i := 0 to |holdings|
      invariant orders == Orders(holdings[..i], orderQty, fraction)
    {
      assert holdings[..i + 1][..i] == holdings[..i];
      var h := holdings[i];
      if h.code == EMPTY {
        continue;
      }
      var holdingQty := h.qty;
      if holdingQty <= 0 {
        holdingQty := orderQty;
      }
      var sellQty := if fraction >= 1.0 then holdingQty else (holdingQty as real * fraction).Floor;
      assert sellQty == SellQty(h.qty, orderQty, fraction);
      if sellQty <= 0 {
        continue;
      }
      orders := orders + [Holding(h.code, sellQty)];
    }
    assert holdings[..|holdings|] == holdings;
  }

  function Total(hs: seq<Holding>, code: Text): int {
    if hs == [] then 0
    else Total(hs[..|hs| - 1], code) + if hs[|hs| - 1].code == code then hs[|hs| - 1].qty else 0
  }

  /** What is really held of a code: rows that list no units count for nothing. */
  function HeldTotal(hs: seq<Holding>, code: Text): int {
    if hs == [] then 0
    else HeldTotal(hs[..|hs| - 1], code) + if hs[|hs| - 1].code == code then Max(0, hs[|hs| - 1].qty) else 0
  }

  /** The holding lists some units, or its stand-in, the configured order quantity, comes to nothing. */
  predicate Covered(h: Holding, orderQty: int, fraction: real) {
    h.code == EMPTY || h.qty > 0 || SellQty(0, orderQty, fraction) <= 0
  }

  lemma {:induction false} TotalAppend(a: seq<Holding>, b: seq<Holding>, code: Text)
    ensures Total(a + b, code) == Total(a, code) + Total(b, code)
  {
    if b == [] {
      assert a + b == a;
    } else {
      assert (a + b)[..|a + b| - 1] == a + b[..|b| - 1];
      TotalAppend(a, b[..|b| - 1], code);
    }
  }

  lemma OrderTotal(h: Holding, orderQty: int, fraction: real, code: Text)
    requires 0.0 < fraction && code != EMPTY
    ensures Total(OrderFor(h, orderQty, fraction), code) ==
            if h.code == code then Max(0, SellQty(h.qty, orderQty, fraction)) else 0
    ensures HeldTotal([h], code) == if h.code == code then Max(0, h.qty) else 0
  {
    var order := Holding(h.code, SellQty(h.qty, orderQty, fraction));
    assert [h][..0] == [] && [order][..0] == [];
    assert Total([], code) == 0 && HeldTotal([], code) == 0;
  }

  /** One order stays within its holding exactly if the holding is covered. */
  lemma OrderWithinHoldingIff(h: Holding, orderQty: int, fraction: real)
    requires 0.0 < fraction && h.code != EMPTY
    ensures Max(0, SellQty(h.qty, orderQty, fraction)) <= Max(0, h.qty) <==> Covered(h, orderQty, fraction)
    ensures fraction >= 1.0 && Covered(h, orderQty, fraction) ==>
              Max(0, SellQty(h.qty, orderQty, fraction)) == Max(0, h.qty)
  {
    if h.qty > 0 {
      SoldShare(h.qty, fraction);
      assert SellQty(h.qty, orderQty, fraction) == SellQty(h.qty, 0, fraction);
    } else {
      assert SellQty(h.qty, orderQty, fraction) == SellQty(0, orderQty, fraction);
    }
  }

  lemma CoveredOrder(h: Holding, orderQty: int, fraction: real, code: Text)
    requires 0.0 < fraction && code != EMPTY && (h.code == code ==> Covered(h, orderQty, fraction))
    ensures var sold, held := Total(OrderFor(h, orderQty, fraction), code), HeldTotal([h], code);
            0 <= sold <= held && (fraction >= 1.0 ==> sold == held)
  {
    OrderTotal(h, orderQty, fraction, code);
    if h.code == code { OrderWithinHoldingIff(h, orderQty, fraction); }
  }

  lemma HeldTotalSnoc(holdings: seq<Holding>, code: Text)
    requires holdings != []
    ensures var n := |holdings| - 1;
            HeldTotal(holdings, code) == HeldTotal(holdings[..n], code) + HeldTotal([holdings[n]], code)
  {
    assert [holdings[|holdings| - 1]][..0] == [];
    assert HeldTotal([], code) == 0;
  }

  /** Of covered holdings no firing orders more of a code than is held; a full firing orders exactly what is held. */
  lemma {:induction false} OrdersWithinHoldings(holdings: seq<Holding>, orderQty: int, fraction: real, code: Text)
    requires 0.0 < fraction && code != EMPTY
    requires forall i :: 0 <= i < |holdings| && holdings[i].code == code ==> Covered(holdings[i], orderQty, fraction)
    ensures var sold := Total(Orders(holdings, orderQty, fraction), code);
            0 <= sold <= HeldTotal(holdings, code) && (fraction >= 1.0 ==> sold == HeldTotal(holdings, code))
  {
    if holdings == [] {
    } else {
      var n := |holdings| - 1;
      var h := holdings[n];
      OrdersWithinHoldings(holdings[..n], orderQty, fraction, code);
      CoveredOrder(h, orderQty, fraction, code);
      HeldTotalSnoc(holdings, code);
      TotalAppend(Orders(holdings[..n], orderQty, fraction), OrderFor(h, orderQty, fraction), code);
    }
  }

  /** Holdings are listed once per code. */
  ghost predicate DistinctCodes(holdings: seq<Holding>) {
    forall i, j :: 0 <= i < j < |holdings| ==> holdings[i].code != holdings[j].code
  }

  /** What is ordered for one holding. */
  function Ordered(h: Holding, orderQty: int, fraction: real): int { Max(0, SellQty(h.qty, orderQty, fraction)) }

  /** The last holding adds its own order to its own code and nothing to the others. */
  lemma OrdersSnoc(holdings: seq<Holding>, orderQty: int, fraction: real, code: Text, last: int)
    requires 0.0 < fraction && code != EMPTY && holdings != [] &&
              last == Ordered(holdings[|holdings| - 1], orderQty, fraction)
    ensures var n := |holdings| - 1;
            && Total(Orders(holdings, orderQty, fraction), code) ==
               Total(Orders(holdings[..n], orderQty, fraction), code) + (if holdings[n].code == code then last else 0)
            && HeldTotal(holdings, code) ==
               HeldTotal(holdings[..n], code) + (if holdings[n].code == code then Max(0, holdings[n].qty) else 0)
  {
    var n := |holdings| - 1;
    OrderTotal(holdings[n], orderQty, fraction, code);
    TotalAppend(Orders(holdings[..n], orderQty, fraction), OrderFor(holdings[n], orderQty, fraction), code);
  }

  lemma {:induction false} UnlistedCode(holdings: seq<Holding>, orderQty: int, fraction: real, code: Text)
    requires 0.0 < fraction && code != EMPTY && forall i :: 0 <= i < |holdings| ==> holdings[i].code != code
    ensures Total(Orders(holdings, orderQty, fraction), code) == 0 && HeldTotal(holdings, code) == 0
  {
    if holdings == [] {
    } else {
      var n := |holdings| - 1;
      UnlistedCode(holdings[..n], orderQty, fraction, code);
      OrdersSnoc(holdings, orderQty, fraction, code, Ordered(holdings[n], orderQty, fraction));
    }
  }

  lemma {:induction false} ListedOnce(holdings: seq<Holding>, orderQty: int, fraction: real, i: nat, h: Holding)
    requires 0.0 < fraction && DistinctCodes(holdings) && i < |holdings| && h == holdings[i] && h.code != EMPTY
    ensures Total(Orders(holdings, orderQty, fraction), h.code) == Ordered(h, orderQty, fraction)
    ensures HeldTotal(holdings, h.code) == Max(0, h.qty)
  {
    var n := |holdings| - 1;
    if i == n {
      OrdersSnoc(holdings, orderQty, fraction, h.code, Ordered(h, orderQty, fraction));
      UnlistedCode(holdings[..n], orderQty, fraction, h.code);
    } else {
      OrdersSnoc(holdings, orderQty, fraction, h.code, Ordered(holdings[n], orderQty, fraction));
      ListedOnce(holdings[..n], orderQty, fraction, i, h);
    }
  }

  /** A firing orders no more of any code than is held exactly if every listed holding is covered. */
  lemma OrdersWithinHoldingsIff(holdings: seq<Holding>, orderQty: int, fraction: real)
    requires 0.0 < fraction && DistinctCodes(holdings)
    ensures (forall code :: code != EMPTY ==>
              Total(Orders(holdings, orderQty, fraction), code) <= HeldTotal(holdings, code))
            <==> forall i :: 0 <= i < |holdings| ==> Covered(holdings[i], orderQty, fraction)
  {
    if forall i :: 0 <= i < |holdings| ==> Covered(holdings[i], orderQty, fraction) {
      forall code | code != EMPTY
        ensures Total(Orders(holdings, orderQty, fraction), code) <= HeldTotal(holdings, code)
      {
        OrdersWithinHoldings(holdings, orderQty, fraction, code);
      }
    } else {
      var i: nat :| i < |holdings| && !Covered(holdings[i], orderQty, fraction);
      ListedOnce(holdings, orderQty, fraction, i, holdings[i]);
      OrderWithinHoldingIff(holdings[i], orderQty, fraction);
      assert Total(Orders(holdings, orderQty, fraction), holdings[i].code) > HeldTotal(holdings, holdings[i].code);
    }
  }

  /** A holding listed without units is sold at the configured order quantity. */
  lemma EmptyHoldingIsOrdered() returns (holdings: seq<Holding>)
    ensures holdings == [Holding(7, 0)] && HeldTotal(holdings, 7) == 0
    ensures Orders(holdings, 5, 1.0) == [Holding(7, 5)]
  {
    holdings := [Holding(7, 0)];
    assert holdings[..0] == [];
    assert Orders([], 5, 1.0) == [];
    OrderTotal(holdings[0], 5, 1.0, 7);
  }

  class ForceExitProgress {
    var progress: map<Text, real>
    var doneDate: Option<int>

    function Of(name: Text): real reads this { if name in progress then progress[name] else 0.0 }

    constructor ()
      ensures progress == map[] && doneDate == None
    {
      progress := map[];
      doneDate := None;
    }

    /** A new date forgets all progress; the same date keeps it. */
    method SyncDate(today: int)
      modifies this
      ensures doneDate == Some(today)
      ensures progress == if old(doneDate) == Some(today) then old(progress) else map[]
    {
      if doneDate == Some(today) {
        return;
      }
      progress := map[];
      doneDate := Some(today);
    }

    /** Records the target before the orders are sent: a tier is used up even if they fail. */
    method Take(tiers: seq<Tier>, name: Text, minutes: real) returns (f: Option<Firing>)
      modifies this
      ensures f == Pending(tiers, old(Of(name)), minutes) && doneDate == old(doneDate)
      ensures progress == if f.Some? then old(progress)[name := f.value.target] else old(progress)
    {
      f := PendingForceExitTier(tiers, Of(name), minutes);
      if f.Some? {
        progress := progress[name := f.value.target];
      }
    }
  }
}
