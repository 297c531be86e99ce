/** Stop and target of a fresh fill, and the two-leg exit order built from them (app/main.py
    `_on_entry_filled`, app/orders.py). */
module Triggers {
  import opened Nums

  datatype Side = Buy | Sell

  datatype Kind = Equity | Future | OptionLeg

  function Round2(x: real): real {
    Round(x * 100.0) as real / 100.0
  }

  function Ticks(k: int, tick: real): real {
    k as real * tick
  }

  function RoundToTick(price: real, tick: real): real {
    if tick <= 0.0 then Round2(price) else Round2(Ticks(Round(price / tick), tick))
  }

  /** What decides the distances: the risk-reward ratio, the percentages for equity or futures
      and for options, the quantity in units of the underlying, the fixed rupee bands if the
      signal carries both, and the short option's profit percentage. */
  datatype Plan = Plan(rr: real, linearPct: real, slPct: real, units: real, bands: Option<(real, real)>, profitPct: real) {
    ghost predicate Valid() {
      && rr >= 0.0 && linearPct >= 0.0 && slPct >= 0.0 && 0.0 <= profitPct
      && (bands.Some? ==> bands.value.0 > 0.0 && bands.value.1 > 0.0)
    }
  }

  predicate FixedBands(p: Plan) {
    p.bands.Some? && p.units > 0.0
  }

  function SlDistance(p: Plan, fill: real): real {
    if FixedBands(p) then Max(p.bands.value.0 / p.units, 1.0)
    else Max(Max(fill * p.slPct, if p.units > 0.0 then 1000.0 / p.units else fill * p.slPct), 1.0)
  }

  function TargetDistance(p: Plan, fill: real): real {
    if FixedBands(p) then Max(p.bands.value.1 / p.units, 1.0) else Max(p.rr * (fill * p.slPct), 1.0)
  }

  /** The stop distance is the least that is worth the rupee band, or else the percentage and a thousand
      rupees, and one whole point. */
  lemma SlDistanceIs(p: Plan, fill: real)
    requires fill >= 0.0 && p.Valid()
    ensures var d := SlDistance(p, fill);
            && d >= 1.0
            && (p.bands.Some? && p.units > 0.0 ==> Worth(d, p.units) >= p.bands.value.0 && (d > 1.0 ==> Worth(d, p.units) == p.bands.value.0))
            && (!(p.bands.Some? && p.units > 0.0) ==>
                  && d >= fill * p.slPct && (p.units > 0.0 ==> Worth(d, p.units) >= 1000.0)
                  && (d > 1.0 ==> d == fill * p.slPct || (p.units > 0.0 && Worth(d, p.units) == 1000.0)))
  {
    if p.units > 0.0 {
      var floor := if FixedBands(p) then p.bands.value.0 else 1000.0;
      WorthOf(SlDistance(p, fill), floor, p.units);
    }
  }

  /** The target distance likewise: the least of at least a point that is worth the rupee band, or the
      risk-reward multiple of the percentage. */
  lemma TargetDistanceIs(p: Plan, fill: real)
    ensures var d := TargetDistance(p, fill);
            && d >= 1.0
            && (p.bands.Some? && p.units > 0.0 ==> Worth(d, p.units) >= p.bands.value.1 && (d > 1.0 ==> Worth(d, p.units) == p.bands.value.1))
            && (!(p.bands.Some? && p.units > 0.0) ==> d >= p.rr * (fill * p.slPct) && (d > 1.0 ==> d == p.rr * (fill * p.slPct)))
  {
    if FixedBands(p) { WorthOf(TargetDistance(p, fill), p.bands.value.1, p.units); }
  }

  function Worth(perUnit: real, units: real): real {
    perUnit * units
  }

  lemma WorthOf(d: real, rupees: real, units: real)
    requires units > 0.0
    ensures d >= rupees / units ==> Worth(d, units) >= rupees
    ensures d == rupees / units ==> Worth(d, units) == rupees
  {
    var q := rupees / units;
    assert q * units == rupees;
    if d >= q { assert (d - q) * units >= 0.0; }
  }

  /** Stop and target before rounding. */
  function RawBand(kind: Kind, side: Side, p: Plan, fill: real): (real, real) {
    match kind
    case Equity => (fill - fill * p.linearPct, fill + p.rr * (fill * p.linearPct))
    case Future =>
      if side == Buy then (fill - fill * p.linearPct, fill + p.rr * (fill * p.linearPct))
      else (fill + fill * p.linearPct, fill - p.rr * (fill * p.linearPct))
    case OptionLeg =>
      if side == Buy then (Max(fill - SlDistance(p, fill), 0.05), fill + TargetDistance(p, fill))
      else (fill + SlDistance(p, fill),
            Max(if FixedBands(p) then fill - TargetDistance(p, fill) else fill * (1.0 - p.profitPct), 0.05))
  }

  /** Rounded to the tick; an option's triggers are kept at least one tick above zero. */
  function Settle(kind: Kind, x: real, tick: real): real {
    if kind == OptionLeg then Max(RoundToTick(x, tick), tick) else RoundToTick(x, tick)
  }

  function BandOf(kind: Kind, side: Side, p: Plan, fill: real, tick: real): (real, real) {
    var raw := RawBand(kind, side, p, fill);
    (Settle(kind, raw.0, tick), Settle(kind, raw.1, tick))
  }

  // ---- The tick grid ----

  /** A tick of `m` hundredths. */
  predicate TickOf(tick: real, m: int) {
    m >= 1 && tick == m as real / 100.0
  }

  predicate OnGrid(x: real, tick: real, k: int) {
    x == Ticks(k, tick)
  }

  lemma Round2Exact(n: int)
    ensures Round2(n as real / 100.0) == n as real / 100.0
  {
  }

  lemma Hundredths(k: int, m: int, tick: real)
    requires TickOf(tick, m)
    ensures Ticks(k, tick) == (k * m) as real / 100.0
  {
  }

  /** Rounding lands on the grid: the second rounding, to paise, has nothing left to do. */
  lemma LandsOnGrid(price: real, tick: real, m: int)
    requires TickOf(tick, m)
    ensures OnGrid(RoundToTick(price, tick), tick, Round(price / tick))
  {
    var k := Round(price / tick);
    Hundredths(k, m, tick);
    Round2Exact(k * m);
  }

  /** Without a tick size a price is rounded to whole paise. */
  lemma NoTick(price: real)
    ensures Abs(RoundToTick(price, 0.0) - price) <= 0.005 && Whole(100.0 * RoundToTick(price, 0.0))
  {
    IntsAreWhole(Round(price * 100.0));
    assert 100.0 * RoundToTick(price, 0.0) == Round(price * 100.0) as real;
    RoundIsNearest(price * 100.0, 0);
  }

  lemma QuotientOrder(x: real, y: real, d: real)
    requires x <= y && d > 0.0
    ensures x / d <= y / d
  {
  }

  lemma GridOrder(a: int, b: int, tick: real)
    requires a <= b && tick > 0.0
    ensures Ticks(a, tick) <= Ticks(b, tick)
  {
  }

  lemma RoundToTickMonotone(x: real, y: real, tick: real, m: int)
    requires TickOf(tick, m) && x <= y
    ensures RoundToTick(x, tick) <= RoundToTick(y, tick)
  {
    LandsOnGrid(x, tick, m);
    LandsOnGrid(y, tick, m);
    QuotientOrder(x, y, tick);
    RoundMonotone(x / tick, y / tick);
    GridOrder(Round(x / tick), Round(y / tick), tick);
  }

  lemma RoundToTickKeepsGrid(x: real, tick: real, m: int, k: int)
    requires TickOf(tick, m) && OnGrid(x, tick, k)
    ensures RoundToTick(x, tick) == x && Round(x / tick) == k
  {
    assert x / tick == k as real;
    LandsOnGrid(x, tick, m);
  }

  // ---- The band brackets the fill ----

  predicate Brackets(side: Side, sl: real, fill: real, target: real) {
    if side == Buy then sl <= fill <= target else target <= fill <= sl
  }

  lemma RawBrackets(kind: Kind, side: Side, p: Plan, fill: real)
    requires p.Valid() && fill > 0.0 && (kind == Equity ==> side == Buy) && (kind == OptionLeg ==> fill >= 0.05)
    ensures var raw := RawBand(kind, side, p, fill); Brackets(side, raw.0, fill, raw.1)
  {
  }

  lemma SettleBelow(kind: Kind, x: real, fill: real, tick: real, m: int, k: int)
    requires TickOf(tick, m) && OnGrid(fill, tick, k) && (kind == OptionLeg ==> fill >= tick)
    ensures x <= fill ==> Settle(kind, x, tick) <= fill
    ensures x >= fill ==> Settle(kind, x, tick) >= fill
  {
    RoundToTickKeepsGrid(fill, tick, m, k);
    if x <= fill {
      RoundToTickMonotone(x, fill, tick, m);
    }
    if x >= fill {
      RoundToTickMonotone(fill, x, tick, m);
    }
  }

  /** For a fill on the tick grid the rounded, floored triggers lie on the right sides of it,
      bought or sold, with fixed rupee bands or without. */
  lemma BandBrackets(kind: Kind, side: Side, p: Plan, fill: real, tick: real, m: int, k: int)
    requires p.Valid() && TickOf(tick, m) && OnGrid(fill, tick, k) && fill > 0.0
    requires kind == Equity ==> side == Buy
    requires kind == OptionLeg ==> fill >= Max(tick, 0.05)
    ensures var b := BandOf(kind, side, p, fill, tick); Brackets(side, b.0, fill, b.1)
  {
    RawBrackets(kind, side, p, fill);
    var raw := RawBand(kind, side, p, fill);
    SettleBelow(kind, raw.0, fill, tick, m, k);
    SettleBelow(kind, raw.1, fill, tick, m, k);
  }

  // ---- When the bracketing is strict ----

  predicate StrictlyBrackets(side: Side, sl: real, fill: real, target: real) {
    if side == Buy then sl < fill < target else target < fill < sl
  }

  /** How far the stop is meant to be from the fill, and the target. */
  function StopAway(kind: Kind, p: Plan, fill: real): real {
    if kind == OptionLeg then SlDistance(p, fill) else fill * p.linearPct
  }

  function TargetAway(kind: Kind, side: Side, p: Plan, fill: real): real {
    if kind != OptionLeg then p.rr * (fill * p.linearPct)
    else if side == Buy || FixedBands(p) then TargetDistance(p, fill)
    else fill * p.profitPct
  }

  /** A price that far from the `k`-th grid price rounds to another one: the distance is more than
      half a tick, or just half and the `k`-th is the odd neighbour. */
  predicate LeavesGrid(d: real, tick: real, k: int) {
    d > tick / 2.0 || (d == tick / 2.0 && k % 2 == 1)
  }

  lemma RoundLeaves(k: int, q: real)
    requires q >= 0.0
    ensures Round(k as real - q) < k <==> LeavesGrid(q, 1.0, k)
    ensures Round(k as real + q) > k <==> LeavesGrid(q, 1.0, k)
    ensures Round(k as real - q) <= k <= Round(k as real + q)
  {
  }

  lemma AwayInTicks(fill: real, d: real, tick: real, k: int)
    requires tick > 0.0 && OnGrid(fill, tick, k)
    ensures (fill - d) / tick == k as real - d / tick && (fill + d) / tick == k as real + d / tick
    ensures LeavesGrid(d / tick, 1.0, k) <==> LeavesGrid(d, tick, k)
    ensures d >= 0.0 ==> d / tick >= 0.0
  {
    var q := d / tick;
    assert q * tick == d;
    assert (fill - d) / tick * tick == fill - d;
    SameTicks((fill - d) / tick, k as real - q, tick);
    SameTicks((fill + d) / tick, k as real + q, tick);
    InTicks(q, 0.5, tick);
  }

  lemma SameTicks(a: real, b: real, tick: real)
    requires tick > 0.0 && a * tick == b * tick
    ensures a == b
  {
  }

  lemma InTicks(a: real, b: real, tick: real)
    requires tick > 0.0
    ensures a > b <==> a * tick > b * tick
    ensures a == b <==> a * tick == b * tick
  {
  }

  lemma GridGap(a: int, b: int, tick: real)
    requires tick > 0.0
    ensures Ticks(a, tick) < Ticks(b, tick) <==> a < b
  {
  }

  lemma RoundsAway(fill: real, d: real, tick: real, m: int, k: int)
    requires TickOf(tick, m) && OnGrid(fill, tick, k) && d >= 0.0
    ensures RoundToTick(fill - d, tick) < fill <==> LeavesGrid(d, tick, k)
    ensures RoundToTick(fill + d, tick) > fill <==> LeavesGrid(d, tick, k)
  {
    AwayInTicks(fill, d, tick, k);
    RoundLeaves(k, d / tick);
    LandsOnGrid(fill - d, tick, m);
    LandsOnGrid(fill + d, tick, m);
    GridGap(Round((fill - d) / tick), k, tick);
    GridGap(k, Round((fill + d) / tick), tick);
  }

  /** A floored trigger below the fill is the higher of the rounded one and the lowest. */
  lemma FlooredSettles(x: real, tick: real, m: int)
    requires TickOf(tick, m)
    ensures Settle(OptionLeg, Max(x, 0.05), tick) == Max(RoundToTick(x, tick), LowestStop(tick))
  {
    if x <= 0.05 {
      RoundToTickMonotone(x, 0.05, tick, m);
    } else {
      RoundToTickMonotone(0.05, x, tick, m);
    }
  }

  lemma RawAway(kind: Kind, side: Side, p: Plan, fill: real)
    requires p.Valid() && (kind == Equity ==> side == Buy) && fill > 0.0
    ensures var raw, s, t := RawBand(kind, side, p, fill), StopAway(kind, p, fill), TargetAway(kind, side, p, fill);
            && s >= 0.0 && t >= 0.0
            && if side == Buy then raw.0 == (if kind == OptionLeg then Max(fill - s, 0.05) else fill - s) && raw.1 == fill + t
               else raw.0 == fill + s && raw.1 == if kind == OptionLeg then Max(fill - t, 0.05) else fill - t
  {
    assert fill * p.linearPct >= 0.0 && fill * p.profitPct >= 0.0;
    assert p.rr * (fill * p.linearPct) >= 0.0;
  }

  /** Stop and target lie strictly on their sides of the fill exactly when both distances leave the
      fill's grid price and an option's fill is above the lowest trigger. */
  lemma StrictlyBracketsWhen(kind: Kind, side: Side, p: Plan, fill: real, tick: real, m: int, k: int)
    requires p.Valid() && TickOf(tick, m) && OnGrid(fill, tick, k) && fill > 0.0
    requires kind == Equity ==> side == Buy
    requires kind == OptionLeg ==> fill >= Max(tick, 0.05)
    ensures var b := BandOf(kind, side, p, fill, tick);
            StrictlyBrackets(side, b.0, fill, b.1) <==>
              && LeavesGrid(StopAway(kind, p, fill), tick, k) && LeavesGrid(TargetAway(kind, side, p, fill), tick, k)
              && (kind == OptionLeg ==> fill > LowestStop(tick))
  {
    var s, t := StopAway(kind, p, fill), TargetAway(kind, side, p, fill);
    RawAway(kind, side, p, fill);
    RoundsAway(fill, s, tick, m, k);
    RoundsAway(fill, t, tick, m, k);
    if kind == OptionLeg {
      FlooredSettles(fill - (if side == Buy then s else t), tick, m);
    }
  }

  /** An option bought for five paise at a tick of five has its stop on its fill. */
  lemma StopOnFill()
    ensures var p := Plan(2.0, 0.02, 0.1, 10.0, None, 0.5); BandOf(OptionLeg, Buy, p, 0.05, 0.05).0 == 0.05
  {
  }

  // ---- What the stop risks ----

  /** What an option loses per unit between its fill and its stop. */
  function StopLoss(side: Side, p: Plan, fill: real, tick: real): real {
    var sl := BandOf(OptionLeg, side, p, fill, tick).0;
    if side == Buy then fill - sl else sl - fill
  }

  /** No stop of an option is set lower. */
  function LowestStop(tick: real): real {
    Settle(OptionLeg, 0.05, tick)
  }

  /** The loss the stop is meant for. */
  function RupeeFloor(p: Plan): real {
    if FixedBands(p) then p.bands.value.0 else 1000.0
  }

  lemma RoundToTickNearest(x: real, tick: real, m: int)
    requires TickOf(tick, m)
    ensures Abs(RoundToTick(x, tick) - x) <= tick / 2.0
  {
    LandsOnGrid(x, tick, m);
    RoundIsNearest(x / tick, 0);
    HalfTickAway(x, Round(x / tick), tick);
  }

  /** A sold option's stop is the rounded one; a bought option's is the higher of the rounded and
      the lowest. */
  lemma StopIs(side: Side, p: Plan, fill: real, tick: real, m: int)
    requires TickOf(tick, m) && fill >= tick
    ensures var d := SlDistance(p, fill);
            StopLoss(side, p, fill, tick)
              == if side == Sell then RoundToTick(fill + d, tick) - fill
                 else Min(fill - RoundToTick(fill - d, tick), fill - LowestStop(tick))
  {
    var d := SlDistance(p, fill);
    RoundToTickKeepsGrid(tick, tick, m, 1);
    if side == Sell {
      RoundToTickMonotone(tick, fill + d, tick, m);
    } else if fill - d >= 0.05 {
      RoundToTickMonotone(0.05, fill - d, tick, m);
    } else {
      RoundToTickMonotone(fill - d, 0.05, tick, m);
    }
  }

  /** The stop set for an option is its intended distance away up to half a tick: always when it
      was sold, and exactly when that distance ends no lower than the lowest stop when bought. */
  lemma StopDistance(side: Side, p: Plan, fill: real, tick: real, m: int)
    requires TickOf(tick, m) && fill >= tick
    ensures var d := SlDistance(p, fill);
            Abs(StopLoss(side, p, fill, tick) - d) <= tick / 2.0
            <==> side == Sell || fill - d >= LowestStop(tick) - tick / 2.0
  {
    var d := SlDistance(p, fill);
    StopIs(side, p, fill, tick, m);
    RoundToTickNearest(if side == Sell then fill + d else fill - d, tick, m);
    RoundToTickNearest(0.05, tick, m);
    if side == Buy && fill - d >= 0.05 {
      RoundToTickMonotone(0.05, fill - d, tick, m);
    }
  }

  lemma DistanceCoversFloor(p: Plan, fill: real)
    requires p.units > 0.0
    ensures SlDistance(p, fill) >= RupeeFloor(p) / p.units
  {
  }

  lemma RupeesGrow(a: real, b: real, units: real)
    requires units > 0.0
    ensures a < b ==> Worth(a, units) < Worth(b, units)
    ensures a <= b ==> Worth(a, units) <= Worth(b, units)
  {
    var d := b - a;
    assert d > 0.0 ==> d * units > 0.0;
    assert Worth(b, units) == Worth(a, units) + d * units;
  }

  lemma RupeesOrder(a: real, floor: real, units: real)
    requires units > 0.0
    ensures Worth(a, units) >= floor <==> a >= floor / units
  {
    assert Worth(floor / units, units) == floor;
    RupeesGrow(floor / units, a, units);
    RupeesGrow(a, floor / units, units);
  }

  /** Allowing half a tick a unit for rounding, an option loses at least the rupee floor, or the
      requested band, at its stop: always when it was sold, and exactly when the fill is worth that
      much above the lowest stop when bought. */
  lemma StopRisksEnough(side: Side, p: Plan, fill: real, tick: real, m: int)
    requires p.units > 0.0 && TickOf(tick, m) && fill >= tick
    ensures Worth(StopLoss(side, p, fill, tick) + tick / 2.0, p.units) >= RupeeFloor(p)
            <==> side == Sell || Worth(fill - LowestStop(tick) + tick / 2.0, p.units) >= RupeeFloor(p)
  {
    var d := SlDistance(p, fill);
    StopIs(side, p, fill, tick, m);
    RoundToTickNearest(if side == Sell then fill + d else fill - d, tick, m);
    DistanceCoversFloor(p, fill);
    RupeesOrder(StopLoss(side, p, fill, tick) + tick / 2.0, RupeeFloor(p), p.units);
    RupeesOrder(fill - LowestStop(tick) + tick / 2.0, RupeeFloor(p), p.units);
  }

  /** A cheap option bought in small size cannot lose that much: ten units at two rupees, meant to
      risk a thousand, lose less than twenty at the stop. */
  lemma CheapOptionRisksLess()
    ensures var p := Plan(2.0, 0.02, 0.1, 10.0, None, 0.5);
            && BandOf(OptionLeg, Buy, p, 2.0, 0.05).0 == 0.05
            && Worth(StopLoss(Buy, p, 2.0, 0.05), p.units) < 20.0 && Worth(SlDistance(p, 2.0), p.units) == 1000.0
  {
  }

  // ---- The exit order ----

  /** Decimal's ROUND_HALF_UP. */
  function HalfUp(x: real): int {
    if x >= 0.0 then Floor(x + 0.5) else -Floor(-x + 0.5)
  }

  function ToTick(price: real, tick: real): real
    requires tick > 0.0
  {
    Ticks(HalfUp(price / tick), tick)
  }

  /** Both exit limits, pushed past their triggers so that a gap still fills. */
  function OcoLimits(sl: real, target: real, side: Side, buffer: real): (real, real) {
    (LimitOf(sl, side, buffer), LimitOf(target, side, buffer))
  }

  function LimitOf(trigger: real, side: Side, buffer: real): real {
    trigger * if side == Sell then 1.0 + buffer else 1.0 - buffer
  }

  /** What is sent: the two trigger values and the limit of each. */
  datatype Oco = Oco(low: real, high: real, lowLimit: real, highLimit: real, exitSide: Side)

  function PlaceOco(sl: real, slLimit: real, target: real, targetLimit: real, side: Side, tick: real): Oco
    requires tick > 0.0
  {
    if side == Buy then Oco(ToTick(sl, tick), ToTick(target, tick), ToTick(slLimit, tick), ToTick(targetLimit, tick), Sell)
    else Oco(ToTick(target, tick), ToTick(sl, tick), ToTick(targetLimit, tick), ToTick(slLimit, tick), Buy)
  }

  lemma HalfUpMonotone(x: real, y: real)
    requires x <= y
    ensures HalfUp(x) <= HalfUp(y)
  {
  }

  lemma ToTickMonotone(x: real, y: real, tick: real)
    requires x <= y && tick > 0.0
    ensures ToTick(x, tick) <= ToTick(y, tick)
  {
    QuotientOrder(x, y, tick);
    HalfUpMonotone(x / tick, y / tick);
    GridOrder(HalfUp(x / tick), HalfUp(y / tick), tick);
  }

  lemma ToTickKeepsGrid(x: real, tick: real, k: int)
    requires tick > 0.0 && OnGrid(x, tick, k)
    ensures ToTick(x, tick) == x
  {
    assert x / tick == k as real;
    assert HalfUp(k as real) == k;
  }

  lemma HalfUpNearest(x: real)
    ensures -0.5 <= HalfUp(x) as real - x <= 0.5
  {
  }

  /** A price just between two ticks goes to the one further from zero, above or below. */
  lemma HalfUpTies(n: int)
    ensures n >= 0 ==> HalfUp(n as real + 0.5) == n + 1
    ensures n <= 0 ==> HalfUp(n as real - 0.5) == n - 1
  {
  }

  /** A whole number of ticks is within half a tick of a price if it is within a half of its
      fractional number. */
  lemma HalfTickAway(x: real, n: int, tick: real)
    requires tick > 0.0 && Abs(n as real - x / tick) <= 0.5
    ensures Abs(Ticks(n, tick) - x) <= tick / 2.0
  {
    Requotient(x, tick);
    HalfAway(x, x / tick, n as real, tick);
  }

  lemma Requotient(x: real, d: real)
    requires d > 0.0
    ensures x / d * d == x
  {
  }

  lemma HalfAway(x: real, q: real, n: real, tick: real)
    requires tick > 0.0 && -0.5 <= n - q <= 0.5 && q * tick == x
    ensures -tick / 2.0 <= n * tick - x <= tick / 2.0
  {
    var low, high := n - q + 0.5, 0.5 - (n - q);
    assert low * tick >= 0.0 && high * tick >= 0.0;
    assert low * tick == n * tick - q * tick + 0.5 * tick;
    assert high * tick == 0.5 * tick - (n * tick - q * tick);
  }

  lemma ToTickNearest(x: real, tick: real)
    requires tick > 0.0
    ensures Abs(ToTick(x, tick) - x) <= tick / 2.0
  {
    HalfUpNearest(x / tick);
    HalfTickAway(x, HalfUp(x / tick), tick);
  }

  lemma SettledOnGrid(kind: Kind, x: real, tick: real, m: int) returns (k: int)
    requires TickOf(tick, m)
    ensures OnGrid(Settle(kind, x, tick), tick, k)
  {
    LandsOnGrid(x, tick, m);
    k := if kind == OptionLeg && RoundToTick(x, tick) < tick then 1 else Round(x / tick);
  }

  /** Each limit is on the side of its trigger that lets the exit fill. */
  predicate Aggressive(o: Oco) {
    if o.exitSide == Sell then o.lowLimit <= o.low && o.highLimit <= o.high
    else o.lowLimit >= o.low && o.highLimit >= o.high
  }

  lemma BufferSide(x: real, buffer: real, side: Side)
    requires x >= 0.0 && buffer >= 0.0
    ensures if side == Sell then LimitOf(x, side, buffer) >= x else LimitOf(x, side, buffer) <= x
  {
    assert x * buffer >= 0.0;
  }

  lemma LimitAggressive(x: real, side: Side, tick: real, buffer: real)
    requires tick > 0.0 && x >= 0.0 && buffer >= 0.0
    ensures var limit := ToTick(LimitOf(x, side, buffer), tick);
            if side == Sell then limit >= ToTick(x, tick) else limit <= ToTick(x, tick)
  {
    BufferSide(x, buffer, side);
    var limit := LimitOf(x, side, buffer);
    if side == Sell {
      ToTickMonotone(x, limit, tick);
    } else {
      ToTickMonotone(limit, x, tick);
    }
  }

  /** Limits computed off grid triggers are aggressive after rounding too. */
  lemma LimitsAggressive(sl: real, target: real, side: Side, tick: real, buffer: real)
    requires tick > 0.0 && sl >= 0.0 && target >= 0.0 && buffer >= 0.0
    ensures var limits := OcoLimits(sl, target, side, buffer);
            Aggressive(PlaceOco(sl, limits.0, target, limits.1, side, tick))
  {
    LimitAggressive(sl, side, tick, buffer);
    LimitAggressive(target, side, tick, buffer);
  }

  /** Grid triggers go out unchanged. */
  lemma TriggersKept(sl: real, slLimit: real, target: real, targetLimit: real, side: Side, tick: real, i: int, j: int)
    requires tick > 0.0 && OnGrid(sl, tick, i) && OnGrid(target, tick, j)
    ensures var o := PlaceOco(sl, slLimit, target, targetLimit, side, tick);
            if side == Buy then o.low == sl && o.high == target else o.low == target && o.high == sl
  {
    ToTickKeepsGrid(sl, tick, i);
    ToTickKeepsGrid(target, tick, j);
  }

  lemma SettledPositive(x: real, tick: real)
    requires tick > 0.0
    ensures Settle(OptionLeg, x, tick) >= tick
  {
  }

  /** From fill to exchange: the triggers go out unchanged, in ascending order around the fill,
      with the limits on their aggressive sides. */
  lemma ExitOrderIsSound(side: Side, p: Plan, fill: real, tick: real, m: int, k: int, buffer: real)
    requires p.Valid() && TickOf(tick, m) && OnGrid(fill, tick, k) && fill >= Max(tick, 0.05) && buffer >= 0.0
    ensures var b := BandOf(OptionLeg, side, p, fill, tick);
            var limits := OcoLimits(b.0, b.1, side, buffer);
            var o := PlaceOco(b.0, limits.0, b.1, limits.1, side, tick);
            && (if side == Buy then (o.low, o.high) == b else (o.high, o.low) == b)
            && o.low <= fill <= o.high && Aggressive(o) && o.exitSide != side
            && Abs(o.lowLimit - Pushed(o.low, side, buffer)) <= tick / 2.0 && Abs(o.highLimit - Pushed(o.high, side, buffer)) <= tick / 2.0
  {
    var raw, b := RawBand(OptionLeg, side, p, fill), BandOf(OptionLeg, side, p, fill, tick);
    var limits := OcoLimits(b.0, b.1, side, buffer);
    var i := SettledOnGrid(OptionLeg, raw.0, tick, m);
    var j := SettledOnGrid(OptionLeg, raw.1, tick, m);
    SettledPositive(raw.0, tick);
    SettledPositive(raw.1, tick);
    TriggersKept(b.0, limits.0, b.1, limits.1, side, tick, i, j);
    LimitsAggressive(b.0, b.1, side, tick, buffer);
    BandBrackets(OptionLeg, side, p, fill, tick, m, k);
    ToTickNearest(limits.0, tick);
    ToTickNearest(limits.1, tick);
    PushedIs(b.0, side, buffer);
    PushedIs(b.1, side, buffer);
  }

  /** A trigger and the slippage allowed beyond it, in the direction the exit trades. */
  function Pushed(trigger: real, side: Side, buffer: real): real {
    if side == Buy then trigger - buffer * trigger else trigger + buffer * trigger
  }

  lemma PushedIs(trigger: real, side: Side, buffer: real)
    ensures LimitOf(trigger, side, buffer) == Pushed(trigger, side, buffer)
  {
  }
}
