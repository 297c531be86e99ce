/** The futures-move hedger (app/crudeoilm_fmove_hedge.py, app/ng_fmove_hedge.py): one machine,
    two instances that differ in the units of a lot. */
module FMove {
  import opened Nums
  import opened HedgeSizing
  import opened HedgeOrders
  import opened HedgeEngine

  datatype Tunables = Tunables(trigger: real, minDelta: real, cooldownMin: int, maxPerDay: int, maxLots: int)

  datatype Side = Call | Put

  /** An open option leg: its price may be missing, and its delta may not be solvable. */
  datatype Leg = Leg(qty: int, side: Side, strike: real, priced: bool, solved: Option<real>)

  /** A leg whose delta cannot be solved counts with 0.95 when it is in the money. */
  function Resolve(l: Leg, f: real): OptionLeg {
    OptionLeg(l.qty,
      if !l.priced then None
      else if l.solved.Some? then l.solved
      else if l.side.Call? && f > l.strike then Some(0.95)
      else if l.side.Put? && f < l.strike then Some(-0.95)
      else None)
  }

  /** An unpriced leg never counts; a priced one by its solved delta, else by nineteen twentieths of a
      unit toward the side that has value there: for a call below the futures price, for a put above. */
  lemma ResolveMeans(l: Leg, f: real)
    ensures Resolve(l, f).qty == l.qty && (Resolve(l, f).unitDelta.Some? ==> l.priced)
    ensures l.priced && l.solved.Some? ==> Resolve(l, f).unitDelta == l.solved
    ensures l.priced && l.solved == None && l.side == Call ==> Resolve(l, f).unitDelta == if l.strike < f then Some(0.95) else None
    ensures l.priced && l.solved == None && l.side == Put ==> Resolve(l, f).unitDelta == if l.strike > f then Some(-0.95) else None
  {
  }

  function Resolved(legs: seq<Leg>, f: real): seq<OptionLeg> {
    seq(|legs|, i requires 0 <= i < |legs| => Resolve(legs[i], f))
  }

  /** What a tick finds: the futures price when every prerequisite up to it holds, the squareoff
      freeze, a usable expiry, the book, the at-the-money option's delta, and the order's fate. */
  datatype View = View(
    quote: Option<real>, frozen: bool, expiryOk: bool, futures: seq<int>, legs: seq<Leg>,
    atm: Option<real>, dryRun: bool, order: Mode)

  /** The day's state file. `last` is in minutes. */
  datatype Anchors = Anchors(f: Option<real>, delta: Option<real>, hedges: int, last: Option<real>)

  const Unanchored := Anchors(None, None, 0, None)

  datatype Outcome = Held | Anchored | Advanced | Filled(lots: int, total: real, projected: real)

  function Delta(v: View, units: int): real
    requires v.quote.Some?
  {
    NetDelta(v.futures, Resolved(v.legs, v.quote.value), units)
  }

  /** The first tick of the day has no move to judge; later ones must pass the freeze, the daily
      cap, the cooldown and the trigger, on a book with at least one delta. */
  predicate Reaches(t: Tunables, a: Anchors, v: View, now: real) {
    && v.quote.Some? && a.f.Some?
    && !v.frozen
    && (t.maxPerDay > 0 ==> a.hedges < t.maxPerDay)
    && (t.cooldownMin > 0 && a.last.Some? ==> now - a.last.value >= t.cooldownMin as real)
    && Abs(v.quote.value - a.f.value) >= t.trigger
    && v.expiryOk && AnyPriced(Resolved(v.legs, v.quote.value))
  }

  function Previous(a: Anchors): real {
    if a.delta.Some? then a.delta.value else 0.0
  }

  /** Delta is worth hedging and further out than at the last anchor. */
  predicate Drifts(t: Tunables, a: Anchors, total: real) {
    Abs(total) >= t.minDelta && Abs(total) > Abs(Previous(a))
  }

  predicate Orders(v: View) {
    v.atm.Some? && Abs(v.atm.value) >= 0.05 && !v.dryRun && v.order.Ok()
  }

  /** What one tick does. Anything but an anchor move or a fill leaves the state as it was. */
  ghost predicate Ticked(t: Tunables, units: int, v: View, now: real, a: Anchors, a': Anchors, o: Outcome)
    requires units >= 1
  {
    && (o == Anchored <==> v.quote.Some? && a.f == None)
    && (o == Advanced <==> Reaches(t, a, v, now) && !Drifts(t, a, Delta(v, units)))
    && (o.Filled? <==> Reaches(t, a, v, now) && Drifts(t, a, Delta(v, units)) && Orders(v))
    && match o
       case Held => a' == a
       case Anchored => a' == a.(f := v.quote)
       case Advanced => a' == a.(f := v.quote, delta := Some(Delta(v, units)))
       case Filled(lots, total, projected) =>
         && a' == Anchors(v.quote, Some(projected), a.hedges + 1, Some(now))
         && total == Delta(v, units) && lots == LotsToZero(total, PerLot(v.atm.value, units), t.maxLots)
         && projected == total + Sale(lots, v.atm.value, units)
  }

  /** Delta added by selling `lots` lots. */
  function Sale(lots: int, unit: real, units: int): real {
    -(lots as real * unit * units as real)
  }

  /** Lots that bring delta nearest to zero, at least one, at most the cap. */
  function LotsToZero(total: real, per: real, maxLots: int): int {
    if per <= 0.0 then 1 else MinInt(MaxInt(1, Round(Ratio(Abs(total), per))), maxLots)
  }

  class FMoveHedge {
    const units: int
    var date: int
    var anchor: Option<real>
    var deltaAnchor: Option<real>
    var hedgesToday: int
    var lastHedgeAt: Option<real>

    ghost predicate Valid() { units >= 1 }

    function State(): Anchors
      reads this
    {
      Anchors(anchor, deltaAnchor, hedgesToday, lastHedgeAt)
    }

    /** The state a tick on `today` starts from: blank on a new date. */
    function StateOn(today: int): Anchors
      reads this
    {
      if date == today then State() else Unanchored
    }

    constructor (units: int, date: int)
      requires units >= 1
      ensures Valid() && this.units == units && this.date == date && State() == Unanchored
    {
      this.units, this.date := units, date;
      anchor, deltaAnchor, hedgesToday, lastHedgeAt := None, None, 0, None;
    }

    method Load(today: int)
      modifies this
      ensures date == today && State() == old(StateOn(today))
    {
      if date != today {
        date := today;
        anchor, deltaAnchor, hedgesToday, lastHedgeAt := None, None, 0, None;
      }
    }

    method Tick(t: Tunables, v: View, today: int, now: real) returns (o: Outcome)
      requires Valid()
      modifies this
      ensures Ticked(t, units, v, now, old(StateOn(today)), StateOn(today), o)
    {
      if v.quote == None {
        return Held;
      }
      Load(today);
      var f := v.quote.value;
      if anchor == None {
        anchor := v.quote;
        return Anchored;
      }
      if v.frozen {
        return Held;
      }
      if t.maxPerDay > 0 && hedgesToday >= t.maxPerDay {
        return Held;
      }
      if t.cooldownMin > 0 && lastHedgeAt.Some? && now - lastHedgeAt.value < t.cooldownMin as real {
        return Held;
      }
      if Abs(f - anchor.value) < t.trigger || !v.expiryOk {
        return Held;
      }
      var total, priced := PortfolioDelta(v.futures, Resolved(v.legs, f), units);
      if !priced {
        return Held;
      }
      o := Hedge(t, v, now, total);
    }

    /** The part of the tick past the trigger. */
    method Hedge(t: Tunables, v: View, now: real, total: real) returns (o: Outcome)
      requires Valid() && Reaches(t, State(), v, now) && total == Delta(v, units)
      modifies this
      ensures date == old(date) && Ticked(t, units, v, now, old(State()), State(), o)
    {
      if Abs(total) < t.minDelta {
        anchor, deltaAnchor := v.quote, Some(total);
        return Advanced;
      }
      var previous := if deltaAnchor.Some? then deltaAnchor.value else 0.0;
      if Abs(total) <= Abs(previous) {
        anchor, deltaAnchor := v.quote, Some(total);
        return Advanced;
      }
      if v.atm == None || Abs(v.atm.value) < 0.05 {
        return Held;
      }
      var lots := LotsToZero(total, PerLot(v.atm.value, units), t.maxLots);
      var projected := total + Sale(lots, v.atm.value, units);
      if v.dryRun || !v.order.Ok() {
        return Held;
      }
      anchor, deltaAnchor, hedgesToday, lastHedgeAt := v.quote, Some(projected), hedgesToday + 1, Some(now);
      o := Filled(lots, total, projected);
    }
  }

  // ---- Sizing ----

  /** How many lots a delta amounts to. */
  function Ratio(x: real, per: real): real
    requires per > 0.0
  {
    x / per
  }

  lemma RatioVs(x: real, per: real, k: real)
    requires per > 0.0
    ensures Ratio(x, per) >= k <==> x >= k * per
    ensures Ratio(x, per) <= k <==> x <= k * per
  {
  }

  lemma RatioVsLots(x: real, per: real, n: int)
    requires per > 0.0
    ensures Ratio(x, per) >= n as real <==> x >= Moved(n, per)
  {
  }

  /** The uncapped lot count: at least one, and the nearest whole number once half a lot is due. */
  function Wanted(total: real, per: real): int
    requires per > 0.0
  {
    MaxInt(1, Round(Ratio(Abs(total), per)))
  }

  lemma GapScales(x: real, n: int, per: real)
    requires per > 0.0 && Abs(n as real - Ratio(x, per)) <= 0.5
    ensures Abs(x - Moved(n, per)) <= per / 2.0
  {
    var q, m := Ratio(x, per), n as real;
    RatioVs(x, per, m + 0.5);
    RatioVs(x, per, m - 0.5);
    assert (m + 0.5) * per == m * per + per / 2.0;
    assert (m - 0.5) * per == m * per - per / 2.0;
  }

  lemma WantedNearest(total: real, per: real)
    requires per > 0.0 && 2.0 * Abs(total) >= per
    ensures Abs(Abs(total) - Moved(Wanted(total, per), per)) <= per / 2.0
  {
    RatioVs(Abs(total), per, 0.5);
    RoundIsNearest(Ratio(Abs(total), per), 1);
    GapScales(Abs(total), Wanted(total, per), per);
  }

  /** Fewer lots move delta less. */
  lemma MovedGrows(n: int, m: int, per: real)
    requires n <= m && per > 0.0
    ensures Moved(n, per) <= Moved(m, per)
  {
  }

  lemma MovedSteps(n: int, per: real)
    ensures Moved(n + 1, per) == Moved(n, per) + per && Moved(1, per) == per
  {
  }

  /** A sale of the option on the book's own side pushes delta toward zero by that many lots. */
  lemma SaleIsPush(total: real, n: int, unit: real, units: int)
    requires total != 0.0 && SameSide(total, unit) && units >= 1
    ensures Sale(n, unit, units) == Push(total, n, PerLot(unit, units))
  {
  }

  /** How the order lands: within the cap; within half a lot of flat when at least half a lot
      was due and the cap allowed it; still on its old side, or flat, when the cap bound. */
  ghost predicate Sized(total: real, per: real, maxLots: int, lots: int, projected: real) {
    && 1 <= lots <= maxLots
    && Abs(projected) == Abs(Abs(total) - Moved(lots, per))
    && (CapAllows(total, per, maxLots) && 2.0 * Abs(total) >= per ==> Abs(projected) <= per / 2.0)
    && (Moved(maxLots, per) <= Abs(total) ==> lots == maxLots && (if total > 0.0 then projected >= 0.0 else projected <= 0.0))
  }

  predicate CapAllows(total: real, per: real, maxLots: int) {
    per > 0.0 && Wanted(total, per) <= maxLots
  }

  lemma SizeLands(total: real, unit: real, units: int, maxLots: int)
    requires total != 0.0 && SameSide(total, unit) && units >= 1 && maxLots >= 1
    ensures var per := PerLot(unit, units);
            var lots := LotsToZero(total, per, maxLots);
            Sized(total, per, maxLots, lots, total + Sale(lots, unit, units))
  {
    var per := PerLot(unit, units);
    PerLotPositive(unit, units);
    var lots := LotsToZero(total, per, maxLots);
    SaleIsPush(total, lots, unit, units);
    PushSized(total, per, maxLots, lots);
  }

  lemma PushSized(total: real, per: real, maxLots: int, lots: int)
    requires total != 0.0 && per > 0.0 && maxLots >= 1 && lots == LotsToZero(total, per, maxLots)
    ensures Sized(total, per, maxLots, lots, total + Push(total, lots, per))
  {
    if 2.0 * Abs(total) >= per {
      WantedNearest(total, per);
    }
    if Moved(maxLots, per) <= Abs(total) {
      CapBinds(total, per, maxLots);
    }
  }

  lemma CapBinds(total: real, per: real, maxLots: int)
    requires per > 0.0 && maxLots >= 1 && Moved(maxLots, per) <= Abs(total)
    ensures LotsToZero(total, per, maxLots) == maxLots
  {
    RatioVsLots(Abs(total), per, maxLots);
    RoundMonotone(maxLots as real, Ratio(Abs(total), per));
  }

  /** An order leaves the book closer to flat exactly when more than half a lot was due. */
  lemma ImprovesWhen(total: real, unit: real, units: int, maxLots: int)
    requires total != 0.0 && SameSide(total, unit) && units >= 1 && maxLots >= 1
    ensures var per := PerLot(unit, units);
            var projected := total + Sale(LotsToZero(total, per, maxLots), unit, units);
            && (Abs(projected) < Abs(total) <==> 2.0 * Abs(total) > per)
            && (Abs(projected) <= Abs(total) <==> 2.0 * Abs(total) >= per)
  {
    var per := PerLot(unit, units);
    PerLotPositive(unit, units);
    var lots := LotsToZero(total, per, maxLots);
    SizeLands(total, unit, units, maxLots);
    MovedGrows(1, lots, per);
    MovedSteps(1, per);
    if lots > 1 {
      MovedGrows(2, lots, per);
      MoreThanOneLot(total, per);
      WantedNearest(total, per);
      MovedGrows(lots, Wanted(total, per), per);
    }
  }

  lemma MoreThanOneLot(total: real, per: real)
    requires per > 0.0 && Wanted(total, per) > 1
    ensures Abs(total) >= per + per / 2.0
  {
    RatioVs(Abs(total), per, 1.5);
  }

  /** When the smallest delta hedged is half of what a lot can carry, as both engines default
      to, no fill ever leaves the book further from flat. */
  lemma FillNeverWorsens(t: Tunables, units: int, v: View, now: real, a: Anchors, a': Anchors, o: Outcome)
    requires units >= 1 && t.maxLots >= 1 && Ticked(t, units, v, now, a, a', o) && o.Filled?
    requires 2.0 * t.minDelta >= units as real
    requires SameSide(o.total, v.atm.value) && Abs(v.atm.value) <= 1.0
    ensures Abs(o.projected) <= Abs(o.total)
    ensures Abs(v.atm.value) < 1.0 ==> Abs(o.projected) < Abs(o.total)
  {
    PerLotWithin(v.atm.value, units);
    ImprovesWhen(o.total, v.atm.value, units, t.maxLots);
  }

  /** After a fill the delta anchor is the projected delta, not the one seen: always another value,
      and some delta at the next tick is judged otherwise exactly unless the order carries twice
      the delta seen. */
  lemma AnchorIsProjected(t: Tunables, units: int, v: View, now: real, a: Anchors, a': Anchors, o: Outcome)
    requires units >= 1 && t.maxLots >= 1 && Ticked(t, units, v, now, a, a', o) && o.Filled?
    requires SameSide(o.total, v.atm.value)
    ensures a'.delta == Some(o.projected) && o.projected != o.total
    ensures (exists next :: Drifts(t, a', next) != Drifts(t, a'.(delta := Some(o.total)), next))
            <==> Moved(o.lots, PerLot(v.atm.value, units)) != 2.0 * Abs(o.total)
  {
    var per := PerLot(v.atm.value, units);
    PerLotPositive(v.atm.value, units);
    SizeLands(o.total, v.atm.value, units, t.maxLots);
    SaleIsPush(o.total, o.lots, v.atm.value, units);
    MovedGrows(1, o.lots, per);
    MovedSteps(1, per);
    if Abs(o.projected) != Abs(o.total) {
      var next := Max(Abs(o.projected), Abs(o.total));
      assert Drifts(t, a', next) != Drifts(t, a'.(delta := Some(o.total)), next);
    }
  }

  lemma PerLotWithin(unit: real, units: int)
    requires Abs(unit) <= 1.0 && units >= 1
    ensures PerLot(unit, units) <= units as real
    ensures Abs(unit) < 1.0 ==> PerLot(unit, units) < units as real
  {
  }

  /** The order for this delta trades more than the book holds, flipping its sign. */
  predicate Overshoots(size: real, minDelta: real, per: real, maxLots: int) {
    size >= minDelta && size > 0.0 && Moved(LotsToZero(size, per, maxLots), per) > size
  }

  /** The minimum delta rules out an order that overshoots only when it is at least what the
      capped order moves; half a lot, the default, does not. */
  lemma OvershootsWhen(minDelta: real, per: real, maxLots: int)
    requires per > 0.0 && maxLots >= 1
    ensures (exists size: real :: Overshoots(size, minDelta, per, maxLots)) <==> minDelta < Moved(maxLots, per)
  {
    if minDelta < Moved(maxLots, per) {
      NearlyCapped(minDelta, per, maxLots);
    } else {
      forall size | size >= minDelta && size > 0.0
        ensures !Overshoots(size, minDelta, per, maxLots)
      {
        CapBinds(size, per, maxLots);
      }
    }
  }

  lemma NearlyCapped(minDelta: real, per: real, maxLots: int)
    requires per > 0.0 && maxLots >= 1 && minDelta < Moved(maxLots, per)
    ensures exists size: real :: Overshoots(size, minDelta, per, maxLots)
  {
    var whole := Moved(maxLots, per);
    var size := Max(minDelta, whole - per / 4.0);
    MovedGrows(1, maxLots, per);
    MovedSteps(1, per);
    assert (maxLots as real - 0.25) * per == whole - per / 4.0;
    RatioVs(size, per, maxLots as real - 0.25);
    RatioVsLots(size, per, maxLots);
    assert Ratio(size, per).Floor == maxLots - 1;
    assert Overshoots(size, minDelta, per, maxLots);
  }

  // ---- A day of ticks ----

  datatype Minute = Minute(v: View, now: real, before: Anchors, after: Anchors, outcome: Outcome)

  ghost predicate Happened(t: Tunables, units: int, m: Minute)
    requires units >= 1
  {
    Ticked(t, units, m.v, m.now, m.before, m.after, m.outcome)
  }

  /** A day's ticks under fixed thresholds, from a blank state. */
  ghost predicate Day(t: Tunables, units: int, day: seq<Minute>)
    requires units >= 1
  {
    && (day != [] ==> day[0].before == Unanchored)
    && (forall i :: 0 <= i < |day| ==> Happened(t, units, day[i]))
    && (forall i :: 0 < i < |day| ==> day[i].before == day[i - 1].after && day[i - 1].now <= day[i].now)
  }

  function Fills(day: seq<Minute>): nat {
    if day == [] then 0 else Fills(day[..|day| - 1]) + (if day[|day| - 1].outcome.Filled? then 1 else 0)
  }

  function Last(day: seq<Minute>): Anchors {
    if day == [] then Unanchored else day[|day| - 1].after
  }

  lemma Shorter(t: Tunables, units: int, day: seq<Minute>)
    requires units >= 1 && Day(t, units, day) && day != []
    ensures Day(t, units, day[..|day| - 1])
    ensures Last(day[..|day| - 1]) == day[|day| - 1].before
    ensures Happened(t, units, day[|day| - 1])
  {
  }

  /** The counter in the state file is the number of fills, and a positive cap bounds it. */
  lemma {:induction false} FillsCapped(t: Tunables, units: int, day: seq<Minute>)
    requires units >= 1 && Day(t, units, day)
    ensures Last(day).hedges == Fills(day)
    ensures t.maxPerDay > 0 ==> Fills(day) <= t.maxPerDay
  {
    if day != [] {
      Shorter(t, units, day);
      FillsCapped(t, units, day[..|day| - 1]);
    }
  }

  lemma {:induction false} LastFillRemembered(t: Tunables, units: int, day: seq<Minute>, i: nat)
    requires units >= 1 && Day(t, units, day) && i < |day| && day[i].outcome.Filled?
    ensures Last(day).last.Some? && day[i].now <= Last(day).last.value
  {
    Shorter(t, units, day);
    var m := day[|day| - 1];
    if i < |day| - 1 {
      LastFillRemembered(t, units, day[..|day| - 1], i);
      TimesGrow(t, units, day, i);
    }
  }

  lemma {:induction false} TimesGrow(t: Tunables, units: int, day: seq<Minute>, i: nat)
    requires units >= 1 && Day(t, units, day) && i < |day|
    ensures day[i].now <= day[|day| - 1].now
    decreases |day| - i
  {
    if i < |day| - 1 {
      TimesGrow(t, units, day, i + 1);
      assert day[i + 1 - 1].now <= day[i + 1].now;
    }
  }

  /** Any two fills of a day are at least the cooldown apart. */
  lemma FillsSpaced(t: Tunables, units: int, day: seq<Minute>, i: nat, j: nat)
    requires units >= 1 && Day(t, units, day) && i < j < |day|
    requires day[i].outcome.Filled? && day[j].outcome.Filled? && t.cooldownMin > 0
    ensures day[j].now - day[i].now >= t.cooldownMin as real
  {
    var upto := day[..j];
    assert forall k :: 0 <= k < |upto| ==> upto[k] == day[k];
    assert Day(t, units, upto);
    LastFillRemembered(t, units, upto, i);
    assert day[j].before == day[j - 1].after;
    assert Happened(t, units, day[j]);
  }

  // ---- Price travel ----

  /** The last futures price a day's ticks saw. */
  function LastSeen(day: seq<Minute>): Option<real> {
    if day == [] then None
    else if day[|day| - 1].v.quote.Some? then day[|day| - 1].v.quote
    else LastSeen(day[..|day| - 1])
  }

  function Step(from: Option<real>, to: Option<real>): real {
    if from.Some? && to.Some? then Abs(to.value - from.value) else 0.0
  }

  /** How far the futures price has travelled, tick by tick, over a day. */
  function Travel(day: seq<Minute>): real {
    if day == [] then 0.0
    else Travel(day[..|day| - 1]) + Step(LastSeen(day[..|day| - 1]), day[|day| - 1].v.quote)
  }

  function Moves(day: seq<Minute>): nat {
    if day == [] then 0
    else Moves(day[..|day| - 1]) + (if day[|day| - 1].outcome.Filled? || day[|day| - 1].outcome.Advanced? then 1 else 0)
  }

  /** Every anchor move is paid for by price travel, and what is left of the travel covers the
      distance to the anchor. */
  lemma {:induction false} TravelCovers(t: Tunables, units: int, day: seq<Minute>)
    requires units >= 1 && Day(t, units, day)
    ensures Last(day).f.Some? <==> LastSeen(day).Some?
    ensures Moved(Moves(day), t.trigger) + Step(Last(day).f, LastSeen(day)) <= Travel(day)
  {
    if day == [] {
      assert Moved(0, t.trigger) == 0.0;
    } else {
      Shorter(t, units, day);
      TravelCovers(t, units, day[..|day| - 1]);
      MovedSteps(Moves(day[..|day| - 1]), t.trigger);
    }
  }

  lemma {:induction false} FillsAreMoves(day: seq<Minute>)
    ensures Fills(day) <= Moves(day)
  {
    if day != [] { FillsAreMoves(day[..|day| - 1]); }
  }

  /** Over a whole day the futures price travels at least the trigger for every fill. */
  lemma FillsNeedTravel(t: Tunables, units: int, day: seq<Minute>)
    requires units >= 1 && Day(t, units, day) && t.trigger > 0.0
    ensures Moved(Fills(day), t.trigger) <= Travel(day)
  {
    TravelCovers(t, units, day);
    FillsAreMoves(day);
    MovedGrows(Fills(day), Moves(day), t.trigger);
  }

  /** A day of ticks of a fresh machine, logged. */
  method RunDay(h: FMoveHedge, t: Tunables, today: int, views: seq<View>, times: seq<real>) returns (day: seq<Minute>)
    requires h.Valid() && h.StateOn(today) == Unanchored && |times| == |views|
    requires forall i :: 0 < i < |times| ==> times[i - 1] <= times[i]
    modifies h
    ensures |day| == |views| && Day(t, h.units, day) && h.StateOn(today) == Last(day)
    ensures t.maxPerDay > 0 ==> Fills(day) <= t.maxPerDay
    ensures t.trigger > 0.0 ==> Moved(Fills(day), t.trigger) <= Travel(day)
  {
    day := [];
    for i := 0 to |views|
      invariant |day| == i && Day(t, h.units, day) && h.StateOn(today) == Last(day)
      invariant i > 0 ==> day[i - 1].now == times[i - 1]
    {
      var before := h.StateOn(today);
      var o := h.Tick(t, views[i], today, times[i]);
      var m := Minute(views[i], times[i], before, h.StateOn(today), o);
      assert Happened(t, h.units, m);
      day := day + [m];
    }
    FillsCapped(t, h.units, day);
    if t.trigger > 0.0 {
      FillsNeedTravel(t, h.units, day);
    }
  }
}
