/** One evaluation of one book (app/hedge_core.py `process_underlying`): portfolio delta, band,
    circuit breakers, pre-hedge, arbitration, ladder; and what a whole day of evaluations keeps. */
module HedgeEngine {
  import opened Nums
  import opened HedgeSizing
  import opened HedgeOrders

  datatype Result = Hedged | Deferred | Idle

  datatype Spec = Spec(lotUnits: int, cooldownMin: int, maxLots: int, samples: nat, band: BandConfig) {
    ghost predicate Valid() { lotUnits >= 1 && maxLots >= 1 && samples >= 1 && band.lo >= 0.0 }
  }

  datatype Config = Config(
    freezeBypass: real, cooldownBypass: real, reversionSkip: bool, reversionOverride: real, residualRatio: real)

  datatype OptionLeg = OptionLeg(qty: int, unitDelta: Option<real>)

  /** What a tick finds outside: the market-data prerequisites, the legs, the band inputs, the
      order-book vote, the option chosen to sell, and the ladder's rungs. */
  datatype View = View(
    ready: bool, futures: seq<int>, legs: seq<OptionLeg>, base: real, sizeMult: real,
    inFreeze: bool, imbalance: Option<real>, candidate: Option<real>, dryRun: bool, rungs: Rungs)
  {
    /** Calls have positive deltas and puts negative ones. */
    ghost predicate Valid(lotUnits: int) {
      candidate.Some? ==> SignsOk(NetDelta(futures, legs, lotUnits), candidate.value, rungs)
    }

    /** There are priced option legs to hedge. */
    predicate Readable() { ready && legs != [] && AnyPriced(legs) }
  }

  function Units(qty: int, unitDelta: real, lotUnits: int): real {
    qty as real * unitDelta * lotUnits as real
  }

  function FuturesDelta(futures: seq<int>, lotUnits: int): real {
    if futures == [] then 0.0
    else FuturesDelta(futures[..|futures| - 1], lotUnits) + Units(futures[|futures| - 1], 1.0, lotUnits)
  }

  function OptionsDelta(legs: seq<OptionLeg>, lotUnits: int): real {
    if legs == [] then 0.0
    else
      var l := legs[|legs| - 1];
      OptionsDelta(legs[..|legs| - 1], lotUnits)
      + (if l.unitDelta.Some? then Units(l.qty, l.unitDelta.value, lotUnits) else 0.0)
  }

  predicate AnyPriced(legs: seq<OptionLeg>) {
    legs != [] && (AnyPriced(legs[..|legs| - 1]) || legs[|legs| - 1].unitDelta.Some?)
  }

  function NetDelta(futures: seq<int>, legs: seq<OptionLeg>, lotUnits: int): real {
    FuturesDelta(futures, lotUnits) + OptionsDelta(legs, lotUnits)
  }

  // ---- What the portfolio delta means ----

  lemma {:induction false} FuturesAdd(a: seq<int>, b: seq<int>, lotUnits: int)
    ensures FuturesDelta(a + b, lotUnits) == FuturesDelta(a, lotUnits) + FuturesDelta(b, lotUnits)
  {
    if b == [] {
      assert a + b == a;
    } else {
      assert (a + b)[..|a + b| - 1] == a + b[..|b| - 1];
      FuturesAdd(a, b[..|b| - 1], lotUnits);
    }
  }

  lemma {:induction false} OptionsAdd(a: seq<OptionLeg>, b: seq<OptionLeg>, lotUnits: int)
    ensures OptionsDelta(a + b, lotUnits) == OptionsDelta(a, lotUnits) + OptionsDelta(b, lotUnits)
  {
    if b == [] {
      assert a + b == a;
    } else {
      assert (a + b)[..|a + b| - 1] == a + b[..|b| - 1];
      OptionsAdd(a, b[..|b| - 1], lotUnits);
    }
  }

  /** Two books held together have the sum of their deltas, whatever the order of the legs. */
  lemma BooksAdd(futures: seq<int>, futures': seq<int>, legs: seq<OptionLeg>, legs': seq<OptionLeg>, lotUnits: int)
    ensures NetDelta(futures + futures', legs + legs', lotUnits) == NetDelta(futures, legs, lotUnits) + NetDelta(futures', legs', lotUnits)
  {
    FuturesAdd(futures, futures', lotUnits);
    OptionsAdd(legs, legs', lotUnits);
  }

  lemma ProductSign(a: real, b: real, c: real)
    requires c > 0.0
    ensures a * b * c > 0.0 <==> (a > 0.0 && b > 0.0) || (a < 0.0 && b < 0.0)
    ensures a * b * c < 0.0 <==> (a > 0.0 && b < 0.0) || (a < 0.0 && b > 0.0)
  {
    if a > 0.0 && b > 0.0 { assert a * b > 0.0; }
    if a < 0.0 && b < 0.0 { assert a * b > 0.0; }
    if a > 0.0 && b < 0.0 { assert a * b < 0.0; }
    if a < 0.0 && b > 0.0 { assert a * b < 0.0; }
  }

  /** Bought futures raise the delta and sold ones lower it, a unit of the underlying a unit of a
      lot; so do bought and sold calls, and puts the other way, by their own delta. */
  lemma LegMoves(futures: seq<int>, legs: seq<OptionLeg>, qty: int, unit: real, lotUnits: int)
    requires lotUnits >= 1
    ensures var before := NetDelta(futures, legs, lotUnits);
            var with, future := NetDelta(futures, legs + [OptionLeg(qty, Some(unit))], lotUnits), NetDelta(futures + [qty], legs, lotUnits);
            && future == before + (qty * lotUnits) as real
            && (future > before <==> qty > 0) && (future < before <==> qty < 0)
            && (with > before <==> (qty > 0 && unit > 0.0) || (qty < 0 && unit < 0.0))
            && (with < before <==> (qty > 0 && unit < 0.0) || (qty < 0 && unit > 0.0))
            && (unit == 1.0 ==> with == future)
            && NetDelta(futures, legs + [OptionLeg(qty, None)], lotUnits) == before
  {
    assert (legs + [OptionLeg(qty, Some(unit))])[..|legs|] == legs;
    assert (legs + [OptionLeg(qty, None)])[..|legs|] == legs;
    assert (futures + [qty])[..|futures|] == futures;
    ProductSign(qty as real, unit, lotUnits as real);
    ProductSign(qty as real, 1.0, lotUnits as real);
  }

  /** Futures legs count with delta one; an option leg whose delta cannot be solved is skipped. */
  method PortfolioDelta(futures: seq<int>, legs: seq<OptionLeg>, lotUnits: int) returns (total: real, priced: bool)
    ensures total == NetDelta(futures, legs, lotUnits) && priced == AnyPriced(legs)
  {
    total, priced := 0.0, false;
    for i := 0 to |futures|
      invariant total == FuturesDelta(futures[..i], lotUnits)
    {
      assert futures[..i + 1][..i] == futures[..i];
      total := total + Units(futures[i], 1.0, lotUnits);
    }
    assert futures[..|futures|] == futures;
    for i := 0 to |legs|
      invariant total == FuturesDelta(futures, lotUnits) + OptionsDelta(legs[..i], lotUnits)
      invariant priced == AnyPriced(legs[..i])
    {
      assert legs[..i + 1][..i] == legs[..i];
      var l := legs[i];
      if l.unitDelta.Some? {
        total := total + Units(l.qty, l.unitDelta.value, lotUnits);
        priced := true;
      }
    }
    assert legs[..|legs|] == legs;
  }

  /** The day's slice of the state file for one underlying. */
  datatype Book = Book(hedgesToday: int, lastHedgeAt: Option<real>, history: seq<real>, carryover: bool)

  const Blank := Book(0, None, [], false)

  /** What one evaluation reads off the book. */
  datatype Reading = Reading(total: real, trend: Trend, band: real, trigger: real)

  predicate BookVote(v: View, total: real) {
    v.imbalance.Some? && ((total > 0.0 && v.imbalance.value > 0.5) || (total < 0.0 && v.imbalance.value < -0.5))
  }

  /** |delta| is beyond the given multiple of the band. */
  predicate Beyond(total: real, mult: real, band: real) {
    Abs(total) > mult * band
  }

  /** The fraction of the band that triggers a hedge now: all of it, or less when order-book
      pressure or delta velocity confirm the drift. */
  function TriggerFraction(book: bool, velocity: bool, total: real, band: real): real {
    if !Beyond(total, 0.6, band) then 1.0
    else if book && velocity then 0.5
    else if book || velocity then 0.6
    else 1.0
  }

  /** The order book leans the way the book's own delta does, by more than half. */
  predicate Leans(imbalance: Option<real>, total: real) {
    imbalance.Some? && Abs(imbalance.value) > 0.5 && ((total > 0.0 && imbalance.value > 0.0) || (total < 0.0 && imbalance.value < 0.0))
  }

  /** One vote is as good as two: a book is past its trigger exactly when it is past the band, or
      past six tenths of it with a vote that the drift goes on. The half of the band that two votes
      bring the trigger down to is never what decides. */
  lemma PreHedgeWhen(v: View, total: real, velocity: bool, band: real)
    requires band >= 0.0
    ensures Beyond(total, TriggerFraction(BookVote(v, total), velocity, total, band), band)
            <==> Abs(total) > band || (Beyond(total, 0.6, band) && (Leans(v.imbalance, total) || velocity))
  {
  }

  function Read(s: Spec, v: View, history: seq<real>, hedgesToday: int): Reading
    requires s.samples >= 1
  {
    var total := NetDelta(v.futures, v.legs, s.lotUnits);
    var trend := DeltaTrend(history, total, s.samples);
    var band := Band(s.band, v.base, v.sizeMult, trend, hedgesToday);
    Reading(total, trend, band,
            TriggerFraction(BookVote(v, total), VelocityConfirms(history, total, s.samples), total, band))
  }

  predicate CoolingDown(cooldownMin: int, now: real, last: Option<real>) {
    cooldownMin > 0 && last.Some? && now - last.value < cooldownMin as real
  }

  /** The gates: no breaker holds the book, and delta is outside the effective band. */
  predicate Passes(s: Spec, cfg: Config, v: View, now: real, last: Option<real>, k: Reading) {
    && (v.inFreeze ==> Beyond(k.total, cfg.freezeBypass, k.band))
    && (CoolingDown(s.cooldownMin, now, last) ==> Beyond(k.total, cfg.cooldownBypass, k.band))
    && (cfg.reversionSkip && k.trend == Contracting ==> Beyond(k.total, cfg.reversionOverride, k.band))
    && Beyond(k.total, k.trigger, k.band)
  }

  predicate Wants(s: Spec, cfg: Config, v: View, now: real, b: Book)
    requires s.samples >= 1
  {
    v.Readable() && Passes(s, cfg, v, now, b.lastHedgeAt, Read(s, v, b.history, b.hedgesToday))
  }

  function Round1(x: real): real {
    Round(x * 10.0) as real / 10.0
  }

  /** Samples are kept to the nearest tenth. */
  lemma Round1Near(x: real)
    ensures Abs(Round1(x) - x) <= 0.05 && Whole(10.0 * Round1(x))
  {
    RoundIsNearest(x * 10.0, 0);
    IntsAreWhole(Round(x * 10.0));
    assert 10.0 * Round1(x) == Round(x * 10.0) as real;
  }

  /** When a book wants to hedge, with no reference to how the gates are arranged: it can be read, its
      delta is past the band, or past six tenths of it with one vote that the drift goes on, and it is
      past the bypass multiple of every breaker that holds: the freeze, a hedge less than the cooldown
      ago, and a delta that is coming back, if that is heeded. */
  lemma WantsWhen(s: Spec, cfg: Config, v: View, now: real, b: Book)
    requires s.Valid()
    ensures Wants(s, cfg, v, now, b) <==>
              var total := NetDelta(v.futures, v.legs, s.lotUnits);
              var oldest := LastSamples(b.history, s.samples);
              var band := Band(s.band, v.base, v.sizeMult, DeltaTrend(b.history, total, s.samples), b.hedgesToday);
              && v.Readable()
              && (Abs(total) > band || (Beyond(total, 0.6, band) && (Leans(v.imbalance, total) || VelocityConfirms(b.history, total, s.samples))))
              && (v.inFreeze ==> Beyond(total, cfg.freezeBypass, band))
              && (s.cooldownMin > 0 && b.lastHedgeAt.Some? && now < b.lastHedgeAt.value + s.cooldownMin as real ==> Beyond(total, cfg.cooldownBypass, band))
              && (cfg.reversionSkip && oldest != [] && Abs(total) <= Abs(oldest[0]) ==> Beyond(total, cfg.reversionOverride, band))
  {
    PassesWhen(s, cfg, v, now, b, Read(s, v, b.history, b.hedgesToday));
  }

  lemma PassesWhen(s: Spec, cfg: Config, v: View, now: real, b: Book, k: Reading)
    requires s.samples >= 1 && k.band >= 0.0 && k.trend == DeltaTrend(b.history, k.total, s.samples)
    requires k.trigger == TriggerFraction(BookVote(v, k.total), VelocityConfirms(b.history, k.total, s.samples), k.total, k.band)
    ensures Passes(s, cfg, v, now, b.lastHedgeAt, k) <==>
              var oldest := LastSamples(b.history, s.samples);
              && (Abs(k.total) > k.band || (Beyond(k.total, 0.6, k.band) && (Leans(v.imbalance, k.total) || VelocityConfirms(b.history, k.total, s.samples))))
              && (v.inFreeze ==> Beyond(k.total, cfg.freezeBypass, k.band))
              && (s.cooldownMin > 0 && b.lastHedgeAt.Some? && now < b.lastHedgeAt.value + s.cooldownMin as real ==> Beyond(k.total, cfg.cooldownBypass, k.band))
              && (cfg.reversionSkip && oldest != [] && Abs(k.total) <= Abs(oldest[0]) ==> Beyond(k.total, cfg.reversionOverride, k.band))
  {
    PreHedgeWhen(v, k.total, VelocityConfirms(b.history, k.total, s.samples), k.band);
  }

  const HISTORY_MAX := 15

  function Remember(history: seq<real>, total: real): seq<real> {
    LastSamples(history + [Round1(total)], HISTORY_MAX)
  }

  function SizingFor(s: Spec, cfg: Config, k: Reading): Sizing {
    Sizing(k.total, k.band, k.trigger, cfg.residualRatio, s.lotUnits, s.maxLots)
  }

  /** With a residual target of at most half the band, every book that passes the gates breaches
      the level its order is sized from. */
  lemma PassingBreaches(s: Spec, cfg: Config, v: View, now: real, b: Book)
    requires s.Valid() && 0.0 <= cfg.residualRatio <= 0.5 && Wants(s, cfg, v, now, b)
    ensures SizingFor(s, cfg, Read(s, v, b.history, b.hedgesToday)).Breached()
  {
  }

  /** Wanting to hedge and allowed to, with an option to sell and orders not simulated: the ladder is climbed. */
  predicate Climbs(s: Spec, cfg: Config, v: View, now: real, allow: bool, b: Book)
    requires s.samples >= 1
  {
    allow && Wants(s, cfg, v, now, b) && v.candidate.Some? && !v.dryRun
  }

  function ResultOf(s: Spec, cfg: Config, v: View, now: real, allow: bool, b: Book): Result
    requires s.samples >= 1
  {
    if Climbs(s, cfg, v, now, allow, b) && Winner(v.rungs).Some? then Hedged
    else if !allow && Wants(s, cfg, v, now, b) then Deferred
    else Idle
  }

  /** A hedge is counted and timed, a deferral carried over, and a readable delta remembered. */
  function BookNext(s: Spec, v: View, now: real, b: Book, result: Result): Book {
    Book(if result == Hedged then b.hedgesToday + 1 else b.hedgesToday,
         if result == Hedged then Some(now) else b.lastHedgeAt,
         if v.Readable() then Remember(b.history, NetDelta(v.futures, v.legs, s.lotUnits)) else b.history,
         result == Deferred)
  }

  /** What one evaluation does to the book and to the market. It hedges exactly when it climbs the
      ladder and some rung works, and is deferred exactly when it wants to hedge but may not; a
      hedge is counted, timestamped and ends in one well-sized order, and anything else leaves
      count and time alone. */
  ghost predicate Stepped(s: Spec, cfg: Config, v: View, now: real, allow: bool, b: Book, b': Book, result: Result, fills: seq<Fill>)
    requires s.samples >= 1
  {
    && result == ResultOf(s, cfg, v, now, allow, b)
    && b' == BookNext(s, v, now, b, result)
    && if Climbs(s, cfg, v, now, allow, b) then Orders(SizingFor(s, cfg, Read(s, v, b.history, b.hedgesToday)), v, result, fills) else fills == []
  }

  /** The orders of a ladder: the buy-back, exactly when it went through, and after it the order of
      the first rung that worked. */
  ghost predicate Orders(z: Sizing, v: View, result: Result, fills: seq<Fill>) {
    var back := if BuysBack(v.rungs) then [BackFill(z, v.rungs)] else [];
    if result == Hedged then
      && |fills| == |back| + 1 && back <= fills && WellSized(z, fills[|back|])
      && v.candidate.Some? && Genuine(z, v.candidate.value, v.rungs, fills[|back|])
      && Winner(v.rungs) == Some(fills[|back|].kind)
    else
      fills == back
  }

  class HedgeState {
    var hedgesToday: int
    var lastHedgeAt: Option<real>
    var history: seq<real>
    var carryover: bool

    function State(): Book
      reads this
    {
      Book(hedgesToday, lastHedgeAt, history, carryover)
    }

    constructor ()
      ensures State() == Blank
    {
      hedgesToday, lastHedgeAt, history, carryover := 0, None, [], false;
    }

    /** Date rollover: the day starts from a blank slice. */
    method Reset()
      modifies this
      ensures State() == Blank
    {
      hedgesToday, lastHedgeAt, history, carryover := 0, None, [], false;
    }

    /** An evaluation that raised: whatever it had got to stays, its carry-over flag consumed. */
    method Leave(left: Book)
      modifies this
      ensures State() == left.(carryover := false)
    {
      hedgesToday, lastHedgeAt, history, carryover := left.hedgesToday, left.lastHedgeAt, left.history, false;
    }

    /** The breakers, in the order the tick applies them. */
    method Gates(s: Spec, cfg: Config, v: View, now: real, k: Reading) returns (open: bool)
      ensures open == Passes(s, cfg, v, now, lastHedgeAt, k)
    {
      if v.inFreeze && !Beyond(k.total, cfg.freezeBypass, k.band) {
        return false;
      }
      if CoolingDown(s.cooldownMin, now, lastHedgeAt) && !Beyond(k.total, cfg.cooldownBypass, k.band) {
        return false;
      }
      if cfg.reversionSkip && k.trend == Contracting && !Beyond(k.total, cfg.reversionOverride, k.band) {
        return false;
      }
      return Beyond(k.total, k.trigger, k.band);
    }

    /** Read the book against the history so far, then remember this sample. */
    method Sample(s: Spec, v: View) returns (k: Reading)
      requires s.samples >= 1 && v.Readable()
      modifies this`history
      ensures k == Read(s, v, old(history), hedgesToday)
      ensures history == Remember(old(history), NetDelta(v.futures, v.legs, s.lotUnits))
    {
      var total, priced := PortfolioDelta(v.futures, v.legs, s.lotUnits);
      k := Read(s, v, history, hedgesToday);
      history := Remember(history, total);
    }

    method Process(s: Spec, cfg: Config, v: View, now: real, allow: bool) returns (result: Result, fills: seq<Fill>)
      requires s.Valid() && v.Valid(s.lotUnits)
      modifies this
      ensures Stepped(s, cfg, v, now, allow, old(State()), State(), result, fills)
    {
      fills := [];
      carryover := false;
      if !v.ready || v.legs == [] || !AnyPriced(v.legs) {
        return Idle, fills;
      }
      ghost var b := old(State());
      var k := Sample(s, v);
      var pass := Gates(s, cfg, v, now, k);
      assert pass == Wants(s, cfg, v, now, b);
      if !pass {
        return Idle, fills;
      }
      if !allow {
        carryover := true;
        return Deferred, fills;
      }
      if v.candidate == None || v.dryRun {
        return Idle, fills;
      }
      var hedged, projected, orders, held := Ladder(SizingFor(s, cfg, k), v.candidate.value, v.rungs);
      fills := orders;
      if !hedged {
        return Idle, fills;
      }
      hedgesToday := hedgesToday + 1;
      lastHedgeAt := Some(now);
      result := Hedged;
    }
  }

  // ---- A day of evaluations ----

  datatype Moment = Moment(v: View, now: real, allow: bool, before: Book, after: Book, result: Result, fills: seq<Fill>)

  ghost predicate Evaluated(s: Spec, cfg: Config, m: Moment)
    requires s.samples >= 1
  {
    Stepped(s, cfg, m.v, m.now, m.allow, m.before, m.after, m.result, m.fills)
  }

  /** A day's evaluations of one book, in order: each starts from the book the one before left. */
  ghost predicate Chained(s: Spec, cfg: Config, day: seq<Moment>)
    requires s.samples >= 1
  {
    && (forall i :: 0 <= i < |day| ==> Evaluated(s, cfg, day[i]))
    && (forall i :: 0 < i < |day| ==> day[i].before == day[i - 1].after)
  }

  /** The clock does not run backwards. */
  predicate InOrder(day: seq<Moment>) {
    forall i :: 0 < i < |day| ==> day[i - 1].now <= day[i].now
  }

  function HedgeCount(day: seq<Moment>): nat {
    if day == [] then 0 else HedgeCount(day[..|day| - 1]) + (if day[|day| - 1].result == Hedged then 1 else 0)
  }

  function ReadingAt(s: Spec, m: Moment): Reading
    requires s.samples >= 1
  {
    Read(s, m.v, m.before.history, m.before.hedgesToday)
  }

  /** The escalation count a tick sees is the number of hedges before it. */
  lemma {:induction false} CountIsHedges(s: Spec, cfg: Config, day: seq<Moment>, i: nat)
    requires s.samples >= 1 && Chained(s, cfg, day) && i < |day| && day[0].before == Blank
    ensures day[i].before.hedgesToday == HedgeCount(day[..i])
  {
    if i > 0 {
      CountIsHedges(s, cfg, day, i - 1);
      assert day[..i][..i - 1] == day[..i - 1];
      assert Evaluated(s, cfg, day[i - 1]);
    }
  }

  /** The time of the last hedge, and the sample of every tick that could be read. */
  function LastHedge(day: seq<Moment>): Option<real> {
    if day == [] then None
    else if day[|day| - 1].result == Hedged then Some(day[|day| - 1].now)
    else LastHedge(day[..|day| - 1])
  }

  function Samples(s: Spec, day: seq<Moment>): seq<real> {
    if day == [] then []
    else
      var v := day[|day| - 1].v;
      Samples(s, day[..|day| - 1]) + (if v.Readable() then [Round1(NetDelta(v.futures, v.legs, s.lotUnits))] else [])
  }

  /** The book a tick starts from, told from the ticks before it. */
  function BookAfter(s: Spec, day: seq<Moment>): Book {
    Book(HedgeCount(day), LastHedge(day), LastSamples(Samples(s, day), HISTORY_MAX), day != [] && day[|day| - 1].result == Deferred)
  }

  /** Keeping the last fifteen of the last fifteen and one more is keeping the last fifteen of all. */
  lemma KeepsLast(all: seq<real>, x: real)
    ensures LastSamples(LastSamples(all, HISTORY_MAX) + [x], HISTORY_MAX) == LastSamples(all + [x], HISTORY_MAX)
  {
  }

  lemma BookStep(s: Spec, cfg: Config, past: seq<Moment>, m: Moment)
    requires s.samples >= 1 && Evaluated(s, cfg, m) && m.before == BookAfter(s, past)
    ensures m.after == BookAfter(s, past + [m])
  {
    assert (past + [m])[..|past|] == past;
    KeepsLast(Samples(s, past), Round1(NetDelta(m.v.futures, m.v.legs, s.lotUnits)));
    assert Samples(s, past) + [] == Samples(s, past);
  }

  lemma {:induction false} BookOfDay(s: Spec, cfg: Config, day: seq<Moment>, i: nat)
    requires s.samples >= 1 && Chained(s, cfg, day) && i < |day| && day[0].before == Blank
    ensures day[i].before == BookAfter(s, day[..i])
  {
    if i > 0 {
      BookOfDay(s, cfg, day, i - 1);
      BookStep(s, cfg, day[..i - 1], day[i - 1]);
      assert day[..i] == day[..i - 1] + [day[i - 1]];
    }
  }

  /** Over a whole day a tick hedges exactly when it is let, finds an option to sell and a rung that
      works, and wants to, judged by nothing but what it sees and the results and samples of the
      ticks before it. */
  lemma HedgesWhen(s: Spec, cfg: Config, day: seq<Moment>, i: nat)
    requires s.samples >= 1 && Chained(s, cfg, day) && i < |day| && day[0].before == Blank
    ensures var m := day[i];
            m.result == Hedged <==>
              && m.allow && !m.v.dryRun && m.v.candidate.Some? && Winner(m.v.rungs).Some?
              && Wants(s, cfg, m.v, m.now, BookAfter(s, day[..i]))
  {
    BookOfDay(s, cfg, day, i);
    assert Evaluated(s, cfg, day[i]);
  }

  /** The timestamp a tick sees is not older than any hedge before it. */
  lemma {:induction false} LastIsRecent(s: Spec, cfg: Config, day: seq<Moment>, i: nat, j: nat)
    requires s.samples >= 1 && Chained(s, cfg, day) && InOrder(day) && i < j < |day| && day[i].result == Hedged
    ensures day[j].before.lastHedgeAt.Some? && day[i].now <= day[j].before.lastHedgeAt.value
    ensures day[i].now <= day[j].now
  {
    assert Evaluated(s, cfg, day[j - 1]);
    assert day[j - 1].now <= day[j].now;
    if j - 1 > i {
      LastIsRecent(s, cfg, day, i, j - 1);
    }
  }

  /** Over a whole day, two hedges of one book are the cooldown apart unless the later one found
      the book beyond the bypass multiple of its band. */
  lemma HedgesSpaced(s: Spec, cfg: Config, day: seq<Moment>, i: nat, j: nat)
    requires s.samples >= 1 && Chained(s, cfg, day) && InOrder(day) && i < j < |day|
    requires day[i].result == Hedged && day[j].result == Hedged
    ensures var k := ReadingAt(s, day[j]);
            || s.cooldownMin <= 0
            || day[j].now - day[i].now >= s.cooldownMin as real
            || Beyond(k.total, cfg.cooldownBypass, k.band)
  {
    LastIsRecent(s, cfg, day, i, j);
    assert Evaluated(s, cfg, day[j]);
  }

  datatype Input = Input(v: View, now: real, allow: bool)

  method Evaluate(state: HedgeState, s: Spec, cfg: Config, x: Input) returns (m: Moment)
    requires s.Valid() && x.v.Valid(s.lotUnits)
    modifies state
    ensures Evaluated(s, cfg, m) && m.before == old(state.State()) && m.after == state.State()
    ensures m.v == x.v && m.now == x.now && m.allow == x.allow
  {
    var before := state.State();
    var result, fills := state.Process(s, cfg, x.v, x.now, x.allow);
    m := Moment(x.v, x.now, x.allow, before, state.State(), result, fills);
  }

  lemma ChainSnoc(s: Spec, cfg: Config, day: seq<Moment>, m: Moment)
    requires s.samples >= 1 && Chained(s, cfg, day) && InOrder(day) && Evaluated(s, cfg, m)
    requires day != [] ==> m.before == day[|day| - 1].after && day[|day| - 1].now <= m.now
    ensures Chained(s, cfg, day + [m]) && InOrder(day + [m])
  {
    var all := day + [m];
    forall i | 0 <= i < |all|
      ensures Evaluated(s, cfg, all[i])
    {
      assert all[i] == if i < |day| then day[i] else m;
    }
    forall i | 0 < i < |all|
      ensures all[i].before == all[i - 1].after && all[i - 1].now <= all[i].now
    {
      assert all[i - 1] == day[i - 1];
      assert all[i] == if i < |day| then day[i] else m;
    }
  }

  /** A day of evaluations of one book, logged: each starts where the last one ended. */
  method RunDay(state: HedgeState, s: Spec, cfg: Config, inputs: seq<Input>) returns (day: seq<Moment>)
    requires s.Valid() && forall i :: 0 <= i < |inputs| ==> inputs[i].v.Valid(s.lotUnits)
    requires forall i :: 0 < i < |inputs| ==> inputs[i - 1].now <= inputs[i].now
    modifies state
    ensures |day| == |inputs| && Chained(s, cfg, day) && InOrder(day)
    ensures forall i :: 0 <= i < |day| ==> day[i].v == inputs[i].v && day[i].now == inputs[i].now && day[i].allow == inputs[i].allow
    ensures day != [] ==> day[0].before == old(state.State()) && day[|day| - 1].after == state.State()
  {
    day := [];
    for i := 0 to |inputs|
      invariant |day| == i && Chained(s, cfg, day) && InOrder(day)
      invariant forall j :: 0 <= j < i ==> day[j].v == inputs[j].v && day[j].now == inputs[j].now && day[j].allow == inputs[j].allow
      invariant i > 0 ==> day[0].before == old(state.State()) && day[i - 1].after == state.State() && day[i - 1].now == inputs[i - 1].now
      invariant i == 0 ==> state.State() == old(state.State())
    {
      var m := Evaluate(state, s, cfg, inputs[i]);
      ChainSnoc(s, cfg, day, m);
      day := day + [m];
    }
  }
}
