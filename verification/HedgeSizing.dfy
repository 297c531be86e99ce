/** The arithmetic of the band hedger (app/hedge_core.py): the no-trade band, drift
    classification and lot sizing. Deltas are inputs of known sign. */
module HedgeSizing {
  import opened Nums

  datatype Trend = Unknown | Expanding | Contracting

  datatype BandConfig = BandConfig(
    adverseMult: real, favourableMult: real, escalation: real, lo: real, hi: real)
  {
    ghost predicate Valid() {
      0.0 <= adverseMult <= 1.0 <= favourableMult && escalation >= 0.0
    }
  }

  function DirectionMult(cfg: BandConfig, trend: Trend): real {
    match trend
    case Expanding => cfg.adverseMult
    case Contracting => cfg.favourableMult
    case Unknown => 1.0
  }

  function RawBand(cfg: BandConfig, base: real, sizeMult: real, trend: Trend, hedgesToday: int): real {
    base * sizeMult * DirectionMult(cfg, trend) * EscalationMult(cfg, hedgesToday)
  }

  /** The no-trade band; `sizeMult` is the book-size factor. */
  function Band(cfg: BandConfig, base: real, sizeMult: real, trend: Trend, hedgesToday: int): real {
    Max(cfg.lo, Min(cfg.hi, RawBand(cfg, base, sizeMult, trend, hedgesToday)))
  }

  /** Between its floor and ceiling the band is what it multiplies out to, and beyond them the nearer one. */
  lemma BandIs(cfg: BandConfig, base: real, sizeMult: real, trend: Trend, done: int)
    requires cfg.lo <= cfg.hi
    ensures var raw, band := RawBand(cfg, base, sizeMult, trend, done), Band(cfg, base, sizeMult, trend, done);
            && (raw <= cfg.lo ==> band == cfg.lo) && (raw >= cfg.hi ==> band == cfg.hi)
            && (cfg.lo <= raw <= cfg.hi ==> band == raw)
  {
  }

  lemma MulGrows(a: real, b: real, k: real)
    requires a <= b && k >= 0.0
    ensures a * k <= b * k
  {
  }

  lemma ProductGrows(x: real, x': real, y: real, y': real, z: real, z': real)
    requires 0.0 <= x <= x' && 0.0 <= y <= y' && 0.0 <= z <= z'
    ensures x * y * z <= x' * y' * z'
  {
  }

  function EscalationMult(cfg: BandConfig, hedgesToday: int): real {
    1.0 + cfg.escalation * MaxInt(0, hedgesToday) as real
  }

  lemma EscalationGrows(cfg: BandConfig, done: int, done': int)
    requires cfg.Valid() && done <= done'
    ensures 1.0 <= EscalationMult(cfg, done) <= EscalationMult(cfg, done')
  {
  }

  /** Every hedge done today widens the band by the same share of what it started from. */
  lemma EscalationSteps(cfg: BandConfig, done: int)
    ensures done <= 0 ==> EscalationMult(cfg, done) == 1.0
    ensures done >= 0 ==> EscalationMult(cfg, done + 1) == EscalationMult(cfg, done) + cfg.escalation
  {
  }

  /** Before its floor and ceiling the band is proportional to its base and to the book-size factor, and
      to the multiple of its trend: the adverse one, the favourable one, or none. */
  lemma BandScales(cfg: BandConfig, base: real, size: real, k: real, trend: Trend, done: int)
    ensures RawBand(cfg, k * base, size, trend, done) == k * RawBand(cfg, base, size, trend, done)
    ensures RawBand(cfg, base, k * size, trend, done) == k * RawBand(cfg, base, size, trend, done)
    ensures RawBand(cfg, base, size, Unknown, 0) == base * size
    ensures RawBand(cfg, base, size, Expanding, 0) == cfg.adverseMult * (base * size)
    ensures RawBand(cfg, base, size, Contracting, 0) == cfg.favourableMult * (base * size)
  {
    EscalationSteps(cfg, 0);
    ProductScales(base, size, k, DirectionMult(cfg, trend), EscalationMult(cfg, done));
  }

  lemma ProductScales(base: real, size: real, k: real, d: real, e: real)
    ensures k * base * size * d * e == k * (base * size * d * e)
    ensures base * (k * size) * d * e == k * (base * size * d * e)
  {
  }

  predicate NoWider(a: Trend, b: Trend) {
    a == b || a == Expanding || b == Contracting
  }

  lemma RawOrder(cfg: BandConfig, base: real, size: real, size': real, done: int, done': int, trend: Trend, trend': Trend)
    requires cfg.Valid() && base >= 0.0 && 0.0 <= size <= size' && done <= done' && NoWider(trend, trend')
    ensures RawBand(cfg, base, size, trend, done) <= RawBand(cfg, base, size', trend', done')
  {
    EscalationGrows(cfg, done, done');
    var b, b' := base * size, base * size';
    assert 0.0 <= b <= b' by { MulGrows(0.0, size, base); MulGrows(size, size', base); }
    ProductGrows(b, b', DirectionMult(cfg, trend), DirectionMult(cfg, trend'),
                 EscalationMult(cfg, done), EscalationMult(cfg, done'));
  }

  /** The band never leaves its configured floor and ceiling; it is tightest when the book is
      drifting away and widest when it is coming back; a bigger book and every hedge already
      done today only widen it. */
  lemma BandOrder(cfg: BandConfig, base: real, size: real, size': real, done: int, done': int, trend: Trend, trend': Trend)
    requires cfg.Valid() && base >= 0.0 && 0.0 <= size <= size' && done <= done' && NoWider(trend, trend')
    ensures cfg.lo <= Band(cfg, base, size, trend, done) <= Band(cfg, base, size', trend', done')
    ensures cfg.lo <= cfg.hi ==> Band(cfg, base, size', trend', done') <= cfg.hi
  {
    RawOrder(cfg, base, size, size', done, done', trend, trend');
    ClampGrows(cfg.lo, cfg.hi, RawBand(cfg, base, size, trend, done), RawBand(cfg, base, size', trend', done'));
  }

  lemma ClampGrows(lo: real, hi: real, x: real, x': real)
    requires x <= x'
    ensures Max(lo, Min(hi, x)) <= Max(lo, Min(hi, x'))
  {
  }

  // ---- Drift ----

  /** Python's `history[-samples:]`, where a zero count means the whole list. */
  function LastSamples(history: seq<real>, samples: nat): seq<real> {
    if samples == 0 || samples >= |history| then history else history[|history| - samples..]
  }

  /** The last samples in their order, all of them when there are no more. */
  lemma LastSamplesAre(history: seq<real>, samples: nat)
    requires samples >= 1
    ensures var last := LastSamples(history, samples);
            && |last| == MinInt(samples, |history|) && last == history[|history| - |last|..]
  {
  }

  function DeltaTrend(history: seq<real>, now: real, samples: nat): Trend {
    var deltas := LastSamples(history, samples);
    if |deltas| < 1 then Unknown
    else if Abs(now) > Abs(deltas[0]) then Expanding
    else Contracting
  }

  predicate Rising(s: seq<real>) {
    forall i :: 0 < i < |s| ==> s[i] - s[i - 1] > 0.0
  }

  predicate Falling(s: seq<real>) {
    forall i :: 0 < i < |s| ==> s[i] - s[i - 1] < 0.0
  }

  predicate VelocityConfirms(history: seq<real>, now: real, samples: nat)
    requires samples >= 1
  {
    var series := LastSamples(history, samples) + [now];
    && |series| >= samples + 1
    && (Rising(series) || Falling(series))
    && (series[1] - series[0] > 0.0) == (now > 0.0)
  }

  lemma {:induction false} MonotoneEnds(s: seq<real>, i: nat)
    requires 0 < i < |s|
    ensures Rising(s) ==> s[0] < s[i]
    ensures Falling(s) ==> s[0] > s[i]
  {
    if i > 1 {
      MonotoneEnds(s, i - 1);
      assert Rising(s) ==> s[i] - s[i - 1] > 0.0;
      assert Falling(s) ==> s[i] - s[i - 1] < 0.0;
    } else {
      assert Rising(s) ==> s[1] - s[0] > 0.0;
      assert Falling(s) ==> s[1] - s[0] < 0.0;
    }
  }

  /** A confirmed drift means the delta is expanding, exactly unless the oldest sample is at
      least as far out on the other side of zero. */
  lemma ConfirmedDrift(history: seq<real>, now: real, samples: nat)
    requires samples >= 1 && VelocityConfirms(history, now, samples)
    ensures var oldest := LastSamples(history, samples)[0];
            DeltaTrend(history, now, samples) == Expanding <==> !(if now > 0.0 then oldest <= -now else oldest >= -now)
  {
    var series := LastSamples(history, samples) + [now];
    MonotoneEnds(series, |series| - 1);
    MonotoneEnds(series, 1);
  }

  /** And then it really may be contracting: a drift from -10 through -5 to 1 is confirmed. */
  lemma ConfirmedYetContracting()
    ensures VelocityConfirms([-10.0, -5.0], 1.0, 2) && DeltaTrend([-10.0, -5.0], 1.0, 2) == Contracting
  {
  }

  // ---- Lots ----

  function PerLot(deltaUnit: real, lotMult: int): real {
    Abs(deltaUnit) * lotMult as real
  }

  function LotsFor(excess: real, deltaUnit: real, lotMult: int, cap: int): int {
    if PerLot(deltaUnit, lotMult) <= 0.0 || excess <= 0.0 then 1
    else MaxInt(1, MinInt(cap, Ceil(excess / PerLot(deltaUnit, lotMult))))
  }

  lemma CeilBounds(x: real)
    ensures Ceil(x) as real - 1.0 < x <= Ceil(x) as real
  {
  }

  /** The lots that clear `excess`: between one and the cap, enough when uncapped, and never
      a whole lot more than needed. */
  lemma LotsClear(excess: real, deltaUnit: real, lotMult: int, cap: int)
    requires excess > 0.0 && PerLot(deltaUnit, lotMult) > 0.0 && cap >= 1
    ensures var per, n := PerLot(deltaUnit, lotMult), LotsFor(excess, deltaUnit, lotMult, cap);
            1 <= n <= cap &&
            (n as real - 1.0) * per < excess &&
            (n < cap ==> excess <= n as real * per)
  {
    var per := PerLot(deltaUnit, lotMult);
    var q := excess / per;
    CeilBounds(q);
    assert q * per == excess && q > 0.0;
    var n := LotsFor(excess, deltaUnit, lotMult, cap);
    assert n == MinInt(cap, Ceil(q));
    var m := n as real;
    MulLess(m - 1.0, q, per);
    assert (m - 1.0) * per < excess;
    if n < cap {
      MulGrows(q, m, per);
    }
  }

  lemma MulLess(a: real, b: real, k: real)
    requires a < b && k > 0.0
    ensures a * k < b * k
  {
  }

  /** Delta moved by `n` lots. */
  function Moved(n: int, per: real): real {
    n as real * per
  }

  /** Signed delta added by selling (or, with the opposite option type, buying) `n` lots so
      that the book is pushed toward zero. */
  function Push(total: real, n: int, per: real): real {
    if total > 0.0 then -Moved(n, per) else Moved(n, per)
  }

  /** Where a sizing order of `lots` lots is expected to leave the book: pushed toward zero;
      uncapped, within one lot under the target, measured on the book's old side; still above
      the target only because the cap was hit, and then still on that side. */
  ghost predicate LandsWell(total: real, target: real, per: real, lots: int, cap: int, projected: real) {
    var left := Abs(total) - Moved(lots, per);
    && 1 <= lots <= cap && Abs(projected) == Abs(left)
    && (if total > 0.0 then projected < total else projected > total)
    && (lots < cap ==> target - per < left <= target)
    && (left > target ==> lots == cap && (if total > 0.0 then projected > 0.0 else projected < 0.0))
  }

  /** The delta a hedge aims to leave. */
  function Residual(ratio: real, band: real): real {
    ratio * band
  }

  /** Sizing a breach: with the residual target `ratio * band` at or below the level that
      triggered the hedge there is always something to clear, and the order lands well. */
  lemma HedgeLands(total: real, band: real, trigger: real, ratio: real, deltaUnit: real, lotMult: int, cap: int)
    requires band >= 0.0 && 0.0 <= ratio <= trigger && Abs(total) > trigger * band
    requires PerLot(deltaUnit, lotMult) > 0.0 && cap >= 1
    ensures Abs(total) - Residual(ratio, band) > 0.0
    ensures var per, n := PerLot(deltaUnit, lotMult), LotsFor(Abs(total) - Residual(ratio, band), deltaUnit, lotMult, cap);
            LandsWell(total, Residual(ratio, band), per, n, cap, total + Push(total, n, per))
  {
    var r := Residual(ratio, band);
    assert 0.0 <= r < Abs(total) by { MulGrows(ratio, trigger, band); MulGrows(0.0, ratio, band); }
    var per, n := PerLot(deltaUnit, lotMult), LotsFor(Abs(total) - r, deltaUnit, lotMult, cap);
    LotsClear(Abs(total) - r, deltaUnit, lotMult, cap);
    LandsFrom(total, r, per, n, cap);
  }

  lemma LandsFrom(total: real, r: real, per: real, n: int, cap: int)
    requires Abs(total) > r >= 0.0 && per > 0.0 && 1 <= n <= cap
    requires (n as real - 1.0) * per < Abs(total) - r
    requires n < cap ==> Abs(total) - r <= n as real * per
    ensures LandsWell(total, r, per, n, cap, total + Push(total, n, per))
  {
  }

  /** A book this size triggers a hedge and yet leaves nothing to clear. */
  predicate TriggersForNothing(size: real, band: real, trigger: real, ratio: real) {
    size > trigger * band && size - ratio * band <= 0.0
  }

  /** The lot sizing's branch for a non-positive excess can be reached exactly when the
      residual ratio is above the trigger fraction. */
  lemma NothingToClear(band: real, trigger: real, ratio: real)
    requires band > 0.0 && trigger >= 0.0
    ensures (exists size: real :: TriggersForNothing(size, band, trigger, ratio)) <==> ratio > trigger
  {
    if ratio > trigger {
      MulLess(trigger, ratio, band);
      assert TriggersForNothing(ratio * band, band, trigger, ratio);
    } else {
      MulGrows(ratio, trigger, band);
    }
  }
}
