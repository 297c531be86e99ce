/** Wilder's average directional index (app/adx.py). */
module Adx {
  import opened Nums

  datatype Candle = Candle(high: real, low: real, close: real) {
    predicate Sane() { low <= close <= high }
  }

  /** True range and directional movements from one candle to the next; also their running sums. */
  datatype Move = Move(tr: real, plus: real, minus: real)

  function Range(span: real, above: real, below: real): real {
    Max(Max(span, Abs(above)), Abs(below))
  }

  /** A movement counts when it is upward and beats the opposite one. */
  function Directional(x: real, other: real): real {
    if x > other && x > 0.0 then x else 0.0
  }

  function MoveOf(prev: Candle, c: Candle): Move {
    var up, down := c.high - prev.high, prev.low - c.low;
    Move(Range(c.high - c.low, c.high - prev.close, c.low - prev.close), Directional(up, down), Directional(down, up))
  }

  function Moves(candles: seq<Candle>): seq<Move> {
    if |candles| <= 1 then []
    else Moves(candles[..|candles| - 1]) + [MoveOf(candles[|candles| - 2], candles[|candles| - 1])]
  }

  function Plus(a: Move, b: Move): Move {
    Move(a.tr + b.tr, a.plus + b.plus, a.minus + b.minus)
  }

  function Total(moves: seq<Move>): Move {
    if moves == [] then Move(0.0, 0.0, 0.0) else Plus(Total(moves[..|moves| - 1]), moves[|moves| - 1])
  }

  function Decay(x: real, period: int): real
    requires period >= 1
  {
    x - x / period as real
  }

  function Smooth(s: Move, m: Move, period: int): Move
    requires period >= 1
  {
    Plus(Move(Decay(s.tr, period), Decay(s.plus, period), Decay(s.minus, period)), m)
  }

  /** The running sums after `n` moves: seeded with the first `period`, then decayed. */
  function Smoothed(moves: seq<Move>, period: int, n: int): Move
    requires 1 <= period <= n <= |moves|
  {
    if n == period then Total(moves[..period]) else Smooth(Smoothed(moves, period, n - 1), moves[n - 1], period)
  }

  function Percent(x: real, of: real): real
    requires of != 0.0
  {
    100.0 * x / of
  }

  /** How lopsided two directional values are. */
  function Imbalance(plus: real, minus: real): real {
    if plus + minus == 0.0 then 0.0 else Percent(Abs(plus - minus), plus + minus)
  }

  function Dx(s: Move): real {
    if s.tr == 0.0 then 0.0 else Imbalance(Percent(s.plus, s.tr), Percent(s.minus, s.tr))
  }

  function DxAt(moves: seq<Move>, period: int, k: int): real
    requires 1 <= period && 0 <= k && period + k <= |moves|
  {
    Dx(Smoothed(moves, period, period + k))
  }

  function DxTotal(moves: seq<Move>, period: int, n: int): real
    requires 1 <= period && 0 <= n && period + n <= |moves| + 1
  {
    if n == 0 then 0.0 else DxTotal(moves, period, n - 1) + DxAt(moves, period, n - 1)
  }

  /** One step of the final smoothing. */
  function Averaged(adx: real, dx: real, period: int): real
    requires period >= 1
  {
    (adx * (period - 1) as real + dx) / period as real
  }

  /** The index over the first `n` DX values: their mean, then Wilder's smoothing. */
  function AdxAt(moves: seq<Move>, period: int, n: int): real
    requires 1 <= period <= n && period + n <= |moves| + 1
  {
    if n == period then DxTotal(moves, period, period) / period as real
    else Averaged(AdxAt(moves, period, n - 1), DxAt(moves, period, n - 1), period)
  }

  function AdxOf(candles: seq<Candle>, period: int): Option<real>
    requires period >= 1
  {
    if |candles| < period * 2 + 1 then None
    else
      MovesCount(candles);
      Some(AdxAt(Moves(candles), period, |Moves(candles)| - period + 1))
  }

  lemma {:induction false} MovesCount(candles: seq<Candle>)
    ensures |Moves(candles)| == if |candles| == 0 then 0 else |candles| - 1
  {
    if |candles| > 1 { MovesCount(candles[..|candles| - 1]); }
  }

  /** The value is missing only for too few candles: the second check never fires. */
  method ComputeAdx(candles: seq<Candle>, period: int) returns (adx: Option<real>)
    requires period >= 1
    ensures adx == AdxOf(candles, period)
    ensures adx == None <==> |candles| < period * 2 + 1
  {
    if |candles| < period * 2 + 1 {
      return None;
    }
    MovesCount(candles);
    var moves := ReadMoves(candles);
    var s := SumFirst(moves, period);
    var dxs := [Dx(s)];
    for i := period to |moves|
      invariant s == Smoothed(moves, period, i)
      invariant |dxs| == i - period + 1
      invariant forall k :: 0 <= k < |dxs| ==> dxs[k] == DxAt(moves, period, k)
    {
      s := Smooth(s, moves[i], period);
      dxs := dxs + [Dx(s)];
    }
    assert |dxs| >= period;
    var value := Average(moves, dxs, period);
    adx := Some(value);
  }

  method ReadMoves(candles: seq<Candle>) returns (moves: seq<Move>)
    requires |candles| >= 1
    ensures moves == Moves(candles)
  {
    moves := [];
    for i := 1 to |candles|
      invariant moves == Moves(candles[..i])
    {
      assert candles[..i + 1][..i] == candles[..i];
      moves := moves + [MoveOf(candles[i - 1], candles[i])];
    }
    assert candles[..|candles|] == candles;
  }

  method SumFirst(moves: seq<Move>, n: int) returns (s: Move)
    requires 0 <= n <= |moves|
    ensures s == Total(moves[..n])
  {
    s := Move(0.0, 0.0, 0.0);
    for i := 0 to n
      invariant s == Total(moves[..i])
    {
      assert moves[..i + 1][..i] == moves[..i];
      s := Plus(s, moves[i]);
    }
  }

  method Average(moves: seq<Move>, dxs: seq<real>, period: int) returns (adx: real)
    requires 1 <= period <= |dxs| && period + |dxs| == |moves| + 1
    requires forall k :: 0 <= k < |dxs| ==> dxs[k] == DxAt(moves, period, k)
    ensures adx == AdxAt(moves, period, |dxs|)
  {
    var sum := 0.0;
    for i := 0 to period
      invariant sum == DxTotal(moves, period, i)
    {
      sum := sum + dxs[i];
    }
    adx := sum / period as real;
    for i := period to |dxs|
      invariant adx == AdxAt(moves, period, i)
    {
      adx := Averaged(adx, dxs[i], period);
    }
  }

  // ---- Range ----

  predicate NonNeg(m: Move) {
    m.tr >= 0.0 && m.plus >= 0.0 && m.minus >= 0.0
  }

  /** Directional movement fits in the true range. */
  predicate Contained(m: Move) {
    NonNeg(m) && m.plus + m.minus <= m.tr
  }

  lemma {:induction false} MovesAre(candles: seq<Candle>, i: nat)
    requires i < |Moves(candles)|
    ensures |Moves(candles)| == |candles| - 1 && Moves(candles)[i] == MoveOf(candles[i], candles[i + 1])
  {
    MovesCount(candles);
    var init := candles[..|candles| - 1];
    MovesCount(init);
    if i < |Moves(init)| { MovesAre(init, i); }
  }

  lemma SaneMoveContained(prev: Candle, c: Candle)
    ensures NonNeg(MoveOf(prev, c))
    ensures prev.Sane() && c.Sane() ==> Contained(MoveOf(prev, c))
  {
  }

  lemma SmoothKeeps(s: Move, m: Move, period: int)
    requires period >= 1 && NonNeg(s) && NonNeg(m)
    ensures NonNeg(Smooth(s, m, period))
    ensures Contained(s) && Contained(m) ==> Contained(Smooth(s, m, period))
  {
  }

  lemma {:induction false} TotalKeeps(moves: seq<Move>)
    requires forall i :: 0 <= i < |moves| ==> NonNeg(moves[i])
    ensures NonNeg(Total(moves))
    ensures (forall i :: 0 <= i < |moves| ==> Contained(moves[i])) ==> Contained(Total(moves))
  {
    if moves != [] { TotalKeeps(moves[..|moves| - 1]); }
  }

  /** Each smoothed directional movement, and even their sum, stays within the smoothed true range. */
  lemma {:induction false} SmoothedContained(moves: seq<Move>, period: int, n: int)
    requires 1 <= period <= n <= |moves|
    requires forall i :: 0 <= i < |moves| ==> NonNeg(moves[i])
    ensures NonNeg(Smoothed(moves, period, n))
    ensures (forall i :: 0 <= i < |moves| ==> Contained(moves[i])) ==> Contained(Smoothed(moves, period, n))
  {
    if n == period {
      TotalKeeps(moves[..period]);
    } else {
      SmoothedContained(moves, period, n - 1);
      SmoothKeeps(Smoothed(moves, period, n - 1), moves[n - 1], period);
    }
  }

  // ---- What the index measures ----

  /** The true range is the spread of the bar and the close before it taken together. */
  lemma RangeIs(prev: Candle, c: Candle)
    requires c.low <= c.high
    ensures MoveOf(prev, c).tr == Max(c.high, prev.close) - Min(c.low, prev.close)
  {
  }

  /** A bar moves up or down, by whichever of its high and low went further out, and only outward;
      never both ways. */
  lemma MovesOneWay(prev: Candle, c: Candle)
    ensures var m, up, down := MoveOf(prev, c), c.high - prev.high, prev.low - c.low;
            && (m.plus == up && m.minus == 0.0 <==> (up > 0.0 && up > down) || (up == 0.0 && down <= 0.0))
            && (m.minus == down && m.plus == 0.0 <==> (down > 0.0 && down > up) || (down == 0.0 && up <= 0.0))
            && (m.plus == 0.0 || m.minus == 0.0)
            && (m.plus > 0.0 ==> m.plus == up) && (m.minus > 0.0 ==> m.minus == down)
  {
  }

  /** DX is the share of the directional sums by which one exceeds the other, in percent: none when
      they are level, all of it when one is absent. */
  lemma DxMeans(s: Move)
    requires s.tr > 0.0 && s.plus >= 0.0 && s.minus >= 0.0
    ensures Dx(s) * (s.plus + s.minus) == 100.0 * Abs(s.plus - s.minus)
    ensures s.plus == s.minus ==> Dx(s) == 0.0
    ensures (s.plus > 0.0) != (s.minus > 0.0) ==> Dx(s) == 100.0
  {
    DxCancels(s);
    if s.plus + s.minus > 0.0 { WholeIsHundred(s.plus + s.minus); }
  }

  lemma WholeIsHundred(x: real)
    requires x > 0.0
    ensures Percent(x, x) == 100.0
  {
  }

  function Times3(k: real, m: Move): Move {
    Move(k * m.tr, k * m.plus, k * m.minus)
  }

  predicate Steady(moves: seq<Move>, m: Move) {
    forall i :: 0 <= i < |moves| ==> moves[i] == m
  }

  lemma {:induction false} SteadyTotal(moves: seq<Move>, m: Move)
    requires Steady(moves, m)
    ensures Total(moves) == Times3(|moves| as real, m)
  {
    if moves != [] {
      var n := |moves| - 1;
      SteadyTotal(moves[..n], m);
      Adds3(n as real, m);
    }
  }

  lemma Adds3(k: real, m: Move)
    ensures Plus(Times3(k, m), m) == Times3(k + 1.0, m)
  {
  }

  lemma SteadyStep(period: int, m: Move)
    requires period >= 1
    ensures Smooth(Times3(period as real, m), m, period) == Times3(period as real, m)
  {
    DecayWhole(period, m.tr);
    DecayWhole(period, m.plus);
    DecayWhole(period, m.minus);
  }

  lemma DecayWhole(period: int, x: real)
    requires period >= 1
    ensures Decay(period as real * x, period) + x == period as real * x
  {
    var k := period as real;
    assert k * x / k == x;
  }

  /** Wilder's smoothing forgets exactly as much as a steady market brings: the running sums are
      those of the last `period` bars for good. */
  lemma {:induction false} SteadySmoothed(moves: seq<Move>, m: Move, period: int, n: int)
    requires Steady(moves, m) && 1 <= period <= n <= |moves|
    ensures Smoothed(moves, period, n) == Times3(period as real, m)
  {
    if n == period {
      SteadyTotal(moves[..period], m);
    } else {
      SteadySmoothed(moves, m, period, n - 1);
      SteadyStep(period, m);
    }
  }

  lemma AveragedSame(dx: real, period: int)
    requires period >= 1
    ensures Averaged(dx, dx, period) == dx
  {
    var k := period as real;
    assert dx * (k - 1.0) + dx == dx * k;
  }

  lemma {:induction false} SteadyDxTotal(moves: seq<Move>, m: Move, period: int, n: int, dx: real)
    requires Steady(moves, m) && 1 <= period && 0 <= n && period + n <= |moves| + 1 && dx == Dx(Times3(period as real, m))
    ensures DxTotal(moves, period, n) == dx * n as real
  {
    if n > 0 {
      SteadyDxTotal(moves, m, period, n - 1, dx);
      SteadySmoothed(moves, m, period, period + n - 1);
    }
  }

  /** In a steady market the index is its DX: a hundred when every bar moves the same way. */
  lemma {:induction false} SteadyIndex(moves: seq<Move>, m: Move, period: int, n: int)
    requires Steady(moves, m) && 1 <= period <= n && period + n <= |moves| + 1
    ensures AdxAt(moves, period, n) == Dx(Times3(period as real, m))
  {
    var dx := Dx(Times3(period as real, m));
    if n == period {
      SteadyDxTotal(moves, m, period, period, dx);
      MeanOfSame(dx, period);
    } else {
      SteadyIndex(moves, m, period, n - 1);
      SteadySmoothed(moves, m, period, period + n - 1);
      AveragedSame(dx, period);
    }
  }

  lemma MeanOfSame(x: real, n: int)
    requires n >= 1
    ensures x * n as real / n as real == x
  {
  }

  lemma OneWayIndex(moves: seq<Move>, m: Move, period: int, n: int)
    requires Steady(moves, m) && 1 <= period <= n && period + n <= |moves| + 1
    requires m.tr > 0.0 && m.plus >= 0.0 && m.minus >= 0.0
    ensures (m.plus > 0.0) != (m.minus > 0.0) ==> AdxAt(moves, period, n) == 100.0
    ensures m.plus == m.minus ==> AdxAt(moves, period, n) == 0.0
  {
    SteadyIndex(moves, m, period, n);
    var k := period as real;
    assert k * m.tr > 0.0 && k * m.plus >= 0.0 && k * m.minus >= 0.0;
    assert k * m.plus > 0.0 <==> m.plus > 0.0;
    assert k * m.minus > 0.0 <==> m.minus > 0.0;
    DxMeans(Times3(k, m));
  }

  /** Every candle is the one before it, moved by `d`. */
  predicate Climbs(candles: seq<Candle>, d: real) {
    forall i :: 0 < i < |candles| ==>
      candles[i] == Candle(candles[i - 1].high + d, candles[i - 1].low + d, candles[i - 1].close + d)
  }

  lemma {:induction false} ClimbMoves(candles: seq<Candle>, d: real, i: nat)
    requires Climbs(candles, d) && 0 < i < |candles|
    ensures MoveOf(candles[i - 1], candles[i]) == MoveOf(candles[0], candles[1])
  {
    if i > 1 { ClimbMoves(candles, d, i - 1); }
  }

  /** A market that climbs, or falls, by the same step at every bar has an index of a hundred. */
  lemma StraightTrend(candles: seq<Candle>, d: real, period: int)
    requires period >= 1 && |candles| >= period * 2 + 1 && Climbs(candles, d) && d != 0.0 && candles[0].Sane()
    ensures AdxOf(candles, period) == Some(100.0)
  {
    MovesCount(candles);
    var moves, m := Moves(candles), MoveOf(candles[0], candles[1]);
    forall i | 0 <= i < |moves|
      ensures moves[i] == m
    {
      MovesAre(candles, i);
      ClimbMoves(candles, d, i + 1);
    }
    MovesOneWay(candles[0], candles[1]);
    OneWayIndex(moves, m, period, |moves| - period + 1);
  }

  /** The true range cancels out of DX; it only guards the division. */
  lemma DxCancels(s: Move)
    requires s.tr > 0.0
    ensures Dx(s) == Imbalance(s.plus, s.minus)
  {
  }

  lemma PercentRange(x: real, of: real)
    requires 0.0 <= x <= of && of > 0.0
    ensures 0.0 <= Percent(x, of) <= 100.0
  {
  }

  lemma DxRange(s: Move)
    requires NonNeg(s)
    ensures 0.0 <= Dx(s) <= 100.0
  {
    if s.tr > 0.0 {
      DxCancels(s);
      if s.plus + s.minus != 0.0 { PercentRange(Abs(s.plus - s.minus), s.plus + s.minus); }
    }
  }

  lemma AveragedRange(adx: real, dx: real, period: int)
    requires period >= 1 && 0.0 <= adx <= 100.0 && 0.0 <= dx <= 100.0
    ensures 0.0 <= Averaged(adx, dx, period) <= 100.0
  {
    var k, q := period as real, Averaged(adx, dx, period);
    assert q * k == adx * (k - 1.0) + dx;
    assert adx * (k - 1.0) >= 0.0 && (100.0 - adx) * (k - 1.0) >= 0.0;
    assert (100.0 - q) * k == (100.0 - adx) * (k - 1.0) + (100.0 - dx);
  }

  lemma {:induction false} AdxRange(moves: seq<Move>, period: int, n: int)
    requires 1 <= period <= n && period + n <= |moves| + 1
    requires forall i :: 0 <= i < |moves| ==> NonNeg(moves[i])
    ensures 0.0 <= AdxAt(moves, period, n) <= 100.0
  {
    if n == period {
      DxTotalRange(moves, period, period);
      MeanRange(DxTotal(moves, period, period), period);
    } else {
      AdxRange(moves, period, n - 1);
      SmoothedContained(moves, period, period + n - 1);
      DxRange(Smoothed(moves, period, period + n - 1));
      AveragedRange(AdxAt(moves, period, n - 1), DxAt(moves, period, n - 1), period);
    }
  }

  lemma MeanRange(total: real, n: int)
    requires n >= 1 && 0.0 <= total <= 100.0 * n as real
    ensures 0.0 <= total / n as real <= 100.0
  {
  }

  lemma {:induction false} DxTotalRange(moves: seq<Move>, period: int, n: int)
    requires 1 <= period && 0 <= n && period + n <= |moves| + 1
    requires forall i :: 0 <= i < |moves| ==> NonNeg(moves[i])
    ensures 0.0 <= DxTotal(moves, period, n) <= 100.0 * n as real
  {
    if n > 0 {
      DxTotalRange(moves, period, n - 1);
      SmoothedContained(moves, period, period + n - 1);
      DxRange(Smoothed(moves, period, period + n - 1));
    }
  }

  /** The index is a percentage, whatever the candles hold. */
  lemma AdxIsPercentage(candles: seq<Candle>, period: int)
    requires period >= 1 && |candles| >= period * 2 + 1
    ensures 0.0 <= AdxOf(candles, period).value <= 100.0
  {
    MovesCount(candles);
    var moves := Moves(candles);
    forall i | 0 <= i < |moves|
      ensures NonNeg(moves[i])
    {
      MovesAre(candles, i);
    }
    AdxRange(moves, period, |moves| - period + 1);
  }

  /** On sane candles the directional indices never exceed the true range they are divided by,
      and DX depends on the two directional movements alone. */
  lemma TrueRangeCancels(candles: seq<Candle>, period: int, n: int)
    requires 1 <= period <= n <= |Moves(candles)|
    requires forall i :: 0 <= i < |candles| ==> candles[i].Sane()
    ensures var s := Smoothed(Moves(candles), period, n);
            0.0 <= s.plus <= s.tr && 0.0 <= s.minus <= s.tr && s.plus + s.minus <= s.tr && Dx(s) == Imbalance(s.plus, s.minus)
  {
    var moves := Moves(candles);
    forall i | 0 <= i < |moves|
      ensures Contained(moves[i])
    {
      MovesAre(candles, i);
      SaneMoveContained(candles[i], candles[i + 1]);
    }
    SmoothedContained(moves, period, n);
    var s := Smoothed(moves, period, n);
    if s.tr > 0.0 { DxCancels(s); }
  }

  // ---- Symmetries ----

  /** Prices scaled, shifted, or reflected about a level, high and low changing places. */
  datatype Symmetry = Scaled(c: real) | Shifted(d: real) | Mirrored(level: real) {
    ghost predicate Valid() { Scaled? ==> c > 0.0 }

    function Of(k: Candle): Candle {
      match this
      case Scaled(c) => Candle(c * k.high, c * k.low, c * k.close)
      case Shifted(d) => Candle(k.high + d, k.low + d, k.close + d)
      case Mirrored(level) => Candle(level - k.low, level - k.high, level - k.close)
    }

    function All(candles: seq<Candle>): seq<Candle> {
      seq(|candles|, i requires 0 <= i < |candles| => Of(candles[i]))
    }
  }

  /** `x'` is `x` scaled by `c`. */
  ghost predicate Times(c: real, x: real, x': real) {
    x' == c * x
  }

  lemma TimesDiff(c: real, x: real, y: real, x': real, y': real)
    requires Times(c, x, x') && Times(c, y, y')
    ensures Times(c, x - y, x' - y')
  {
  }

  lemma TimesSign(c: real, x: real, x': real)
    requires c > 0.0 && Times(c, x, x')
    ensures x < 0.0 <==> x' < 0.0
    ensures x > 0.0 <==> x' > 0.0
  {
  }

  lemma TimesAbs(c: real, x: real, x': real)
    requires c > 0.0 && Times(c, x, x')
    ensures Times(c, Abs(x), Abs(x'))
  {
  }

  lemma TimesMax(c: real, x: real, y: real, x': real, y': real)
    requires c > 0.0 && Times(c, x, x') && Times(c, y, y')
    ensures Times(c, Max(x, y), Max(x', y'))
  {
  }

  lemma TimesDirectional(c: real, x: real, y: real, x': real, y': real)
    requires c > 0.0 && Times(c, x, x') && Times(c, y, y')
    ensures Times(c, Directional(x, y), Directional(x', y'))
  {
  }

  lemma TimesRange(c: real, a: real, b: real, d: real, a': real, b': real, d': real)
    requires c > 0.0 && Times(c, a, a') && Times(c, b, b') && Times(c, d, d')
    ensures Times(c, Range(a, b, d), Range(a', b', d'))
  {
    TimesAbs(c, b, b');
    TimesAbs(c, d, d');
    TimesMax(c, a, Abs(b), a', Abs(b'));
    TimesMax(c, Max(a, Abs(b)), Abs(d), Max(a', Abs(b')), Abs(d'));
  }

  ghost predicate TimesCandle(c: real, k: Candle, k': Candle) {
    Times(c, k.high, k'.high) && Times(c, k.low, k'.low) && Times(c, k.close, k'.close)
  }

  ghost predicate TimesMove(c: real, m: Move, m': Move) {
    Times(c, m.tr, m'.tr) && Times(c, m.plus, m'.plus) && Times(c, m.minus, m'.minus)
  }

  lemma MoveScales(c: real, prev: Candle, k: Candle, prev': Candle, k': Candle)
    requires c > 0.0 && TimesCandle(c, prev, prev') && TimesCandle(c, k, k')
    ensures TimesMove(c, MoveOf(prev, k), MoveOf(prev', k'))
  {
    TimesDiff(c, k.high, prev.high, k'.high, prev'.high);
    TimesDiff(c, prev.low, k.low, prev'.low, k'.low);
    TimesDirectional(c, k.high - prev.high, prev.low - k.low, k'.high - prev'.high, prev'.low - k'.low);
    TimesDirectional(c, prev.low - k.low, k.high - prev.high, prev'.low - k'.low, k'.high - prev'.high);
    TimesDiff(c, k.high, k.low, k'.high, k'.low);
    TimesDiff(c, k.high, prev.close, k'.high, prev'.close);
    TimesDiff(c, k.low, prev.close, k'.low, prev'.close);
    TimesRange(c, k.high - k.low, k.high - prev.close, k.low - prev.close,
               k'.high - k'.low, k'.high - prev'.close, k'.low - prev'.close);
  }

  /** What a symmetry does to a move: scales it, leaves it, or swaps the two directions. */
  ghost predicate Maps(g: Symmetry, m: Move, m': Move) {
    match g
    case Scaled(c) => TimesMove(c, m, m')
    case Shifted(_) => m' == m
    case Mirrored(_) => m' == Move(m.tr, m.minus, m.plus)
  }

  lemma MoveShifts(d: real, prev: Candle, k: Candle)
    ensures MoveOf(Shifted(d).Of(prev), Shifted(d).Of(k)) == MoveOf(prev, k)
  {
  }

  lemma MoveMirrors(level: real, prev: Candle, k: Candle)
    ensures var m := MoveOf(prev, k);
            MoveOf(Mirrored(level).Of(prev), Mirrored(level).Of(k)) == Move(m.tr, m.minus, m.plus)
  {
  }

  lemma CandleScales(c: real, k: Candle)
    ensures TimesCandle(c, k, Scaled(c).Of(k))
  {
  }

  lemma MoveMaps(g: Symmetry, prev: Candle, k: Candle, prev': Candle, k': Candle)
    requires g.Valid() && prev' == g.Of(prev) && k' == g.Of(k)
    ensures Maps(g, MoveOf(prev, k), MoveOf(prev', k'))
  {
    match g
    case Scaled(c) =>
      CandleScales(c, prev);
      CandleScales(c, k);
      MoveScales(c, prev, k, prev', k');
    case Shifted(d) => MoveShifts(d, prev, k);
    case Mirrored(level) => MoveMirrors(level, prev, k);
  }

  ghost predicate Mapped(g: Symmetry, moves: seq<Move>, moves': seq<Move>) {
    |moves'| == |moves| && forall i :: 0 <= i < |moves| ==> Maps(g, moves[i], moves'[i])
  }

  lemma MovesMap(g: Symmetry, candles: seq<Candle>)
    requires g.Valid()
    ensures Mapped(g, Moves(candles), Moves(g.All(candles)))
  {
    MovesCount(candles);
    MovesCount(g.All(candles));
    forall i | 0 <= i < |Moves(candles)|
      ensures Maps(g, Moves(candles)[i], Moves(g.All(candles))[i])
    {
      MovesAre(candles, i);
      MovesAre(g.All(candles), i);
      MoveMaps(g, candles[i], candles[i + 1], g.All(candles)[i], g.All(candles)[i + 1]);
    }
  }

  lemma TimesPlus(c: real, x: real, y: real, x': real, y': real)
    requires Times(c, x, x') && Times(c, y, y')
    ensures Times(c, x + y, x' + y')
  {
  }

  lemma PlusMaps(g: Symmetry, a: Move, b: Move, a': Move, b': Move)
    requires Maps(g, a, a') && Maps(g, b, b')
    ensures Maps(g, Plus(a, b), Plus(a', b'))
  {
    if g.Scaled? {
      TimesPlus(g.c, a.tr, b.tr, a'.tr, b'.tr);
      TimesPlus(g.c, a.plus, b.plus, a'.plus, b'.plus);
      TimesPlus(g.c, a.minus, b.minus, a'.minus, b'.minus);
    }
  }

  lemma TimesDecay(c: real, x: real, x': real, period: int)
    requires period >= 1 && Times(c, x, x')
    ensures Times(c, Decay(x, period), Decay(x', period))
  {
  }

  lemma SmoothMaps(g: Symmetry, s: Move, m: Move, s': Move, m': Move, period: int)
    requires period >= 1 && Maps(g, s, s') && Maps(g, m, m')
    ensures Maps(g, Smooth(s, m, period), Smooth(s', m', period))
  {
    if g.Scaled? {
      TimesDecay(g.c, s.tr, s'.tr, period);
      TimesDecay(g.c, s.plus, s'.plus, period);
      TimesDecay(g.c, s.minus, s'.minus, period);
    }
    PlusMaps(g, Move(Decay(s.tr, period), Decay(s.plus, period), Decay(s.minus, period)), m,
             Move(Decay(s'.tr, period), Decay(s'.plus, period), Decay(s'.minus, period)), m');
  }

  lemma {:induction false} TotalMaps(g: Symmetry, moves: seq<Move>, moves': seq<Move>)
    requires Mapped(g, moves, moves')
    ensures Maps(g, Total(moves), Total(moves'))
  {
    if moves != [] {
      var n := |moves| - 1;
      TotalMaps(g, moves[..n], moves'[..n]);
      PlusMaps(g, Total(moves[..n]), moves[n], Total(moves'[..n]), moves'[n]);
    }
  }

  lemma {:induction false} SmoothedMaps(g: Symmetry, moves: seq<Move>, moves': seq<Move>, period: int, n: int)
    requires Mapped(g, moves, moves') && 1 <= period <= n <= |moves|
    ensures Maps(g, Smoothed(moves, period, n), Smoothed(moves', period, n))
  {
    if n == period {
      TotalMaps(g, moves[..period], moves'[..period]);
    } else {
      SmoothedMaps(g, moves, moves', period, n - 1);
      SmoothMaps(g, Smoothed(moves, period, n - 1), moves[n - 1], Smoothed(moves', period, n - 1), moves'[n - 1], period);
    }
  }

  lemma ImbalanceMaps(g: Symmetry, s: Move, s': Move)
    requires g.Valid() && Maps(g, s, s')
    ensures Imbalance(s'.plus, s'.minus) == Imbalance(s.plus, s.minus)
  {
  }

  lemma DxMaps(g: Symmetry, s: Move, s': Move)
    requires g.Valid() && Maps(g, s, s') && s.tr >= 0.0
    ensures Dx(s') == Dx(s)
  {
    if g.Scaled? { TimesSign(g.c, s.tr, s'.tr); }
    if s.tr > 0.0 {
      DxCancels(s);
      DxCancels(s');
      ImbalanceMaps(g, s, s');
    }
  }

  lemma DxAtMaps(g: Symmetry, moves: seq<Move>, moves': seq<Move>, period: int, k: int)
    requires g.Valid() && Mapped(g, moves, moves') && 1 <= period && 0 <= k && period + k <= |moves|
    requires forall i :: 0 <= i < |moves| ==> NonNeg(moves[i])
    ensures DxAt(moves', period, k) == DxAt(moves, period, k)
  {
    SmoothedMaps(g, moves, moves', period, period + k);
    SmoothedContained(moves, period, period + k);
    DxMaps(g, Smoothed(moves, period, period + k), Smoothed(moves', period, period + k));
  }

  lemma {:induction false} DxTotalMaps(g: Symmetry, moves: seq<Move>, moves': seq<Move>, period: int, n: int)
    requires g.Valid() && Mapped(g, moves, moves') && 1 <= period && 0 <= n && period + n <= |moves| + 1
    requires forall i :: 0 <= i < |moves| ==> NonNeg(moves[i])
    ensures DxTotal(moves', period, n) == DxTotal(moves, period, n)
  {
    if n > 0 {
      DxTotalMaps(g, moves, moves', period, n - 1);
      DxAtMaps(g, moves, moves', period, n - 1);
    }
  }

  lemma {:induction false} AdxMaps(g: Symmetry, moves: seq<Move>, moves': seq<Move>, period: int, n: int)
    requires g.Valid() && Mapped(g, moves, moves') && 1 <= period <= n && period + n <= |moves| + 1
    requires forall i :: 0 <= i < |moves| ==> NonNeg(moves[i])
    ensures AdxAt(moves', period, n) == AdxAt(moves, period, n)
  {
    if n == period {
      DxTotalMaps(g, moves, moves', period, period);
    } else {
      AdxMaps(g, moves, moves', period, n - 1);
      DxAtMaps(g, moves, moves', period, n - 1);
    }
  }

  /** Scaling, shifting or mirroring every price leaves the index unchanged. */
  lemma AdxUnchanged(g: Symmetry, candles: seq<Candle>, period: int)
    requires g.Valid() && period >= 1
    ensures AdxOf(g.All(candles), period) == AdxOf(candles, period)
  {
    if |candles| >= period * 2 + 1 {
      MovesCount(candles);
      MovesMap(g, candles);
      var moves := Moves(candles);
      forall i | 0 <= i < |moves|
        ensures NonNeg(moves[i])
      {
        MovesAre(candles, i);
      }
      AdxMaps(g, moves, Moves(g.All(candles)), period, |moves| - period + 1);
    }
  }
}
