/** Exponential moving averages and the crossover signal (app/ema_analyzer.py). */
module Ema {
  import opened Nums

  function Sum(values: seq<real>): real {
    if values == [] then 0.0 else Sum(values[..|values| - 1]) + values[|values| - 1]
  }

  function Weight(period: int): real
    requires period >= 1
  {
    2.0 / (period as real + 1.0)
  }

  function Mean(values: seq<real>): real
    requires values != []
  {
    Sum(values) / |values| as real
  }

  /** A value `k` of the way from the average to the new input. */
  function Blend(k: real, value: real, ema: real): real {
    value * k + ema * (1.0 - k)
  }

  /** The average at bar `i`, seeded with the mean of the first `period` values. */
  function At(values: seq<real>, period: int, i: int): real
    requires 1 <= period <= i + 1 <= |values|
  {
    if i == period - 1 then Mean(values[..period])
    else Blend(Weight(period), values[i], At(values, period, i - 1))
  }

  predicate Defined(n: int, period: int, i: int) {
    1 <= period <= n && period - 1 <= i
  }

  function Series(values: seq<real>, period: int): seq<Option<real>> {
    seq(|values|, i requires 0 <= i < |values| =>
      if Defined(|values|, period, i) then Some(At(values, period, i)) else None)
  }

  method EmaSeries(values: seq<real>, period: int) returns (series: seq<Option<real>>)
    ensures series == Series(values, period)
  {
    var n := |values|;
    var out := new Option<real>[n](_ => None);
    if n < period || period <= 0 {
      assert out[..] == Series(values, period);
      return out[..];
    }
    var sum := 0.0;
    for i := 0 to period
      invariant sum == Sum(values[..i])
    {
      assert values[..i + 1][..i] == values[..i];
      sum := sum + values[i];
    }
    var ema := sum / period as real;
    out[period - 1] := Some(ema);
    for i := period to n
      invariant ema == At(values, period, i - 1)
      invariant forall j :: 0 <= j < i ==> out[j] == Series(values, period)[j]
      invariant forall j :: i <= j < n ==> out[j] == None
    {
      ema := Blend(Weight(period), values[i], ema);
      out[i] := Some(ema);
    }
    assert out[..] == Series(values, period);
    series := out[..];
  }

  // ---- Laws of the average ----

  predicate Within(values: seq<real>, lo: real, hi: real) {
    forall j :: 0 <= j < |values| ==> lo <= values[j] <= hi
  }

  lemma WeightRange(period: int)
    requires period >= 1
    ensures 0.0 < Weight(period) <= 1.0
    ensures period > 1 ==> Weight(period) < 1.0
  {
    assert Weight(period) * (period as real + 1.0) == 2.0;
  }

  lemma BlendBetween(k: real, value: real, ema: real, lo: real, hi: real)
    requires 0.0 <= k <= 1.0 && lo <= value <= hi && lo <= ema <= hi
    ensures lo <= Blend(k, value, ema) <= hi
  {
    assert (value - lo) * k >= 0.0 && (ema - lo) * (1.0 - k) >= 0.0;
    assert (hi - value) * k >= 0.0 && (hi - ema) * (1.0 - k) >= 0.0;
    assert Blend(k, value, ema) - lo == (value - lo) * k + (ema - lo) * (1.0 - k);
    assert hi - Blend(k, value, ema) == (hi - value) * k + (hi - ema) * (1.0 - k);
  }

  lemma {:induction false} SumWithin(values: seq<real>, lo: real, hi: real)
    requires Within(values, lo, hi)
    ensures |values| as real * lo <= Sum(values) <= |values| as real * hi
  {
    if values != [] {
      var n := |values| - 1;
      SumWithin(values[..n], lo, hi);
      assert (n as real + 1.0) * lo == n as real * lo + lo && (n as real + 1.0) * hi == n as real * hi + hi;
    }
  }

  lemma MeanWithin(values: seq<real>, lo: real, hi: real)
    requires values != [] && Within(values, lo, hi)
    ensures lo <= Mean(values) <= hi
  {
    SumWithin(values, lo, hi);
    var n, m := |values| as real, Mean(values);
    assert m * n == Sum(values);
    assert (m - lo) * n == Sum(values) - n * lo;
    assert (hi - m) * n == n * hi - Sum(values);
  }

  /** Every defined average lies between the least and the greatest input so far. */
  lemma {:induction false} AverageBetween(values: seq<real>, period: int, i: int, lo: real, hi: real)
    requires 1 <= period <= i + 1 <= |values| && Within(values[..i + 1], lo, hi)
    ensures lo <= At(values, period, i) <= hi
  {
    if i == period - 1 {
      MeanWithin(values[..period], lo, hi);
    } else {
      assert values[..i + 1][i] == values[i];
      assert forall j :: 0 <= j < i ==> values[..i + 1][j] == values[..i][j];
      AverageBetween(values, period, i - 1, lo, hi);
      WeightRange(period);
      BlendBetween(Weight(period), values[i], At(values, period, i - 1), lo, hi);
    }
  }

  lemma {:induction false} AtPrefix(values: seq<real>, period: int, i: int, n: int)
    requires 1 <= period <= i + 1 <= n <= |values|
    ensures At(values[..n], period, i) == At(values, period, i)
  {
    if i == period - 1 {
      assert values[..n][..period] == values[..period];
    } else {
      AtPrefix(values, period, i - 1, n);
    }
  }

  /** Later bars never repaint earlier averages. */
  lemma SeriesPrefix(values: seq<real>, period: int, n: int)
    requires 0 <= n <= |values|
    ensures Series(values[..n], period) == Series(values, period)[..n]
  {
    forall i | 0 <= i < n
      ensures Series(values[..n], period)[i] == Series(values, period)[i]
    {
      if Defined(n, period, i) { AtPrefix(values, period, i, n); }
    }
  }

  lemma {:induction false} RampSum(values: seq<real>, a: real, b: real)
    requires forall i :: 0 <= i < |values| ==> values[i] == a + b * i as real
    ensures 2.0 * Sum(values) == |values| as real * (2.0 * a + b * (|values| - 1) as real)
  {
    if values != [] {
      var n := |values| - 1;
      RampSum(values[..n], a, b);
      RampStep(n as real, a, b);
    }
  }

  lemma RampStep(n: real, a: real, b: real)
    ensures n * (2.0 * a + b * (n - 1.0)) + 2.0 * (a + b * n) == (n + 1.0) * (2.0 * a + b * n)
  {
  }

  /** Where the average of a straight line stands: half of `period` - 1 bars behind. */
  function Behind(a: real, b: real, i: int, period: int): real {
    a + b * (i as real - (period - 1) as real / 2.0)
  }

  lemma LineMean(values: seq<real>, a: real, b: real)
    requires values != [] && forall i :: 0 <= i < |values| ==> values[i] == a + b * i as real
    ensures Mean(values) == Behind(a, b, |values| - 1, |values|)
  {
    RampSum(values, a, b);
    var n, m := |values| as real, Behind(a, b, |values| - 1, |values|);
    assert m * n == Sum(values);
    Divides(Sum(values), n, m);
  }

  lemma LineStep(a: real, b: real, i: int, period: int)
    requires period >= 1
    ensures Blend(Weight(period), a + b * i as real, Behind(a, b, i - 1, period)) == Behind(a, b, i, period)
  {
    var k, p, e := Weight(period), period as real, Behind(a, b, i - 1, period);
    var gap := b * ((p + 1.0) / 2.0);
    assert a + b * i as real - e == gap;
    assert k * (p + 1.0) == 2.0;
    assert k * gap == b * (k * (p + 1.0)) / 2.0;
    assert k * gap == b;
    assert Blend(k, a + b * i as real, e) == e + k * (a + b * i as real - e);
  }

  /** On a straight line of prices the average runs parallel, trailing by half of `period` - 1 bars at
      every bar, as a simple mean does: that is what its weight is for. */
  lemma {:induction false} TrailsALine(values: seq<real>, a: real, b: real, period: int, i: int)
    requires 1 <= period <= i + 1 <= |values|
    requires forall j :: 0 <= j < |values| ==> values[j] == a + b * j as real
    ensures At(values, period, i) == Behind(a, b, i, period)
  {
    if i == period - 1 {
      LineMean(values[..period], a, b);
    } else {
      TrailsALine(values, a, b, period, i - 1);
      LineStep(a, b, i, period);
    }
  }

  /** `x'` is the image of `x` under the affine map. */
  ghost predicate Image(a: real, b: real, x: real, x': real) {
    x' == a * x + b
  }

  ghost predicate Images(a: real, b: real, values: seq<real>, values': seq<real>) {
    |values'| == |values| && forall i :: 0 <= i < |values| ==> Image(a, b, values[i], values'[i])
  }

  lemma BlendImage(a: real, b: real, k: real, value: real, ema: real, value': real, ema': real)
    requires Image(a, b, value, value') && Image(a, b, ema, ema')
    ensures Image(a, b, Blend(k, value, ema), Blend(k, value', ema'))
  {
  }

  lemma {:induction false} SumImage(a: real, b: real, values: seq<real>, values': seq<real>)
    requires Images(a, b, values, values')
    ensures Sum(values') == a * Sum(values) + b * |values| as real
  {
    if values != [] {
      var n := |values| - 1;
      SumImage(a, b, values[..n], values'[..n]);
      assert b * (n as real + 1.0) == b * n as real + b;
      assert a * (Sum(values[..n]) + values[n]) == a * Sum(values[..n]) + a * values[n];
      assert Image(a, b, values[n], values'[n]);
    }
  }

  lemma MeanImage(a: real, b: real, values: seq<real>, values': seq<real>)
    requires values != [] && Images(a, b, values, values')
    ensures Image(a, b, Mean(values), Mean(values'))
  {
    SumImage(a, b, values, values');
    var n, m := |values| as real, Mean(values);
    assert m * n == Sum(values);
    assert (a * m + b) * n == a * (m * n) + b * n;
    Divides(Sum(values'), n, a * m + b);
  }

  lemma Divides(x: real, n: real, q: real)
    requires n != 0.0 && q * n == x
    ensures x / n == q
  {
  }

  /** Averaging commutes with every affine change of price units. */
  lemma {:induction false} AverageImage(a: real, b: real, values: seq<real>, values': seq<real>, period: int, i: int)
    requires Images(a, b, values, values') && 1 <= period <= i + 1 <= |values|
    ensures Image(a, b, At(values, period, i), At(values', period, i))
  {
    if i == period - 1 {
      MeanImage(a, b, values[..period], values'[..period]);
    } else {
      AverageImage(a, b, values, values', period, i - 1);
      BlendImage(a, b, Weight(period), values[i], At(values, period, i - 1), values'[i], At(values', period, i - 1));
    }
  }

  // ---- The signal ----

  datatype Action = Buy | Sell | Wait

  /** `Raised` is the index error of a list that is too short for the bars asked for. */
  datatype Outcome =
    | BadPeriods
    | TooFew
    | Raised
    | WarmUp
    | Signal(action: Action, crossUp: bool, crossDn: bool, slope: real)

  /** Python's list indexing, negative indices counting from the end. */
  function Place(n: int, index: int): int {
    if index < 0 then n + index else index
  }

  function Slope(now: real, ref: real): real {
    if ref == 0.0 then 0.0 else (now - ref) / ref
  }

  function Decide(fNow: real, fPrev: real, sNow: real, sPrev: real, sRef: real, minPct: real): Outcome {
    var up, dn := fPrev <= sPrev && fNow > sNow, fPrev >= sPrev && fNow < sNow;
    var slope := Slope(sNow, sRef);
    Signal(if up && slope >= minPct then Buy else if dn && slope <= -minPct then Sell else Wait, up, dn, slope)
  }

  function SignalOf(closes: seq<real>, fast: int, slow: int, lookback: int, minPct: real): Outcome {
    var n := |closes|;
    var ref := Place(n, -1 - lookback);
    if fast >= slow then BadPeriods
    else if n < slow + lookback + 1 then TooFew
    else if n < 2 || !(0 <= ref < n) then Raised
    else
      var f, s := Series(closes, fast), Series(closes, slow);
      if f[n - 1] == None || f[n - 2] == None || s[n - 1] == None || s[n - 2] == None || s[ref] == None then WarmUp
      else Decide(f[n - 1].value, f[n - 2].value, s[n - 1].value, s[n - 2].value, s[ref].value, minPct)
  }

  method ComputeSignal(closes: seq<real>, fast: int, slow: int, lookback: int, minPct: real) returns (o: Outcome)
    ensures o == SignalOf(closes, fast, slow, lookback, minPct)
  {
    if fast >= slow {
      return BadPeriods;
    }
    var n := |closes|;
    if n < slow + lookback + 1 {
      return TooFew;
    }
    var f := EmaSeries(closes, fast);
    var s := EmaSeries(closes, slow);
    var ref := Place(n, -1 - lookback);
    if n < 2 || !(0 <= ref < n) {
      return Raised;
    }
    if f[n - 1] == None || f[n - 2] == None || s[n - 1] == None || s[n - 2] == None || s[ref] == None {
      return WarmUp;
    }
    o := Decide(f[n - 1].value, f[n - 2].value, s[n - 1].value, s[n - 2].value, s[ref].value, minPct);
  }

  /** Once there are enough candles the averages are all defined, unless the fast period is not
      positive: the warm-up branch is otherwise dead. */
  lemma WarmUpWhen(closes: seq<real>, fast: int, slow: int, lookback: int, minPct: real)
    requires fast < slow && lookback >= 0 && |closes| >= 2 && |closes| >= lookback + 1 && |closes| >= slow + lookback + 1
    ensures SignalOf(closes, fast, slow, lookback, minPct) == WarmUp <==> fast <= 0
    ensures fast >= 1 ==> SignalOf(closes, fast, slow, lookback, minPct).Signal?
  {
  }

  /** A live signal, over its averages. */
  lemma SignalReads(closes: seq<real>, fast: int, slow: int, lookback: int, minPct: real)
    requires 1 <= fast < slow && lookback >= 0 && |closes| >= slow + lookback + 1
    ensures var n := |closes|;
            SignalOf(closes, fast, slow, lookback, minPct) ==
            Decide(At(closes, fast, n - 1), At(closes, fast, n - 2), At(closes, slow, n - 1), At(closes, slow, n - 2),
                   At(closes, slow, n - 1 - lookback), minPct)
  {
  }

  lemma WeightOrder(fast: int, slow: int)
    requires 1 <= fast < slow
    ensures 0.0 < Weight(slow) < Weight(fast) <= 1.0
  {
    WeightRange(fast);
    WeightRange(slow);
    var kf, ks := Weight(fast), Weight(slow);
    assert kf * (fast as real + 1.0) == 2.0 && ks * (slow as real + 1.0) == 2.0;
    assert ks * (slow as real + 1.0) == ks * (fast as real + 1.0) + ks * (slow - fast) as real;
    assert ks * (slow - fast) as real > 0.0;
    assert (kf - ks) * (fast as real + 1.0) > 0.0;
  }

  /** The step behind a cross: the faster average moved past the slower one, so the new value
      lies beyond where the slower one was. */
  lemma CrossStep(kf: real, ks: real, v: real, f: real, s: real)
    requires 0.0 < ks < kf <= 1.0 && f <= s && Blend(kf, v, f) > Blend(ks, v, s)
    ensures v > s && Blend(ks, v, s) < v
  {
    var x, d := v - f, s - f;
    assert Blend(kf, v, f) == f + kf * x;
    assert Blend(ks, v, s) == s + ks * (v - s);
    assert ks * (v - s) == ks * x - ks * d;
    assert (kf - ks) * x > (1.0 - ks) * d;
    assert (1.0 - kf) * d >= 0.0;
    assert (kf - ks) * (x - d) == (kf - ks) * x - (1.0 - ks) * d + (1.0 - kf) * d;
    assert (kf - ks) * (x - d) > 0.0;
    assert x - d > 0.0;
    assert (1.0 - ks) * (v - s) > 0.0;
    assert v - Blend(ks, v, s) == (1.0 - ks) * (v - s);
  }

  lemma BlendMirror(k: real, v: real, e: real)
    ensures Blend(k, -v, -e) == -Blend(k, v, e)
  {
  }

  /** A bullish cross fires only on a bar that closes above both averages of the bar before it
      and above the slow average now; a bearish one only on a bar that closes below them. */
  lemma CrossNeedsBreak(closes: seq<real>, fast: int, slow: int, lookback: int, minPct: real)
    requires 1 <= fast < slow && lookback >= 0 && |closes| >= slow + lookback + 1
    ensures var n, o := |closes|, SignalOf(closes, fast, slow, lookback, minPct);
            var v, fPrev, sPrev, sNow := closes[n - 1], At(closes, fast, n - 2), At(closes, slow, n - 2), At(closes, slow, n - 1);
            && (o.crossUp ==> v > sPrev >= fPrev && v > sNow)
            && (o.crossDn ==> v < sPrev <= fPrev && v < sNow)
            && !(o.crossUp && o.crossDn) && (o.action == Buy ==> o.crossUp) && (o.action == Sell ==> o.crossDn)
  {
    SignalReads(closes, fast, slow, lookback, minPct);
    var n, o := |closes|, SignalOf(closes, fast, slow, lookback, minPct);
    var v, f, s := closes[n - 1], At(closes, fast, n - 2), At(closes, slow, n - 2);
    var kf, ks := Weight(fast), Weight(slow);
    WeightOrder(fast, slow);
    assert At(closes, fast, n - 1) == Blend(kf, v, f) && At(closes, slow, n - 1) == Blend(ks, v, s);
    if o.crossUp {
      CrossStep(kf, ks, v, f, s);
    }
    if o.crossDn {
      BlendMirror(kf, v, f);
      BlendMirror(ks, v, s);
      CrossStep(kf, ks, -v, -f, -s);
    }
  }

  /** Without a reference to compare with, the slope counts as flat. */
  lemma FlatWithoutReference(now: real)
    ensures Slope(now, 0.0) == 0.0
  {
  }

  /** A value and this share of it. */
  function Grown(x: real, share: real): real {
    x + share * x
  }

  lemma SlopeMeans(now: real, ref: real, pct: real)
    requires ref > 0.0
    ensures Slope(now, ref) >= pct <==> now >= Grown(ref, pct)
    ensures Slope(now, ref) <= -pct <==> now <= Grown(ref, -pct)
  {
    var q := (now - ref) / ref;
    assert q * ref == now - ref;
    if q >= pct { assert (q - pct) * ref >= 0.0; } else { assert (pct - q) * ref > 0.0; }
    if q <= -pct { assert (-pct - q) * ref >= 0.0; } else { assert (q + pct) * ref > 0.0; }
  }

  lemma {:induction false} PositiveBounds(values: seq<real>) returns (lo: real, hi: real)
    requires forall i :: 0 <= i < |values| ==> values[i] > 0.0
    ensures lo > 0.0 && Within(values, lo, hi)
  {
    if values == [] {
      lo, hi := 1.0, 1.0;
    } else {
      var last := values[|values| - 1];
      lo, hi := PositiveBounds(values[..|values| - 1]);
      assert forall i :: 0 <= i < |values| - 1 ==> values[i] == values[..|values| - 1][i];
      lo, hi := Min(lo, last), Max(hi, last);
    }
  }

  /** A live signal is to buy exactly when the fast average has come from at or below the slow one to
      above it while the slow one has risen by the given share over the look-back, and to sell in the
      mirror image. */
  lemma ActsWhen(closes: seq<real>, fast: int, slow: int, lookback: int, minPct: real)
    requires 1 <= fast < slow && lookback >= 0 && |closes| >= slow + lookback + 1
    requires forall i :: 0 <= i < |closes| ==> closes[i] > 0.0
    ensures var n, o := |closes|, SignalOf(closes, fast, slow, lookback, minPct);
            var fNow, fPrev, sNow, sPrev := At(closes, fast, n - 1), At(closes, fast, n - 2), At(closes, slow, n - 1), At(closes, slow, n - 2);
            var sRef := At(closes, slow, n - 1 - lookback);
            && sRef > 0.0
            && (o.crossUp <==> fPrev <= sPrev && fNow > sNow) && (o.crossDn <==> fPrev >= sPrev && fNow < sNow)
            && (o.action == Buy <==> fPrev <= sPrev && fNow > sNow && sNow >= Grown(sRef, minPct))
            && (o.action == Sell <==> fPrev >= sPrev && fNow < sNow && sNow <= Grown(sRef, -minPct))
  {
    SignalReads(closes, fast, slow, lookback, minPct);
    var n := |closes|;
    AtPositive(closes, slow, n - 1 - lookback);
    DecidesWhen(At(closes, fast, n - 1), At(closes, fast, n - 2), At(closes, slow, n - 1), At(closes, slow, n - 2),
                At(closes, slow, n - 1 - lookback), minPct);
  }

  lemma AtPositive(values: seq<real>, period: int, i: int)
    requires 1 <= period <= i + 1 <= |values| && forall j :: 0 <= j < |values| ==> values[j] > 0.0
    ensures At(values, period, i) > 0.0
  {
    var lo, hi := PositiveBounds(values[..i + 1]);
    AverageBetween(values, period, i, lo, hi);
  }

  lemma DecidesWhen(fNow: real, fPrev: real, sNow: real, sPrev: real, sRef: real, minPct: real)
    requires sRef > 0.0
    ensures var o := Decide(fNow, fPrev, sNow, sPrev, sRef, minPct);
            && (o.crossUp <==> fPrev <= sPrev && fNow > sNow) && (o.crossDn <==> fPrev >= sPrev && fNow < sNow)
            && (o.action == Buy <==> fPrev <= sPrev && fNow > sNow && sNow >= Grown(sRef, minPct))
            && (o.action == Sell <==> fPrev >= sPrev && fNow < sNow && sNow <= Grown(sRef, -minPct))
  {
    SlopeMeans(sNow, sRef, minPct);
  }

  /** Quoting every price in other units changes neither the action nor the slope. */
  lemma UnitsDoNotMatter(c: real, closes: seq<real>, closes': seq<real>, fast: int, slow: int, lookback: int, minPct: real)
    requires c > 0.0 && Images(c, 0.0, closes, closes')
    requires 1 <= fast < slow && lookback >= 0
    ensures SignalOf(closes', fast, slow, lookback, minPct) == SignalOf(closes, fast, slow, lookback, minPct)
  {
    var n := |closes|;
    if n >= slow + lookback + 1 {
      SignalReads(closes, fast, slow, lookback, minPct);
      SignalReads(closes', fast, slow, lookback, minPct);
      AverageImage(c, 0.0, closes, closes', fast, n - 1);
      AverageImage(c, 0.0, closes, closes', fast, n - 2);
      AverageImage(c, 0.0, closes, closes', slow, n - 1);
      AverageImage(c, 0.0, closes, closes', slow, n - 2);
      AverageImage(c, 0.0, closes, closes', slow, n - 1 - lookback);
      DecideScales(c, minPct,
        At(closes, fast, n - 1), At(closes, fast, n - 2), At(closes, slow, n - 1), At(closes, slow, n - 2),
        At(closes, slow, n - 1 - lookback),
        At(closes', fast, n - 1), At(closes', fast, n - 2), At(closes', slow, n - 1), At(closes', slow, n - 2),
        At(closes', slow, n - 1 - lookback));
    }
  }

  lemma DecideScales(c: real, minPct: real, fNow: real, fPrev: real, sNow: real, sPrev: real, sRef: real,
                     fNow': real, fPrev': real, sNow': real, sPrev': real, sRef': real)
    requires c > 0.0 && Image(c, 0.0, fNow, fNow') && Image(c, 0.0, fPrev, fPrev')
    requires Image(c, 0.0, sNow, sNow') && Image(c, 0.0, sPrev, sPrev') && Image(c, 0.0, sRef, sRef')
    ensures Decide(fNow', fPrev', sNow', sPrev', sRef', minPct) == Decide(fNow, fPrev, sNow, sPrev, sRef, minPct)
  {
  }
}
