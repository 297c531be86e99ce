/** What an incrementally maintained footprint bar says about the ticks folded into it. */
module FootprintBars {
  import opened Sums
  import opened OrderFlow

  /** The bar after folding `ts`, oldest first, into `b`. */
  function Replay(b: BarV, ts: seq<Touch>): BarV {
    if ts == [] then b else Replay(b, ts[..|ts| - 1]).Apply(ts[|ts| - 1])
  }

  // The simple form: each statistic on its own, computed from the whole tick list.

  function Buys(ts: seq<Touch>): real {
    if ts == [] then 0.0 else Buys(ts[..|ts| - 1]) + ts[|ts| - 1].buy
  }

  function Sells(ts: seq<Touch>): real {
    if ts == [] then 0.0 else Sells(ts[..|ts| - 1]) + ts[|ts| - 1].sell
  }

  /** Signed volume after the first `k` ticks. */
  function DeltaAfter(ts: seq<Touch>, k: nat): real
    requires k <= |ts|
  {
    Buys(ts[..k]) - Sells(ts[..k])
  }

  predicate OnRow(t: Touch, row: int) {
    t.Traded() && t.row == row
  }

  function RowBuys(ts: seq<Touch>, row: int): real {
    if ts == [] then 0.0
    else RowBuys(ts[..|ts| - 1], row) + (if OnRow(ts[|ts| - 1], row) then ts[|ts| - 1].buy else 0.0)
  }

  function RowSells(ts: seq<Touch>, row: int): real {
    if ts == [] then 0.0
    else RowSells(ts[..|ts| - 1], row) + (if OnRow(ts[|ts| - 1], row) then ts[|ts| - 1].sell else 0.0)
  }

  ghost predicate AllValid(ts: seq<Touch>) {
    forall i :: 0 <= i < |ts| ==> ts[i].Valid()
  }

  /** Open, high, low and close are the first, largest, smallest and last price. */
  ghost predicate PricesSummarise(b: BarV, ts: seq<Touch>)
    requires ts != []
  {
    && b.open == ts[0].price && b.close == ts[|ts| - 1].price && b.tickCount == |ts|
    && (forall i :: 0 <= i < |ts| ==> b.low <= ts[i].price <= b.high)
    && (exists i :: 0 <= i < |ts| && ts[i].price == b.high)
    && (exists i :: 0 <= i < |ts| && ts[i].price == b.low)
  }

  /** Totals are sums, and the delta extremes are attained over all prefixes, the empty one included. */
  ghost predicate FlowsSummarise(b: BarV, ts: seq<Touch>) {
    && b.buyQty == Buys(ts) && b.sellQty == Sells(ts) && b.runDelta == b.buyQty - b.sellQty
    && (forall k :: 0 <= k <= |ts| ==> b.minDelta <= DeltaAfter(ts, k) <= b.maxDelta)
    && (exists k :: 0 <= k <= |ts| && DeltaAfter(ts, k) == b.maxDelta)
    && (exists k :: 0 <= k <= |ts| && DeltaAfter(ts, k) == b.minDelta)
  }

  ghost predicate EverOn(ts: seq<Touch>, row: int) {
    exists i :: 0 <= i < |ts| && OnRow(ts[i], row)
  }

  /** A row exists exactly when something traded on it, and holds what traded on it. */
  ghost predicate RowsSummarise(b: BarV, ts: seq<Touch>) {
    && (forall row :: row in b.cells <==> EverOn(ts, row))
    && (forall row :: row in b.cells ==> b.cells[row] == Cell(RowSells(ts, row), RowBuys(ts, row)))
  }

  function Bids(cells: map<int, Cell>): map<int, real> {
    map row | row in cells :: cells[row].bid
  }

  function Asks(cells: map<int, Cell>): map<int, real> {
    map row | row in cells :: cells[row].ask
  }

  /** The rows add up to the bar. */
  ghost predicate CellsAddUp(b: BarV) {
    && SumMap(Asks(b.cells)) == b.buyQty
    && SumMap(Bids(b.cells)) == b.sellQty
    && (forall row :: row in b.cells ==> b.cells[row].bid >= 0.0 && b.cells[row].ask >= 0.0
                                         && b.cells[row].bid + b.cells[row].ask > 0.0)
  }

  /** The insertion order lists every row exactly once. */
  ghost predicate OrderCovers(b: BarV) {
    && (forall row :: row in b.order <==> row in b.cells)
    && (forall i, j :: 0 <= i < j < |b.order| ==> b.order[i] != b.order[j])
  }

  /** What holds of a bar whatever has been folded into it. */
  ghost predicate Balanced(b: BarV) {
    && CellsAddUp(b) && OrderCovers(b)
    && b.runDelta == b.buyQty - b.sellQty
    && b.minDelta <= 0.0 <= b.maxDelta && b.minDelta <= b.runDelta <= b.maxDelta
    && b.low <= b.open <= b.high && b.low <= b.close <= b.high
  }

  lemma OpenBarBalanced(barSeconds: int, rowSize: PosReal, price: real)
    ensures Balanced(OpenBar(barSeconds, rowSize, price))
  {
  }

  lemma ApplyAddsUp(b: BarV, t: Touch)
    requires CellsAddUp(b) && t.Valid()
    ensures CellsAddUp(b.Apply(t))
  {
    if t.Traded() {
      var was := if t.row in b.cells then b.cells[t.row] else Cell(0.0, 0.0);
      assert Asks(b.Apply(t).cells) == Asks(b.cells)[t.row := was.ask + t.buy];
      assert Bids(b.Apply(t).cells) == Bids(b.cells)[t.row := was.bid + t.sell];
      SumMapUpdate(Asks(b.cells), t.row, was.ask + t.buy);
      SumMapUpdate(Bids(b.cells), t.row, was.bid + t.sell);
    }
  }

  lemma ApplyOrderCovers(b: BarV, t: Touch)
    requires OrderCovers(b)
    ensures OrderCovers(b.Apply(t))
  {
  }

  /** Folding one more tick keeps a bar balanced and adds exactly the traded quantity to it. */
  lemma ApplyBalanced(b: BarV, t: Touch)
    requires Balanced(b) && t.Valid()
    ensures Balanced(b.Apply(t))
    ensures b.Apply(t).Volume() == b.Volume() + t.buy + t.sell
  {
    ApplyAddsUp(b, t);
    ApplyOrderCovers(b, t);
  }

  lemma {:induction false} PricesReplayed(b: BarV, ts: seq<Touch>)
    requires ts != [] && b.tickCount == 0
    requires b.open == b.high == b.low == ts[0].price
    ensures PricesSummarise(Replay(b, ts), ts)
  {
    var n := |ts| - 1;
    var init := ts[..n];
    var before, after := Replay(b, init), Replay(b, ts);
    if n == 0 {
      assert before == b;
      assert ts[0].price == after.high == after.low;
    } else {
      PricesReplayed(b, init);
      var hi :| 0 <= hi < n && init[hi].price == before.high;
      var lo :| 0 <= lo < n && init[lo].price == before.low;
      assert ts[hi].price == before.high && ts[lo].price == before.low;
      assert ts[n].price == after.close;
      forall i | 0 <= i < |ts|
        ensures after.low <= ts[i].price <= after.high
      {
        if i < n { assert ts[i] == init[i]; }
      }
    }
  }

  lemma {:induction false} TotalsReplayed(b: BarV, ts: seq<Touch>)
    requires AllValid(ts) && b.buyQty == b.sellQty == b.runDelta == 0.0
    ensures var r := Replay(b, ts);
            r.buyQty == Buys(ts) && r.sellQty == Sells(ts) && r.runDelta == DeltaAfter(ts, |ts|)
  {
    assert ts[..|ts|] == ts;
    if ts != [] {
      var init := ts[..|ts| - 1];
      assert init[..|init|] == init;
      TotalsReplayed(b, init);
    }
  }

  /** `m` is the largest signed volume over all prefixes when `sign` is 1, the smallest when it is -1. */
  ghost predicate Extreme(ts: seq<Touch>, m: real, sign: real) {
    && (forall k :: 0 <= k <= |ts| ==> sign * DeltaAfter(ts, k) <= sign * m)
    && (exists k :: 0 <= k <= |ts| && DeltaAfter(ts, k) == m)
  }

  lemma ExtremeExtended(ts: seq<Touch>, m: real, m': real, sign: real)
    requires ts != [] && (sign == 1.0 || sign == -1.0)
    requires Extreme(ts[..|ts| - 1], m, sign)
    requires m' == if sign * m < sign * DeltaAfter(ts, |ts|) then DeltaAfter(ts, |ts|) else m
    ensures Extreme(ts, m', sign)
  {
    var n := |ts| - 1;
    var init := ts[..n];
    forall k | 0 <= k <= n
      ensures DeltaAfter(ts, k) == DeltaAfter(init, k)
    {
      assert init[..k] == ts[..k];
    }
    var k :| 0 <= k <= n && DeltaAfter(init, k) == m;
    assert DeltaAfter(ts, k) == m;
  }

  lemma {:induction false} FlowsReplayed(b: BarV, ts: seq<Touch>)
    requires AllValid(ts)
    requires b.buyQty == b.sellQty == b.runDelta == b.maxDelta == b.minDelta == 0.0
    ensures FlowsSummarise(Replay(b, ts), ts)
    ensures Extreme(ts, Replay(b, ts).maxDelta, 1.0) && Extreme(ts, Replay(b, ts).minDelta, -1.0)
  {
    TotalsReplayed(b, ts);
    assert ts[..|ts|] == ts;
    if ts == [] {
      assert DeltaAfter(ts, 0) == 0.0;
    } else {
      var n := |ts| - 1;
      var init := ts[..n];
      FlowsReplayed(b, init);
      var before, after := Replay(b, init), Replay(b, ts);
      assert init[..n] == init;
      assert DeltaAfter(init, n) == before.runDelta by { TotalsReplayed(b, init); }
      ExtremeExtended(ts, before.maxDelta, after.maxDelta, 1.0);
      ExtremeExtended(ts, before.minDelta, after.minDelta, -1.0);
    }
  }

  lemma EverOnExtended(ts: seq<Touch>, row: int)
    requires ts != []
    ensures EverOn(ts, row) <==> EverOn(ts[..|ts| - 1], row) || OnRow(ts[|ts| - 1], row)
  {
  }

  lemma {:induction false} RowsReplayed(b: BarV, ts: seq<Touch>)
    requires b.cells == map[]
    ensures RowsSummarise(Replay(b, ts), ts)
    ensures forall row :: row !in Replay(b, ts).cells ==> RowBuys(ts, row) == 0.0 && RowSells(ts, row) == 0.0
  {
    if ts != [] {
      RowsReplayed(b, ts[..|ts| - 1]);
      forall row
        ensures row in Replay(b, ts).cells <==> EverOn(ts, row)
      {
        EverOnExtended(ts, row);
      }
    }
  }

  lemma {:induction false} ReplayBalanced(b: BarV, ts: seq<Touch>)
    requires Balanced(b) && AllValid(ts)
    ensures Balanced(Replay(b, ts))
  {
    if ts != [] {
      ReplayBalanced(b, ts[..|ts| - 1]);
      ApplyBalanced(Replay(b, ts[..|ts| - 1]), ts[|ts| - 1]);
    }
  }

  /** The incremental form agrees with the simple form, on every tick list. */
  lemma BarIsSummary(barSeconds: int, rowSize: PosReal, ts: seq<Touch>)
    requires ts != [] && AllValid(ts)
    ensures var b := Replay(OpenBar(barSeconds, rowSize, ts[0].price), ts);
            PricesSummarise(b, ts) && FlowsSummarise(b, ts) && RowsSummarise(b, ts) && Balanced(b)
  {
    var b := OpenBar(barSeconds, rowSize, ts[0].price);
    OpenBarBalanced(barSeconds, rowSize, ts[0].price);
    PricesReplayed(b, ts);
    FlowsReplayed(b, ts);
    RowsReplayed(b, ts);
    ReplayBalanced(b, ts);
  }
}
