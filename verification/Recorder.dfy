/** The order-flow recorder itself: bars, cells and cursors updated in place under one lock. */
module Recorder {
  import opened Nums
  import opened OrderFlow
  import opened FootprintBars
  import opened Storage
  import opened Sums
  import opened Conservation

  class Bar {
    const barSeconds: int
    const rowSize: PosReal
    const open: real
    var high: real
    var low: real
    var close: real
    var buyQty: real
    var sellQty: real
    var runDelta: real
    var maxDelta: real
    var minDelta: real
    var tickCount: int
    var cells: map<int, Cell>
    var order: seq<int>

    ghost function View(): BarV
      reads this
    {
      BarV(barSeconds, rowSize, open, high, low, close, buyQty, sellQty,
           runDelta, maxDelta, minDelta, tickCount, cells, order)
    }

    constructor (barSeconds: int, rowSize: PosReal, price: real)
      ensures View() == OpenBar(barSeconds, rowSize, price)
    {
      this.barSeconds, this.rowSize, open := barSeconds, rowSize, price;
      high, low, close := price, price, price;
      buyQty, sellQty, runDelta, maxDelta, minDelta := 0.0, 0.0, 0.0, 0.0, 0.0;
      tickCount, cells, order := 0, map[], [];
    }

    /** A print at `ltp`, before any quantity is known. */
    method Mark(ltp: real)
      modifies this
      ensures View() == old(View()).Apply(Touch(ltp, 0, 0.0, 0.0))
    {
      high := Max(high, ltp);
      low := Min(low, ltp);
      close := ltp;
      tickCount := tickCount + 1;
    }

    /** A traded quantity on a row. */
    method Trade(row: int, buy: real, sell: real)
      requires buy + sell > 0.0
      modifies this
      ensures View() == old(View()).Apply(Touch(close, row, buy, sell))
                        .(high := old(high), low := old(low), tickCount := old(tickCount))
      ensures close == old(close)
    {
      if row !in cells {
        cells := cells[row := Cell(0.0, 0.0)];
        order := order + [row];
      }
      cells := cells[row := Cell(cells[row].bid + sell, cells[row].ask + buy)];
      buyQty := buyQty + buy;
      sellQty := sellQty + sell;
      runDelta := runDelta + (buy - sell);
      maxDelta := Max(maxDelta, runDelta);
      minDelta := Min(minDelta, runDelta);
      assert cells == old(View()).Apply(Touch(close, row, buy, sell)).cells;
    }

    method Observe(t: Touch)
      modifies this
      ensures View() == old(View()).Apply(t)
    {
      Mark(t.price);
      if t.buy + t.sell > 0.0 {
        Trade(t.row, t.buy, t.sell);
      }
    }
  }

  class Tracked {
    const rowSize: PosReal
    var lastVolume: Option<real>
    var lastPrice: Option<real>
    var lastDir: int

    ghost function View(): Cursor
      reads this
    {
      Cursor(rowSize, lastVolume, lastPrice, lastDir)
    }

    constructor (rowSize: PosReal)
      ensures View() == Cursor(rowSize, None, None, 1)
    {
      this.rowSize, lastVolume, lastPrice, lastDir := rowSize, None, None, 1;
    }

    /** The tick as this token's bar sees it; moves the cursors past it. */
    method Consume(t: Tick) returns (touch: Touch)
      requires t.ltp.Some?
      modifies this
      ensures touch == TouchOf(old(View()), t) && View() == Advance(old(View()), t)
    {
      var ltp := t.ltp.value;
      var dv := 0.0;
      if t.volume.Some? {
        if lastVolume.Some? && t.volume.value >= lastVolume.value {
          dv := t.volume.value - lastVolume.value;
        }
        lastVolume := t.volume;
      } else if t.lastQty.Some? {
        dv := t.lastQty.value;
      }
      var buy, sell := 0.0, 0.0;
      if dv > 0.0 {
        var (side, dir) := Classify(ltp, t.bid, t.ask, lastPrice, lastDir);
        lastDir := dir;
        match side {
          case Buy => buy := dv;
          case Sell => sell := dv;
          case Split => buy, sell := dv / 2.0, dv / 2.0;
        }
      }
      lastPrice := Some(ltp);
      touch := Touch(ltp, RowOf(ltp, rowSize), buy, sell);
    }
  }

  class OrderFlowRecorder {
    var tracked: map<int, Tracked>
    var bars: map<Key, Bar>

    /** No two tokens share a cursor and no two buckets share a bar. */
    ghost predicate Unshared()
      reads this
    {
      && (forall a, b :: a in tracked && b in tracked && a != b ==> tracked[a] != tracked[b])
      && (forall a, b :: a in bars && b in bars && a != b ==> bars[a] != bars[b])
    }

    ghost function Cursors(): map<int, Cursor>
      reads this, tracked.Values
    {
      map token | token in tracked :: tracked[token].View()
    }

    ghost function Footprints(): map<Key, BarV>
      reads this, bars.Values
    {
      map k | k in bars :: bars[k].View()
    }

    ghost function State(): RecState
      reads this, tracked.Values, bars.Values
    {
      RecState(Cursors(), Footprints())
    }

    /** Nothing is shared and every bar in memory is balanced. */
    ghost predicate Valid()
      reads this, tracked.Values, bars.Values
    {
      Unshared() && AllBalanced(State())
    }

    constructor ()
      ensures Valid() && State() == RecState(map[], map[]) && bars == map[] && tracked == map[]
    {
      tracked, bars := map[], map[];
    }

    /** The bar a tick belongs to, opened if its bucket has none yet. */
    method BarFor(k: Key, barSeconds: int, rowSize: PosReal, price: real) returns (bar: Bar)
      requires Unshared()
      modifies this`bars
      ensures Unshared() && k in bars && bars == old(bars)[k := bar]
      ensures fresh(bars.Values - old(bars.Values))
      ensures k !in old(bars) ==> fresh(bar)
      ensures Footprints() == old(Footprints())[k := if k in old(bars) then old(Footprints())[k]
                                                     else OpenBar(barSeconds, rowSize, price)]
      ensures Cursors() == old(Cursors())
    {
      if k in bars {
        bar := bars[k];
        assert bars == old(bars)[k := bar];
      } else {
        bar := new Bar(barSeconds, rowSize, price);
        bars := bars[k := bar];
        assert forall x :: x in old(bars) ==> bars[x].View() == old(bars[x].View());
      }
    }

    method ConsumeFor(token: int, t: Tick) returns (touch: Touch)
      requires Unshared() && token in tracked && t.ltp.Some?
      modifies tracked[token]
      ensures touch == TouchOf(old(Cursors())[token], t)
      ensures Cursors() == old(Cursors())[token := Advance(old(Cursors())[token], t)]
      ensures Footprints() == old(Footprints())
    {
      touch := tracked[token].Consume(t);
      forall x | x in tracked && x != token
        ensures tracked[x].View() == old(tracked[x].View())
      {
        assert tracked[x] != tracked[token];
      }
    }

    method ObserveIn(k: Key, touch: Touch)
      requires Unshared() && k in bars
      modifies bars[k]
      ensures Footprints() == old(Footprints())[k := old(Footprints())[k].Apply(touch)]
      ensures Cursors() == old(Cursors())
    {
      bars[k].Observe(touch);
      forall x | x in bars && x != k
        ensures bars[x].View() == old(bars[x].View())
      {
        assert bars[x] != bars[k];
      }
    }

    method FoldOne(t: Tick, configured: int)
      requires Unshared()
      modifies this, tracked.Values, bars.Values
      ensures Unshared() && State() == FoldTick(old(State()), t, configured)
      ensures tracked == old(tracked) && fresh(bars.Values - old(bars.Values))
    {
      if t.token == None || t.token.value !in tracked || t.ltp == None || t.ltp.value <= 0.0 {
        return;
      }
      ghost var s := State();
      var token := t.token.value;
      var k := KeyOf(t, configured);
      var rowSize := tracked[token].rowSize;
      var bar := BarFor(k, BarWidth(configured), rowSize, t.ltp.value);
      FoldTickIs(s, t, configured, Footprints());
      var touch := ConsumeFor(token, t);
      ObserveIn(k, touch);
    }

    /** Fold a tick batch into the in-memory bars. */
    method Fold(ticks: seq<Tick>, configured: int)
      requires Valid()
      modifies this, tracked.Values, bars.Values
      ensures Valid() && State() == Step(old(State()), Ticks(ticks, configured))
      ensures tracked == old(tracked) && fresh(bars.Values - old(bars.Values))
    {
      StepBalanced(State(), Ticks(ticks, configured));
      for i := 0 to |ticks|
        invariant Unshared() && tracked == old(tracked) && fresh(bars.Values - old(bars.Values))
        invariant State() == FoldTicks(old(State()), ticks[..i], configured)
      {
        assert ticks[..i + 1][..i] == ticks[..i];
        FoldOne(ticks[i], configured);
      }
      assert ticks[..|ticks|] == ticks;
    }

    /** A new entry for a wanted token, with its old cursors if it was tracked. */
    method CarryOver(token: int, rowSize: PosReal) returns (entry: Tracked)
      ensures fresh(entry) && entry.View() == Carry(Cursors(), token, rowSize)
    {
      entry := new Tracked(rowSize);
      if token in tracked {
        entry.lastVolume := tracked[token].lastVolume;
        entry.lastPrice := tracked[token].lastPrice;
        entry.lastDir := tracked[token].lastDir;
      }
    }

    /** A fresh tracking table carrying each surviving token's cursors over. */
    method Rebuild(wanted: map<int, PosReal>) returns (rebuilt: map<int, Tracked>)
      ensures rebuilt.Keys == wanted.Keys
      ensures forall a :: a in rebuilt ==> fresh(rebuilt[a]) && rebuilt[a].View() == Carry(Cursors(), a, wanted[a])
      ensures forall a, b :: a in rebuilt && b in rebuilt && a != b ==> rebuilt[a] != rebuilt[b]
    {
      rebuilt := map[];
      var rest := wanted.Keys;
      while rest != {}
        invariant rest <= wanted.Keys && rebuilt.Keys == wanted.Keys - rest
        invariant forall a :: a in rebuilt ==> fresh(rebuilt[a]) && rebuilt[a].View() == Carry(Cursors(), a, wanted[a])
        invariant forall a, b :: a in rebuilt && b in rebuilt && a != b ==> rebuilt[a] != rebuilt[b]
        decreases rest
      {
        ghost var w := Pick(rest);
        var token :| token in rest;
        rest := rest - {token};
        var entry := CarryOver(token, wanted[token]);
        rebuilt := rebuilt[token := entry];
      }
    }

    method Replace(wanted: map<int, PosReal>)
      requires Unshared()
      modifies this`tracked
      ensures Unshared() && Cursors() == Retrack(old(Cursors()), wanted) && Footprints() == old(Footprints())
      ensures forall a :: a in tracked ==> fresh(tracked[a])
    {
      tracked := Rebuild(wanted);
    }

    /** Track exactly the wanted tokens from now on. */
    method ResolveTokens(wanted: map<int, PosReal>)
      requires Valid()
      modifies this`tracked
      ensures Valid() && State() == Step(old(State()), Resolve(wanted))
      ensures forall a :: a in tracked ==> fresh(tracked[a])
    {
      StepBalanced(State(), Resolve(wanted));
      Replace(wanted);
    }

    /** Under the lock: take the completed bars (all of them when forced) out of memory. */
    method TakeReady(force: bool, now: int) returns (ready: map<Key, Bar>)
      requires Unshared()
      modifies this`bars
      ensures Unshared() && State() == Step(old(State()), Event.Flush(force, now)) && bars.Values <= old(bars.Values)
      ensures ready.Keys == Ready(old(State()).bars, force, now).Keys
      ensures forall k :: k in ready ==> ready[k].View() == old(State()).bars[k]
    {
      var all := bars;
      ready := map k | k in all && Leaves(k, all[k].barSeconds, force, now) :: all[k];
      bars := all - ready.Keys;
      assert ready.Keys == Ready(old(Footprints()), force, now).Keys;
      assert Footprints() == old(Footprints()) - Ready(old(Footprints()), force, now).Keys;
      assert Cursors() == old(Cursors());
    }

    /** Persist every completed bar that traded; a failed commit loses them. */
    method Flush(force: bool, now: int, commits: bool) returns (rows: seq<StoredBar>)
      requires Valid()
      modifies this`bars
      ensures Valid() && State() == Step(old(State()), Event.Flush(force, now)) && bars.Values <= old(bars.Values)
      ensures if commits then Persists(Ready(old(State()).bars, force, now), rows) else rows == []
    {
      StepBalanced(State(), Event.Flush(force, now));
      var ready := TakeReady(force, now);
      ghost var views := Ready(old(State()).bars, force, now);
      assert forall k :: k in views ==> OrderCovers(views[k]) && ready[k].View() == views[k];
      rows := [];
      if commits {
        rows := WriteRows(ready, views);
      }
    }
  }

  /** The rows are the ready bars that traded, each stored once. */
  ghost predicate Persists(ready: map<Key, BarV>, rows: seq<StoredBar>) {
    && (forall k :: k in ready ==> OrderCovers(ready[k]))
    && (forall i :: 0 <= i < |rows| ==> StoredFrom(ready, rows[i]))
    && (forall i, j :: 0 <= i < j < |rows| ==> rows[i].key != rows[j].key)
    && (forall k :: k in ready && ready[k].cells != map[] ==> exists i :: 0 <= i < |rows| && rows[i].key == k)
  }

  ghost predicate StoredFrom(ready: map<Key, BarV>, row: StoredBar)
    requires forall k :: k in ready ==> OrderCovers(ready[k])
  {
    row.key in ready && ready[row.key].cells != map[] && row == Store(row.key, ready[row.key])
  }

  method WriteRows(ready: map<Key, Bar>, ghost views: map<Key, BarV>) returns (rows: seq<StoredBar>)
    requires ready.Keys == views.Keys && forall k :: k in ready ==> ready[k].View() == views[k]
    requires forall k :: k in views ==> OrderCovers(views[k])
    ensures Persists(views, rows)
  {
    rows := [];
    var rest := ready.Keys;
    ghost var done: map<Key, BarV> := map[];
    while rest != {}
      invariant rest <= ready.Keys && done.Keys == ready.Keys - rest
      invariant forall k :: k in done ==> done[k] == views[k]
      invariant Persists(done, rows)
      decreases rest
    {
      ghost var w := Pick(rest);
      var k :| k in rest;
      ghost var was := rows;
      rest := rest - {k};
      if ready[k].cells != map[] {
        var row := RowOfBar(k, ready[k]);
        rows := rows + [row];
      }
      PersistsOneMore(done, was, k, views[k], rows);
      done := done[k := views[k]];
    }
    assert done == views;
  }

  method RowOfBar(k: Key, bar: Bar) returns (row: StoredBar)
    requires bar.cells != map[] && OrderCovers(bar.View())
    ensures row == Store(k, bar.View())
  {
    CoveredOrder(bar.View());
    var poc := FirstHeaviest(bar.order, bar.cells);
    row := StoredBar(k, bar.barSeconds, bar.rowSize, bar.open, bar.high, bar.low, bar.close,
                     bar.buyQty, bar.sellQty, bar.maxDelta, bar.minDelta,
                     poc as real * bar.rowSize, bar.tickCount,
                     StoreCells(Ascending(bar.cells.Keys), bar.cells, bar.rowSize));
  }

  lemma PersistsOneMore(done: map<Key, BarV>, rows: seq<StoredBar>, k: Key, b: BarV, rows': seq<StoredBar>)
    requires Persists(done, rows) && k !in done && OrderCovers(b)
    requires rows' == if b.cells == map[] then rows else rows + [Store(k, b)]
    ensures Persists(done[k := b], rows')
  {
    var ready := done[k := b];
    forall i | 0 <= i < |rows'|
      ensures StoredFrom(ready, rows'[i])
    {
      if i < |rows| { assert StoredFrom(done, rows[i]); }
    }
    forall x | x in ready && ready[x].cells != map[]
      ensures exists i :: 0 <= i < |rows'| && rows'[i].key == x
    {
      if x == k {
        assert rows'[|rows|].key == k;
      } else {
        var i :| 0 <= i < |rows| && rows[i].key == x;
        assert rows'[i].key == x;
      }
    }
    forall i, j | 0 <= i < j < |rows'|
      ensures rows'[i].key != rows'[j].key
    {
      assert StoredFrom(done, rows[i]);
    }
  }

  /** Any run of a new recorder is the run of the value model; so at its end the volume of every
      token in the bars in memory, plus what was handed to storage, is what was traded. */
  method Drive(es: seq<Event>) returns (recorder: OrderFlowRecorder)
    ensures fresh(recorder) && recorder.Valid() && recorder.State() == Run(es)
    ensures forall token :: VolumeOf(recorder.State().bars, token) + HandedVolume(es, token) == MeterRun(es, token).total
  {
    recorder := new OrderFlowRecorder();
    for i := 0 to |es|
      invariant fresh(recorder) && fresh(recorder.tracked.Values) && fresh(recorder.bars.Values)
      invariant recorder.Valid() && recorder.State() == Run(es[..i])
    {
      assert es[..i + 1][..i] == es[..i];
      DriveOne(recorder, es[i]);
    }
    assert es[..|es|] == es;
    forall token
      ensures VolumeOf(recorder.State().bars, token) + HandedVolume(es, token) == MeterRun(es, token).total
    {
      VolumeConserved(es, token);
    }
  }

  lemma KeyOfValue<K, V>(m: map<K, V>, v: V) returns (k: K)
    requires v in m.Values
    ensures k in m && m[k] == v
  {
    k :| k in m && m[k] == v;
  }

  method DriveOne(recorder: OrderFlowRecorder, e: Event)
    requires recorder.Valid()
    modifies recorder, recorder.tracked.Values, recorder.bars.Values
    ensures recorder.Valid() && recorder.State() == Step(old(recorder.State()), e)
    ensures fresh(recorder.tracked.Values - old(recorder.tracked.Values)) && fresh(recorder.bars.Values - old(recorder.bars.Values))
  {
    match e
    case Ticks(batch, configured) => recorder.Fold(batch, configured);
    case Flush(force, now) => var rows := recorder.Flush(force, now, true);
    case Resolve(wanted) =>
      recorder.ResolveTokens(wanted);
      forall o: Tracked | o in recorder.tracked.Values
        ensures fresh(o)
      {
        var token := KeyOfValue(recorder.tracked, o);
      }
  }
}
