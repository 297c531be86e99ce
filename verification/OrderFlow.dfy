/** The order-flow recorder on values: what one tick, one flush and one token
    re-resolve do to the tracked cursors and the in-memory footprint bars
    (app/orderflow.py). The class that does it in place is in Recorder.dfy. */
module OrderFlow {
  import opened Nums

  type PosReal = x: real | x > 0.0 witness 1.0

  datatype Side = Buy | Sell | Split

  datatype Key = Key(token: int, bucket: int)

  /** Aggressive selling (`bid`) and buying (`ask`) printed on one price row. */
  datatype Cell = Cell(bid: real, ask: real)

  /** One accepted tick as its bar sees it: the price, and the traded quantity split by side. */
  datatype Touch = Touch(price: real, row: int, buy: real, sell: real) {
    predicate Traded() { buy + sell > 0.0 }
    ghost predicate Valid() { buy >= 0.0 && sell >= 0.0 }
  }

  /** A footprint bar. `order` lists the rows of `cells` in the order they were first
      traded, which is the iteration order of the Python dict. */
  datatype BarV = BarV(
    barSeconds: int, rowSize: PosReal,
    open: real, high: real, low: real, close: real,
    buyQty: real, sellQty: real, runDelta: real, maxDelta: real, minDelta: real,
    tickCount: int, cells: map<int, Cell>, order: seq<int>)
  {
    function Apply(t: Touch): BarV {
      var touched := this.(high := Max(high, t.price), low := Min(low, t.price),
                           close := t.price, tickCount := tickCount + 1);
      if !t.Traded() then touched
      else
        var was := if t.row in cells then cells[t.row] else Cell(0.0, 0.0);
        var run := runDelta + (t.buy - t.sell);
        touched.(cells := cells[t.row := Cell(was.bid + t.sell, was.ask + t.buy)],
                 order := if t.row in cells then order else order + [t.row],
                 buyQty := buyQty + t.buy, sellQty := sellQty + t.sell,
                 runDelta := run, maxDelta := Max(maxDelta, run), minDelta := Min(minDelta, run))
    }

    function Volume(): real { buyQty + sellQty }
  }

  function OpenBar(barSeconds: int, rowSize: PosReal, price: real): BarV {
    BarV(barSeconds, rowSize, price, price, price, price, 0.0, 0.0, 0.0, 0.0, 0.0, 0, map[], [])
  }

  /** Per-token memory carried from tick to tick and across re-resolves. */
  datatype Cursor = Cursor(rowSize: PosReal, lastVolume: Option<real>, lastPrice: Option<real>, lastDir: int)

  /** A Kite tick; `epoch` is the exchange (or wall-clock) second, `bid`/`ask` the best levels. */
  datatype Tick = Tick(token: Option<int>, ltp: Option<real>, epoch: int, volume: Option<real>,
                       lastQty: Option<real>, bid: Option<real>, ask: Option<real>)

  /** Python truthiness of an optional price. */
  predicate Usable(o: Option<real>) {
    o.Some? && o.value != 0.0
  }

  function Classify(ltp: real, bid: Option<real>, ask: Option<real>, prev: Option<real>, lastDir: int): (Side, int) {
    if Usable(ask) && ltp >= ask.value then (Buy, 1)
    else if Usable(bid) && ltp <= bid.value then (Sell, -1)
    else if Usable(bid) && Usable(ask) && ask.value > bid.value && ltp > (bid.value + ask.value) / 2.0 then (Buy, 1)
    else if Usable(bid) && Usable(ask) && ask.value > bid.value && ltp < (bid.value + ask.value) / 2.0 then (Sell, -1)
    else if prev.Some? then
      if ltp > prev.value then (Buy, 1)
      else if ltp < prev.value then (Sell, -1)
      else (if lastDir > 0 then Buy else Sell, lastDir)
    else (Split, lastDir)
  }

  function Flip(s: Side): Side {
    match s case Buy => Sell case Sell => Buy case Split => Split
  }

  function Mirror(c: real, p: Option<real>): Option<real> {
    match p case None => None case Some(x) => Some(c - x)
  }

  /** Seen in a mirror (prices reflected about a constant, book sides exchanged, last
      direction negated) every print changes side, exactly unless it lies on both sides
      of a locked or crossed book at once: there the ask is tested first, so Buy wins twice. */
  lemma ClassifyMirror(ltp: real, bid: Option<real>, ask: Option<real>, prev: Option<real>, lastDir: int, c: real)
    requires bid != Some(0.0) && ask != Some(0.0) && lastDir != 0
    requires Mirror(c, bid) != Some(0.0) && Mirror(c, ask) != Some(0.0)
    ensures var (side, dir) := Classify(ltp, bid, ask, prev, lastDir);
            var (side', dir') := Classify(c - ltp, Mirror(c, ask), Mirror(c, bid), Mirror(c, prev), -lastDir);
            (side' == Flip(side) && dir' == -dir) <==>
              !(bid.Some? && ask.Some? && ask.value <= ltp <= bid.value)
  {
  }

  /** Quantity traded since the previous snapshot; not positive when there is none. */
  function Increment(lastVolume: Option<real>, t: Tick): real {
    match t.volume
    case Some(v) => if lastVolume.Some? && v >= lastVolume.value then v - lastVolume.value else 0.0
    case None => if t.lastQty.Some? then t.lastQty.value else 0.0
  }

  function RowOf(price: real, rowSize: PosReal): int {
    Floor(price / rowSize + 0.000000001)
  }

  function Bucket(epoch: int, barSeconds: int): int
    requires barSeconds > 0
  {
    epoch - epoch % barSeconds
  }

  function BarWidth(configured: int): int {
    MaxInt(5, configured)
  }

  datatype RecState = RecState(tracked: map<int, Cursor>, bars: map<Key, BarV>)

  predicate Accepted(tracked: set<int>, t: Tick) {
    t.token.Some? && t.token.value in tracked && t.ltp.Some? && t.ltp.value > 0.0
  }

  function TouchOf(c: Cursor, t: Tick): (r: Touch)
    requires t.ltp.Some?
    ensures r.Valid() && r.price == t.ltp.value
    ensures r.buy + r.sell == Max(0.0, Increment(c.lastVolume, t))
  {
    var ltp := t.ltp.value;
    var dv := Increment(c.lastVolume, t);
    var row := RowOf(ltp, c.rowSize);
    if dv <= 0.0 then Touch(ltp, row, 0.0, 0.0)
    else
      match Classify(ltp, t.bid, t.ask, c.lastPrice, c.lastDir).0
      case Buy => Touch(ltp, row, dv, 0.0)
      case Sell => Touch(ltp, row, 0.0, dv)
      case Split => Touch(ltp, row, dv / 2.0, dv / 2.0)
  }

  function Advance(c: Cursor, t: Tick): Cursor
    requires t.ltp.Some?
  {
    var ltp := t.ltp.value;
    Cursor(c.rowSize,
           if t.volume.Some? then t.volume else c.lastVolume,
           Some(ltp),
           if Increment(c.lastVolume, t) > 0.0 then Classify(ltp, t.bid, t.ask, c.lastPrice, c.lastDir).1
           else c.lastDir)
  }

  // ---- Whose volume it is ----

  predicate AtAsk(t: Tick)
    requires t.ltp.Some?
  {
    t.ask.Some? && t.ask.value != 0.0 && t.ltp.value >= t.ask.value
  }

  predicate AtBid(t: Tick)
    requires t.ltp.Some?
  {
    t.bid.Some? && t.bid.value != 0.0 && t.ltp.value <= t.bid.value
  }

  /** Strictly inside a quoted book. */
  predicate Inside(t: Tick)
    requires t.ltp.Some?
  {
    && t.bid.Some? && t.bid.value != 0.0 && t.ask.Some? && t.ask.value != 0.0
    && t.bid.value < t.ltp.value < t.ask.value
  }

  /** The book leaves the side open: no quote is touched, and the print is not inside a quoted
      book or is exactly in its middle. */
  predicate Undecided(t: Tick)
    requires t.ltp.Some?
  {
    !AtAsk(t) && !AtBid(t) && (Inside(t) ==> t.ltp.value - t.bid.value == t.ask.value - t.ltp.value)
  }

  /** The quantity goes to this side whole and is remembered with this direction. */
  predicate Takes(c: Cursor, t: Tick, buys: bool, dir: int)
    requires t.ltp.Some?
  {
    var q := Increment(c.lastVolume, t);
    && TouchOf(c, t).buy == (if buys then q else 0.0) && TouchOf(c, t).sell == (if buys then 0.0 else q)
    && Advance(c, t).lastDir == dir
  }

  /** A traded print at the ask is a buy and one at the bid a sale; inside the book the nearer quote
      decides, then the direction from the last price, then the last direction; without any of
      these, and only then, the quantity is halved. */
  lemma SideOfPrint(c: Cursor, t: Tick)
    requires t.ltp.Some? && Increment(c.lastVolume, t) > 0.0
    ensures AtAsk(t) ==> Takes(c, t, true, 1)
    ensures !AtAsk(t) && AtBid(t) ==> Takes(c, t, false, -1)
    ensures Inside(t) && t.ask.value - t.ltp.value < t.ltp.value - t.bid.value ==> Takes(c, t, true, 1)
    ensures Inside(t) && t.ltp.value - t.bid.value < t.ask.value - t.ltp.value ==> Takes(c, t, false, -1)
    ensures Undecided(t) && c.lastPrice.Some? ==>
              if t.ltp.value > c.lastPrice.value then Takes(c, t, true, 1)
              else if t.ltp.value < c.lastPrice.value then Takes(c, t, false, -1)
              else Takes(c, t, c.lastDir > 0, c.lastDir)
    ensures TouchOf(c, t).buy > 0.0 && TouchOf(c, t).sell > 0.0 <==> Undecided(t) && c.lastPrice == None
    ensures Undecided(t) && c.lastPrice == None ==>
              TouchOf(c, t).buy == TouchOf(c, t).sell == Increment(c.lastVolume, t) / 2.0 && Advance(c, t).lastDir == c.lastDir
  {
  }

  /** A print without new volume says nothing about direction; any print moves the last price, and a
      reported volume the last volume. */
  lemma CursorFollows(c: Cursor, t: Tick)
    requires t.ltp.Some?
    ensures Increment(c.lastVolume, t) <= 0.0 ==> Advance(c, t).lastDir == c.lastDir && !TouchOf(c, t).Traded()
    ensures Advance(c, t).lastPrice == t.ltp && Advance(c, t).rowSize == c.rowSize
    ensures Advance(c, t).lastVolume == if t.volume.Some? then t.volume else c.lastVolume
  {
  }

  /** What was traded since the last snapshot: by cumulative volume when it is reported, and then
      nothing for the first reading or a fallen one; else the last traded quantity. */
  lemma IncrementIs(last: Option<real>, t: Tick)
    ensures t.volume.Some? && last.Some? ==> last.value + Increment(last, t) == Max(last.value, t.volume.value)
    ensures t.volume.Some? && last == None ==> Increment(last, t) == 0.0
    ensures t.volume == None && t.lastQty.Some? ==> Increment(last, t) == t.lastQty.value
    ensures t.volume == None && t.lastQty == None ==> Increment(last, t) == 0.0
  {
  }

  /** The price lies on its row, up to the billionth of a row that absorbs float noise. */
  lemma RowHolds(price: real, rowSize: PosReal)
    ensures var row := RowOf(price, rowSize);
            row as real * rowSize <= price + 0.000000001 * rowSize < row as real * rowSize + rowSize
  {
    assert price / rowSize * rowSize == price;
    var row := RowOf(price, rowSize) as real;
    ScaledBetween(price, price / rowSize, 0.000000001, row, rowSize);
    ScaledBetween(price, price / rowSize, 0.000000001, row + 1.0, rowSize);
  }

  lemma ScaledBetween(x: real, q: real, e: real, n: real, size: real)
    requires size > 0.0 && x == q * size
    ensures n <= q + e ==> n * size <= x + e * size
    ensures q + e < n ==> x + e * size < n * size
  {
  }

  /** A bucket starts at a multiple of the bar width and holds the tick's second. */
  lemma BucketHolds(epoch: int, barSeconds: int)
    requires barSeconds > 0
    ensures var b := Bucket(epoch, barSeconds); b % barSeconds == 0 && b <= epoch < b + barSeconds
  {
    var q := epoch / barSeconds;
    assert Bucket(epoch, barSeconds) == q * barSeconds;
    ModIs(Bucket(epoch, barSeconds), q, 0, barSeconds);
  }

  function KeyOf(t: Tick, configured: int): Key
    requires t.token.Some?
  {
    Key(t.token.value, Bucket(t.epoch, BarWidth(configured)))
  }

  function FoldTick(s: RecState, t: Tick, configured: int): RecState {
    if !Accepted(s.tracked.Keys, t) then s
    else
      var c := s.tracked[t.token.value];
      var k := KeyOf(t, configured);
      var bar := if k in s.bars then s.bars[k] else OpenBar(BarWidth(configured), c.rowSize, t.ltp.value);
      RecState(s.tracked[t.token.value := Advance(c, t)], s.bars[k := bar.Apply(TouchOf(c, t))])
  }

  function BuysAt(bars: map<Key, BarV>, k: Key): real {
    if k in bars then bars[k].buyQty else 0.0
  }

  function SellsAt(bars: map<Key, BarV>, k: Key): real {
    if k in bars then bars[k].sellQty else 0.0
  }

  /** The bar of the tick's bucket gains the whole quantity on this side, and nothing on the other. */
  ghost predicate BarTakes(s: RecState, t: Tick, configured: int, buys: bool)
    requires Accepted(s.tracked.Keys, t)
  {
    var k, s' := KeyOf(t, configured), FoldTick(s, t, configured);
    var q := Increment(s.tracked[t.token.value].lastVolume, t);
    && BuysAt(s'.bars, k) == BuysAt(s.bars, k) + (if buys then q else 0.0)
    && SellsAt(s'.bars, k) == SellsAt(s.bars, k) + (if buys then 0.0 else q)
  }

  /** The same seen from the bar. */
  lemma SideOfBar(s: RecState, t: Tick, configured: int)
    requires Accepted(s.tracked.Keys, t) && Increment(s.tracked[t.token.value].lastVolume, t) > 0.0
    ensures AtAsk(t) ==> BarTakes(s, t, configured, true)
    ensures !AtAsk(t) && AtBid(t) ==> BarTakes(s, t, configured, false)
    ensures Inside(t) && t.ask.value - t.ltp.value < t.ltp.value - t.bid.value ==> BarTakes(s, t, configured, true)
    ensures Inside(t) && t.ltp.value - t.bid.value < t.ask.value - t.ltp.value ==> BarTakes(s, t, configured, false)
    ensures var c := s.tracked[t.token.value];
            Undecided(t) && c.lastPrice.Some? ==>
              BarTakes(s, t, configured, t.ltp.value > c.lastPrice.value || (t.ltp.value == c.lastPrice.value && c.lastDir > 0))
    ensures forall k :: k != KeyOf(t, configured) ==>
              BuysAt(FoldTick(s, t, configured).bars, k) == BuysAt(s.bars, k) && SellsAt(FoldTick(s, t, configured).bars, k) == SellsAt(s.bars, k)
  {
    var c, k := s.tracked[t.token.value], KeyOf(t, configured);
    SideOfPrint(c, t);
    var bar := if k in s.bars then s.bars[k] else OpenBar(BarWidth(configured), c.rowSize, t.ltp.value);
    assert FoldTick(s, t, configured).bars[k] == bar.Apply(TouchOf(c, t));
    assert bar.buyQty == BuysAt(s.bars, k) && bar.sellQty == SellsAt(s.bars, k);
  }

  /** An accepted tick moves its token's cursor, opens its bar if need be, and folds into it. */
  lemma FoldTickIs(s: RecState, t: Tick, configured: int, opening: map<Key, BarV>)
    requires Accepted(s.tracked.Keys, t)
    requires var k := KeyOf(t, configured);
             opening == s.bars[k := if k in s.bars then s.bars[k]
                                    else OpenBar(BarWidth(configured), s.tracked[t.token.value].rowSize, t.ltp.value)]
    ensures var token, k := t.token.value, KeyOf(t, configured);
            FoldTick(s, t, configured) ==
            RecState(s.tracked[token := Advance(s.tracked[token], t)],
                     opening[k := opening[k].Apply(TouchOf(s.tracked[token], t))])
  {
  }

  function FoldTicks(s: RecState, batch: seq<Tick>, configured: int): RecState {
    if batch == [] then s
    else FoldTick(FoldTicks(s, batch[..|batch| - 1], configured), batch[|batch| - 1], configured)
  }

  predicate Leaves(k: Key, barSeconds: int, force: bool, now: int) {
    force || k.bucket + barSeconds <= now
  }

  /** The bars a flush takes out of memory. */
  function Ready(bars: map<Key, BarV>, force: bool, now: int): map<Key, BarV> {
    map k | k in bars && Leaves(k, bars[k].barSeconds, force, now) :: bars[k]
  }

  /** A re-resolved token: its new row size, and its old cursors if it was tracked before. */
  function Carry(tracked: map<int, Cursor>, token: int, rowSize: PosReal): Cursor {
    if token in tracked then tracked[token].(rowSize := rowSize) else Cursor(rowSize, None, None, 1)
  }

  function Retrack(tracked: map<int, Cursor>, wanted: map<int, PosReal>): map<int, Cursor> {
    map token | token in wanted :: Carry(tracked, token, wanted[token])
  }

  /** What can happen to a recorder: a tick batch, a flush, or a re-resolve that wants
      the given tokens (with their row sizes) from now on. */
  datatype Event =
    | Ticks(batch: seq<Tick>, configured: int)
    | Flush(force: bool, now: int)
    | Resolve(wanted: map<int, PosReal>)

  function Step(s: RecState, e: Event): RecState {
    match e
    case Ticks(batch, configured) => FoldTicks(s, batch, configured)
    case Flush(force, now) => s.(bars := s.bars - Ready(s.bars, force, now).Keys)
    case Resolve(wanted) => s.(tracked := Retrack(s.tracked, wanted))
  }

  function Run(es: seq<Event>): RecState {
    if es == [] then RecState(map[], map[]) else Step(Run(es[..|es| - 1]), es[|es| - 1])
  }

  /** The bars handed to storage by the last event of a run. */
  function Handed(s: RecState, e: Event): map<Key, BarV> {
    match e
    case Flush(force, now) => Ready(s.bars, force, now)
    case _ => map[]
  }
}
