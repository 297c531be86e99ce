/** The read side of the footprint: rows with diagonal imbalances, stacked levels, the
    merged display grid and the session strip. */
module Footprint {
  import opened Nums
  import opened Sums
  import opened OrderFlow
  import opened FootprintBars
  import opened Storage

  datatype Row = Row(row: int, price: real, bid: real, ask: real, buyImb: bool, sellImb: bool, poc: bool)

  /** Dominance of `mine` over the diagonal neighbour `other`, with the division the code does. */
  predicate Dominates(mine: real, other: real, ratio: real) {
    if other <= 0.0 then mine > 0.0 else mine / other >= ratio
  }

  /** Without a division: the cell trades and is at least `ratio` times its neighbour. */
  lemma DominatesMeans(mine: real, other: real, ratio: real)
    requires mine >= 0.0 && other >= 0.0 && ratio > 0.0
    ensures Dominates(mine, other, ratio) <==> mine > 0.0 && mine >= ratio * other
  {
  }

  function PriceOf(row: int, rowSize: real): real {
    row as real * rowSize
  }

  function FlagRow(cells: map<int, Cell>, row: int, lo: int, hi: int, poc: int,
                   rowSize: PosReal, ratio: real, minCell: real): Row {
    var c := CellAt(cells, row);
    Row(row, PriceOf(row, rowSize), c.bid, c.ask,
        c.ask >= minCell && row - 1 >= lo && Dominates(c.ask, CellAt(cells, row - 1).bid, ratio),
        c.bid >= minCell && row + 1 <= hi && Dominates(c.bid, CellAt(cells, row + 1).ask, ratio),
        row == poc)
  }

  /** The edges of a bar never count as imbalanced against rows it did not reach. */
  lemma EdgesNeverFlagged(cells: map<int, Cell>, row: int, lo: int, hi: int, poc: int,
                          rowSize: PosReal, ratio: real, minCell: real)
    requires lo <= row <= hi && ratio > 0.0
    requires forall r :: r in cells ==> cells[r].bid >= 0.0 && cells[r].ask >= 0.0
    ensures var f := FlagRow(cells, row, lo, hi, poc, rowSize, ratio, minCell);
            (f.buyImb <==> row > lo && f.ask >= minCell && f.ask > 0.0 && f.ask >= ratio * CellAt(cells, row - 1).bid) &&
            (f.sellImb <==> row < hi && f.bid >= minCell && f.bid > 0.0 && f.bid >= ratio * CellAt(cells, row + 1).ask)
  {
  }

  function TotalOver(rows: seq<int>, cells: map<int, Cell>): real {
    if rows == [] then 0.0
    else TotalOver(rows[..|rows| - 1], cells) + Weight(cells, rows[|rows| - 1])
  }

  method ReadCells(stored: seq<StoredCell>, rowSize: PosReal) returns (cells: map<int, Cell>)
    ensures cells == ByRow(stored, rowSize)
  {
    cells := map[];
    for i := 0 to |stored|
      invariant cells == ByRow(stored[..i], rowSize)
    {
      ByRowAppend(stored[..i], stored[i], rowSize);
      assert stored[..i] + [stored[i]] == stored[..i + 1];
      cells := cells[RowIndex(stored[i].price, rowSize) := Cell(stored[i].bid, stored[i].ask)];
    }
    assert stored[..|stored|] == stored;
  }

  method AddUp(order: seq<int>, cells: map<int, Cell>) returns (volume: real)
    ensures volume == TotalOver(order, cells)
  {
    volume := 0.0;
    for i := 0 to |order|
      invariant volume == TotalOver(order[..i], cells)
    {
      assert order[..i + 1][..i] == order[..i];
      volume := volume + Weight(cells, order[i]);
    }
    assert order[..|order|] == order;
  }

  /** The rows of one stored bar with their flags, and its volume. */
  ghost predicate Loaded(bar: StoredBar, ratio: real, minCellPct: real, rows: seq<Row>, volume: real) {
    var cells := ByRow(bar.cells, bar.rowSize);
    var order := Ascending(cells.Keys);
    && volume == TotalOver(order, cells)
    && if order == [] then rows == []
       else FlaggedOver(cells, order, FirstHeaviest(order, cells), bar.rowSize, ratio, volume * minCellPct / 100.0, rows)
  }

  /** One row for each of `order`, flagged against the others. */
  ghost predicate FlaggedOver(cells: map<int, Cell>, order: seq<int>, poc: int, rowSize: PosReal, ratio: real, minCell: real, rows: seq<Row>) {
    && |rows| == |order|
    && forall i :: 0 <= i < |rows| ==>
         rows[i] == FlagRow(cells, order[i], order[0], order[|order| - 1], poc, rowSize, ratio, minCell)
  }

  /** Each row at its price, lowest first. */
  ghost predicate Laddered(rows: seq<Row>, rowSize: real) {
    && (forall i :: 0 <= i < |rows| ==> rows[i].price == PriceOf(rows[i].row, rowSize))
    && (forall i, j :: 0 <= i < j < |rows| ==> rows[i].row < rows[j].row)
  }

  /** The rows of one stored bar, lowest first. */
  method LoadBar(bar: StoredBar, ratio: real, minCellPct: real) returns (rows: seq<Row>, volume: real)
    ensures Loaded(bar, ratio, minCellPct, rows, volume)
  {
    var cells := ReadCells(bar.cells, bar.rowSize);
    var order := Ascending(cells.Keys);
    volume := AddUp(order, cells);
    rows := [];
    if order == [] {
      return;
    }
    var lo, hi, poc := order[0], order[|order| - 1], FirstHeaviest(order, cells);
    var minCell := volume * minCellPct / 100.0;
    for i := 0 to |order|
      invariant |rows| == i
      invariant forall j :: 0 <= j < i ==> rows[j] == FlagRow(cells, order[j], lo, hi, poc, bar.rowSize, ratio, minCell)
    {
      rows := rows + [FlagRow(cells, order[i], lo, hi, poc, bar.rowSize, ratio, minCell)];
    }
  }

  lemma SumsWithout(cells: map<int, Cell>, row: int)
    requires row in cells
    ensures SumMap(Bids(cells)) + SumMap(Asks(cells)) ==
            SumMap(Bids(cells - {row})) + SumMap(Asks(cells - {row})) + Weight(cells, row)
  {
    assert Bids(cells) - {row} == Bids(cells - {row});
    assert Asks(cells) - {row} == Asks(cells - {row});
    SumMapRemove(Bids(cells), row);
    SumMapRemove(Asks(cells), row);
  }

  /** Listing every row once and adding up weights gives the bids plus the asks. */
  lemma {:induction false} TotalOverIsSum(cells: map<int, Cell>, rows: seq<int>)
    requires (set row | row in rows) == cells.Keys
    requires forall i, j :: 0 <= i < j < |rows| ==> rows[i] != rows[j]
    ensures TotalOver(rows, cells) == SumMap(Bids(cells)) + SumMap(Asks(cells))
    decreases |rows|
  {
    if rows == [] {
      assert cells == map[];
      SumMapZero(Bids(cells));
      SumMapZero(Asks(cells));
    } else {
      var n := |rows| - 1;
      var last, init := rows[n], rows[..n];
      assert rows == init + [last];
      assert last !in init;
      assert (set row | row in init) == (cells - {last}).Keys;
      TotalOverIsSum(cells - {last}, init);
      TotalOverFrame(init, cells - {last}, cells);
      assert last in cells by { assert last in rows; }
      SumsWithout(cells, last);
    }
  }

  lemma {:induction false} TotalOverFrame(rows: seq<int>, a: map<int, Cell>, b: map<int, Cell>)
    requires forall row :: row in rows ==> CellAt(a, row) == CellAt(b, row)
    ensures TotalOver(rows, a) == TotalOver(rows, b)
  {
    if rows != [] {
      TotalOverFrame(rows[..|rows| - 1], a, b);
    }
  }

  lemma CellsTotal(b: BarV)
    requires Balanced(b)
    ensures TotalOver(Ascending(b.cells.Keys), b.cells) == b.Volume()
  {
    var rows := Ascending(b.cells.Keys);
    AscendingSorts(b.cells.Keys);
    assert (set row | row in rows) == b.cells.Keys;
    TotalOverIsSum(b.cells, rows);
  }

  /** The volume the reader shows for a stored bar is the volume the recorder counted in it. */
  lemma VolumeSurvivesStorage(k: Key, b: BarV, cells: map<int, Cell>)
    requires b.cells != map[] && Balanced(b)
    requires cells == ByRow(Store(k, b).cells, b.rowSize)
    ensures TotalOver(Ascending(cells.Keys), cells) == b.Volume()
  {
    StoreRoundTrip(k, b);
    CellsTotal(b);
  }

  // ---- Stacked levels ----

  datatype Span = Span(first: int, end: int)

  datatype Level = Level(side: Side, low: real, high: real, rows: int)

  /** Length of the unbroken flagged run at the end of `flags`. */
  function OpenRun(flags: seq<bool>): (n: nat)
    ensures n <= |flags|
  {
    if flags == [] || !flags[|flags| - 1] then 0 else OpenRun(flags[..|flags| - 1]) + 1
  }

  function Reported(flags: seq<bool>, stackLen: nat): seq<Span> {
    if OpenRun(flags) >= stackLen then [Span(|flags| - OpenRun(flags), |flags|)] else []
  }

  /** The runs already ended by an unflagged row. */
  function ClosedRuns(flags: seq<bool>, stackLen: nat): seq<Span> {
    if flags == [] then []
    else
      var init := flags[..|flags| - 1];
      ClosedRuns(init, stackLen) + (if flags[|flags| - 1] then [] else Reported(init, stackLen))
  }

  function StackRuns(flags: seq<bool>, stackLen: nat): seq<Span> {
    ClosedRuns(flags, stackLen) + Reported(flags, stackLen)
  }

  /** A maximal run of adjacent flagged rows. */
  ghost predicate MaximalRun(flags: seq<bool>, s: Span) {
    && 0 <= s.first < s.end <= |flags|
    && (forall i :: s.first <= i < s.end ==> flags[i])
    && (s.first > 0 ==> !flags[s.first - 1])
    && (s.end < |flags| ==> !flags[s.end])
  }

  lemma {:induction false} OpenRunIs(flags: seq<bool>)
    ensures forall i :: |flags| - OpenRun(flags) <= i < |flags| ==> flags[i]
    ensures OpenRun(flags) < |flags| ==> !flags[|flags| - OpenRun(flags) - 1]
  {
    if flags != [] && flags[|flags| - 1] {
      OpenRunIs(flags[..|flags| - 1]);
    }
  }

  ghost predicate InOrder(spans: seq<Span>, limit: int) {
    && (forall i, j :: 0 <= i < j < |spans| ==> spans[i].end < spans[j].first)
    && (forall i :: 0 <= i < |spans| ==> spans[i].end <= limit)
  }

  lemma {:induction false} ClosedRunsInOrder(flags: seq<bool>, stackLen: nat)
    requires stackLen >= 1
    ensures InOrder(ClosedRuns(flags, stackLen), |flags| - OpenRun(flags) - 1)
  {
    if flags != [] { ClosedRunsInOrder(flags[..|flags| - 1], stackLen); }
  }

  /** Closed runs are exactly the maximal runs of sufficient length that end before the last row. */
  lemma {:induction false} ClosedRunsExact(flags: seq<bool>, stackLen: nat)
    requires stackLen >= 1
    ensures forall s :: s in ClosedRuns(flags, stackLen) <==>
              MaximalRun(flags, s) && s.end < |flags| && s.end - s.first >= stackLen
  {
    if flags != [] {
      var n := |flags| - 1;
      var init := flags[..n];
      ClosedRunsExact(init, stackLen);
      OpenRunIs(init);
      forall s
        ensures s in ClosedRuns(flags, stackLen) <==>
                  MaximalRun(flags, s) && s.end < |flags| && s.end - s.first >= stackLen
      {
        ExtendedRun(flags, s);
        if s.end == n && !flags[n] {
          RunAtEnd(init, s);
        }
      }
    }
  }

  lemma ExtendedRun(flags: seq<bool>, s: Span)
    requires flags != []
    ensures var init := flags[..|flags| - 1];
            s.end < |init| ==> (MaximalRun(flags, s) <==> MaximalRun(init, s))
    ensures var init := flags[..|flags| - 1];
            s.end == |init| && !flags[|init|] ==> (MaximalRun(flags, s) <==> MaximalRun(init, s))
    ensures s.end == |flags| - 1 && flags[|flags| - 1] ==> !MaximalRun(flags, s)
  {
  }

  /** The only maximal run touching the end is the open one. */
  lemma RunAtEnd(flags: seq<bool>, s: Span)
    requires s.end == |flags|
    ensures MaximalRun(flags, s) <==> OpenRun(flags) > 0 && s.first == |flags| - OpenRun(flags)
  {
    OpenRunIs(flags);
    var open := |flags| - OpenRun(flags);
    if MaximalRun(flags, s) {
      assert s.first <= open;
      assert open <= s.first;
    }
  }

  /** Every maximal run of at least `stackLen` adjacent flagged rows is reported once, in
      order, and nothing else is. */
  lemma StackRunsExact(flags: seq<bool>, stackLen: nat)
    requires stackLen >= 1
    ensures InOrder(StackRuns(flags, stackLen), |flags|)
    ensures forall s :: s in StackRuns(flags, stackLen) <==> MaximalRun(flags, s) && s.end - s.first >= stackLen
  {
    ClosedRunsInOrder(flags, stackLen);
    ClosedRunsExact(flags, stackLen);
    forall s
      ensures s in StackRuns(flags, stackLen) <==> MaximalRun(flags, s) && s.end - s.first >= stackLen
    {
      if s.end == |flags| {
        RunAtEnd(flags, s);
      }
    }
  }

  function LevelOf(rows: seq<Row>, side: Side, rowSize: real, s: Span): Level
    requires 0 <= s.first < s.end <= |rows|
  {
    Level(side, rows[s.first].price, rows[s.end - 1].price + rowSize, s.end - s.first)
  }

  function FlagsOf(rows: seq<Row>, side: Side): (f: seq<bool>)
    ensures |f| == |rows|
    ensures forall i :: 0 <= i < |f| ==> f[i] == if side == Buy then rows[i].buyImb else rows[i].sellImb
  {
    if rows == [] then []
    else
      var r := rows[|rows| - 1];
      FlagsOf(rows[..|rows| - 1], side) + [if side == Buy then r.buyImb else r.sellImb]
  }

  ghost predicate LevelsMatch(levels: seq<Level>, spans: seq<Span>, rows: seq<Row>, side: Side, rowSize: real) {
    && |levels| == |spans|
    && forall i :: 0 <= i < |spans| ==> 0 <= spans[i].first < spans[i].end <= |rows|
                                        && levels[i] == LevelOf(rows, side, rowSize, spans[i])
  }

  /** The level the code writes for a finished run, if it is long enough. */
  method Report(levels: seq<Level>, ghost spans: seq<Span>, run: seq<Row>, ghost rows: seq<Row>, ghost flags: seq<bool>,
                side: Side, rowSize: real, stackLen: nat) returns (levels': seq<Level>)
    requires stackLen >= 1 && |flags| <= |rows| && |run| == OpenRun(flags)
    requires run == rows[|flags| - |run|..|flags|]
    requires LevelsMatch(levels, spans, rows, side, rowSize)
    ensures LevelsMatch(levels', spans + Reported(flags, stackLen), rows, side, rowSize)
  {
    levels' := levels;
    if |run| >= stackLen {
      levels' := levels' + [Level(side, run[0].price, run[|run| - 1].price + rowSize, |run|)];
    }
  }

  lemma RunsSnoc(flags: seq<bool>, i: nat, stackLen: nat)
    requires i < |flags|
    ensures OpenRun(flags[..i + 1]) == if flags[i] then OpenRun(flags[..i]) + 1 else 0
    ensures ClosedRuns(flags[..i + 1], stackLen)
            == if flags[i] then ClosedRuns(flags[..i], stackLen) else ClosedRuns(flags[..i], stackLen) + Reported(flags[..i], stackLen)
  {
    assert flags[..i + 1][..i] == flags[..i];
  }

  lemma RunGrows(rows: seq<Row>, run: seq<Row>, i: nat)
    requires i < |rows| && |run| <= i && run == rows[i - |run|..i]
    ensures run + [rows[i]] == rows[i - |run|..i + 1]
  {
  }

  /** After `i` rows: the open run, and the levels of the runs already broken. */
  ghost predicate Collected(rows: seq<Row>, side: Side, rowSize: real, stackLen: nat, i: nat, run: seq<Row>, levels: seq<Level>)
    requires i <= |rows|
  {
    var flags := FlagsOf(rows, side)[..i];
    && |run| == OpenRun(flags) <= i && run == rows[i - |run|..i]
    && LevelsMatch(levels, ClosedRuns(flags, stackLen), rows, side, rowSize)
  }

  predicate Flagged(r: Row, side: Side) {
    if side == Buy then r.buyImb else r.sellImb
  }

  lemma JoinsRun(rows: seq<Row>, side: Side, rowSize: real, stackLen: nat, i: nat, run: seq<Row>, levels: seq<Level>)
    requires i < |rows| && Collected(rows, side, rowSize, stackLen, i, run, levels) && Flagged(rows[i], side)
    ensures Collected(rows, side, rowSize, stackLen, i + 1, run + [rows[i]], levels)
  {
    RunsSnoc(FlagsOf(rows, side), i, stackLen);
    RunGrows(rows, run, i);
  }

  /** A row without the flag breaks the current run and has it reported. */
  method BreakRun(rows: seq<Row>, side: Side, rowSize: real, stackLen: nat, i: nat, run: seq<Row>, levels: seq<Level>)
    returns (levels': seq<Level>)
    requires stackLen >= 1 && i < |rows| && Collected(rows, side, rowSize, stackLen, i, run, levels) && !Flagged(rows[i], side)
    ensures Collected(rows, side, rowSize, stackLen, i + 1, [], levels')
  {
    ghost var flags := FlagsOf(rows, side);
    RunsSnoc(flags, i, stackLen);
    levels' := Report(levels, ClosedRuns(flags[..i], stackLen), run, rows, flags[..i], side, rowSize, stackLen);
  }

  /** The run still open after the last row is reported too. */
  method EndRun(rows: seq<Row>, side: Side, rowSize: real, stackLen: nat, run: seq<Row>, levels: seq<Level>)
    returns (levels': seq<Level>)
    requires stackLen >= 1 && Collected(rows, side, rowSize, stackLen, |rows|, run, levels)
    ensures LevelsMatch(levels', StackRuns(FlagsOf(rows, side), stackLen), rows, side, rowSize)
  {
    ghost var flags := FlagsOf(rows, side);
    assert flags[..|rows|] == flags;
    levels' := Report(levels, ClosedRuns(flags, stackLen), run, rows, flags, side, rowSize, stackLen);
  }

  lemma NothingCollected(rows: seq<Row>, side: Side, rowSize: real, stackLen: nat)
    ensures Collected(rows, side, rowSize, stackLen, 0, [], [])
  {
  }

  /** One side of one bar: collect the current run, report it when a row breaks it. */
  method SideLevels(rows: seq<Row>, side: Side, rowSize: real, stackLen: nat) returns (levels: seq<Level>)
    requires stackLen >= 1
    ensures LevelsMatch(levels, StackRuns(FlagsOf(rows, side), stackLen), rows, side, rowSize)
  {
    levels := [];
    var run: seq<Row> := [];
    NothingCollected(rows, side, rowSize, stackLen);
    for i := 0 to |rows|
      invariant Collected(rows, side, rowSize, stackLen, i, run, levels)
    {
      if Flagged(rows[i], side) {
        JoinsRun(rows, side, rowSize, stackLen, i, run, levels);
        run := run + [rows[i]];
      } else {
        levels := BreakRun(rows, side, rowSize, stackLen, i, run, levels);
        run := [];
      }
    }
    levels := EndRun(rows, side, rowSize, stackLen, run, levels);
  }

  lemma LoadedLaddered(bar: StoredBar, ratio: real, minCellPct: real, rows: seq<Row>, volume: real)
    requires Loaded(bar, ratio, minCellPct, rows, volume)
    ensures Laddered(rows, bar.rowSize)
  {
    var cells := ByRow(bar.cells, bar.rowSize);
    var order := Ascending(cells.Keys);
    AscendingSorts(cells.Keys);
    if rows != [] {
      FlaggedLaddered(cells, order, FirstHeaviest(order, cells), bar.rowSize, ratio, volume * minCellPct / 100.0, rows);
    }
  }

  lemma FlaggedLaddered(cells: map<int, Cell>, order: seq<int>, poc: int, rowSize: PosReal, ratio: real, minCell: real, rows: seq<Row>)
    requires FlaggedOver(cells, order, poc, rowSize, ratio, minCell, rows)
    requires forall i, j :: 0 <= i < j < |order| ==> order[i] < order[j]
    ensures Laddered(rows, rowSize)
  {
  }

  /** No price row without trades lies inside the span. */
  ghost predicate NoGap(rows: seq<Row>, s: Span)
    requires 0 <= s.first < s.end <= |rows|
  {
    forall i :: s.first < i < s.end ==> rows[i].row == rows[i - 1].row + 1
  }

  /** Rows of a ladder climb at least one price row at a time, and no more only without a gap. */
  lemma {:induction false} Climb(rows: seq<Row>, rowSize: real, s: Span)
    requires Laddered(rows, rowSize) && 0 <= s.first < s.end <= |rows|
    ensures rows[s.end - 1].row - rows[s.first].row >= s.end - 1 - s.first
    ensures rows[s.end - 1].row - rows[s.first].row == s.end - 1 - s.first <==> NoGap(rows, s)
    decreases s.end
  {
    if s.end - 1 > s.first {
      var shorter := Span(s.first, s.end - 1);
      Climb(rows, rowSize, shorter);
      assert rows[s.end - 2].row < rows[s.end - 1].row;
      assert NoGap(rows, s) <==> NoGap(rows, shorter) && rows[s.end - 1].row == rows[s.end - 2].row + 1;
    }
  }

  /** A level is at least as high as its rows, and exactly as high when they have no gap. */
  lemma LevelHeightWhen(rows: seq<Row>, side: Side, rowSize: real, s: Span)
    requires Laddered(rows, rowSize) && rowSize > 0.0 && 0 <= s.first < s.end <= |rows|
    ensures var l := LevelOf(rows, side, rowSize, s);
            && l.high - l.low >= l.rows as real * rowSize
            && (l.high - l.low == l.rows as real * rowSize <==> NoGap(rows, s))
  {
    Climb(rows, rowSize, s);
    var climb := rows[s.end - 1].row - rows[s.first].row + 1;
    TimesGrows(s.end - s.first, climb, rowSize);
    TimesAdds(rows[s.first].row, rows[s.end - 1].row, rowSize);
  }

  lemma TimesGrows(a: int, b: int, x: real)
    requires a <= b && x > 0.0
    ensures a as real * x <= b as real * x && (a as real * x == b as real * x <==> a == b)
  {
    if a < b {
      assert (b - a) as real * x > 0.0;
    }
  }

  lemma TimesAdds(a: int, b: int, x: real)
    ensures b as real * x + x - a as real * x == (b - a + 1) as real * x
  {
  }

  /** Three rows flagged in a row of the list, with one untraded between them: the level is four
      price rows high. */
  lemma GappedLevel()
    ensures var cells := map[11 := Cell(1.0, 0.0), 12 := Cell(0.0, 5.0), 13 := Cell(0.0, 5.0), 15 := Cell(0.0, 5.0)];
            var rows := [FlagRow(cells, 11, 11, 15, 12, 1.0, 3.0, 1.0), FlagRow(cells, 12, 11, 15, 12, 1.0, 3.0, 1.0),
                         FlagRow(cells, 13, 11, 15, 12, 1.0, 3.0, 1.0), FlagRow(cells, 15, 11, 15, 12, 1.0, 3.0, 1.0)];
            && MaximalRun(FlagsOf(rows, Buy), Span(1, 4))
            && LevelOf(rows, Buy, 1.0, Span(1, 4)) == Level(Buy, 12.0, 16.0, 3)
  {
  }

  // ---- Display grid ----

  function CeilDiv(a: int, b: int): int
    requires b > 0
  {
    -((-a) / b)
  }

  function GroupSize(span: int, maxRows: int): int
    requires maxRows > 0
  {
    MaxInt(1, CeilDiv(span, maxRows))
  }

  lemma CeilDivBounds(a: int, b: int)
    requires b > 0
    ensures (CeilDiv(a, b) - 1) * b < a <= CeilDiv(a, b) * b
  {
  }

  lemma CancelMul(x: int, y: int, b: int)
    requires b > 0 && x * b < y * b
    ensures x < y
  {
  }

  lemma CeilDivLeast(a: int, b: int, n: int)
    requires b > 0 && a <= n * b
    ensures CeilDiv(a, b) <= n
  {
    CeilDivBounds(a, b);
    CancelMul(CeilDiv(a, b) - 1, n, b);
  }

  lemma GroupCovers(span: int, maxRows: int)
    requires maxRows > 0
    ensures span <= maxRows * GroupSize(span, maxRows)
  {
  }

  lemma DivBelowCeil(x: int, span: int, group: int)
    requires group > 0 && 0 <= x < span
    ensures 0 <= x / group < CeilDiv(span, group)
  {
  }

  /** Merging keeps the ladder within `maxRows` display rows and puts every price row on one of them. */
  lemma GridFits(lo: int, hi: int, maxRows: int, row: int)
    requires lo <= row <= hi && maxRows > 0
    ensures var group := GroupSize(hi - lo + 1, maxRows);
            var n := CeilDiv(hi - lo + 1, group);
            1 <= n <= maxRows && 0 <= (row - lo) / group < n
  {
    var span := hi - lo + 1;
    GroupCovers(span, maxRows);
    CeilDivLeast(span, GroupSize(span, maxRows), maxRows);
    DivBelowCeil(row - lo, span, GroupSize(span, maxRows));
  }

  datatype GridCell = GridCell(bid: real, ask: real, buyImb: bool, sellImb: bool, poc: bool)

  function Display(r: Row, lo: int, group: int): int
    requires group > 0
  {
    (r.row - lo) / group
  }

  function GridBids(g: map<int, GridCell>): map<int, real> {
    map d | d in g :: g[d].bid
  }

  function GridAsks(g: map<int, GridCell>): map<int, real> {
    map d | d in g :: g[d].ask
  }

  function RowBids(rows: seq<Row>): real {
    if rows == [] then 0.0 else RowBids(rows[..|rows| - 1]) + rows[|rows| - 1].bid
  }

  function RowAsks(rows: seq<Row>): real {
    if rows == [] then 0.0 else RowAsks(rows[..|rows| - 1]) + rows[|rows| - 1].ask
  }

  datatype Mark = AnyRow | BuyMark | SellMark | PocMark

  predicate Carries(r: Row, m: Mark) {
    match m
    case AnyRow => true
    case BuyMark => r.buyImb
    case SellMark => r.sellImb
    case PocMark => r.poc
  }

  /** Some row that lands on display cell `d` carries the mark. */
  predicate Marked(rows: seq<Row>, lo: int, group: int, d: int, m: Mark)
    requires group > 0
  {
    rows != [] &&
    (Marked(rows[..|rows| - 1], lo, group, d, m)
     || (Display(rows[|rows| - 1], lo, group) == d && Carries(rows[|rows| - 1], m)))
  }

  lemma {:induction false} MarkedIs(rows: seq<Row>, lo: int, group: int, d: int, m: Mark)
    requires group > 0
    ensures Marked(rows, lo, group, d, m) <==>
              exists i :: 0 <= i < |rows| && Display(rows[i], lo, group) == d && Carries(rows[i], m)
  {
    if rows != [] {
      var init := rows[..|rows| - 1];
      MarkedIs(init, lo, group, d, m);
      assert forall i :: 0 <= i < |init| ==> init[i] == rows[i];
    }
  }

  /** A display cell exists exactly where some row lands, and shows a mark exactly when one
      of its rows has it. */
  ghost predicate MarkedAt(g: map<int, GridCell>, rows: seq<Row>, lo: int, group: int, d: int)
    requires group > 0
  {
    && (d in g <==> Marked(rows, lo, group, d, AnyRow))
    && (d in g ==>
          && (g[d].buyImb <==> Marked(rows, lo, group, d, BuyMark))
          && (g[d].sellImb <==> Marked(rows, lo, group, d, SellMark))
          && (g[d].poc <==> Marked(rows, lo, group, d, PocMark)))
  }

  ghost predicate MarksMerged(g: map<int, GridCell>, rows: seq<Row>, lo: int, group: int)
    requires group > 0
  {
    forall d :: MarkedAt(g, rows, lo, group, d)
  }

  function Merged(g: map<int, GridCell>, r: Row, d: int): map<int, GridCell> {
    var c := if d in g then g[d] else GridCell(0.0, 0.0, false, false, false);
    g[d := GridCell(c.bid + r.bid, c.ask + r.ask, c.buyImb || r.buyImb, c.sellImb || r.sellImb, c.poc || r.poc)]
  }

  lemma MergedSums(g: map<int, GridCell>, r: Row, d: int)
    ensures SumMap(GridBids(Merged(g, r, d))) == SumMap(GridBids(g)) + r.bid
    ensures SumMap(GridAsks(Merged(g, r, d))) == SumMap(GridAsks(g)) + r.ask
  {
    var g' := Merged(g, r, d);
    assert GridBids(g') == GridBids(g)[d := g'[d].bid];
    assert GridAsks(g') == GridAsks(g)[d := g'[d].ask];
    SumMapUpdate(GridBids(g), d, g'[d].bid);
    SumMapUpdate(GridAsks(g), d, g'[d].ask);
  }

  lemma {:induction false} MarkedNeedsRow(rows: seq<Row>, lo: int, group: int, d: int, m: Mark)
    requires group > 0 && Marked(rows, lo, group, d, m)
    ensures Marked(rows, lo, group, d, AnyRow)
  {
    if Marked(rows[..|rows| - 1], lo, group, d, m) { MarkedNeedsRow(rows[..|rows| - 1], lo, group, d, m); }
  }

  lemma MarkedSnoc(rows: seq<Row>, r: Row, lo: int, group: int, d: int, m: Mark)
    requires group > 0
    ensures Marked(rows + [r], lo, group, d, m) <==> Marked(rows, lo, group, d, m) || (Display(r, lo, group) == d && Carries(r, m))
    ensures Marked(rows, lo, group, d, m) ==> Marked(rows, lo, group, d, AnyRow)
  {
    assert (rows + [r])[..|rows|] == rows;
    if Marked(rows, lo, group, d, m) { MarkedNeedsRow(rows, lo, group, d, m); }
  }

  lemma MergedMarks(g: map<int, GridCell>, rows: seq<Row>, r: Row, lo: int, group: int)
    requires group > 0 && MarksMerged(g, rows, lo, group)
    ensures MarksMerged(Merged(g, r, Display(r, lo, group)), rows + [r], lo, group)
  {
    forall d: int
      ensures MarkedAt(Merged(g, r, Display(r, lo, group)), rows + [r], lo, group, d)
    {
      MarkedSnoc(rows, r, lo, group, d, AnyRow);
      MarkedSnoc(rows, r, lo, group, d, BuyMark);
      MarkedSnoc(rows, r, lo, group, d, SellMark);
      MarkedSnoc(rows, r, lo, group, d, PocMark);
      assert MarkedAt(g, rows, lo, group, d);
    }
  }

  lemma RowSums(rows: seq<Row>, i: nat)
    requires i < |rows|
    ensures rows[..i + 1] == rows[..i] + [rows[i]]
    ensures RowBids(rows[..i + 1]) == RowBids(rows[..i]) + rows[i].bid
    ensures RowAsks(rows[..i + 1]) == RowAsks(rows[..i]) + rows[i].ask
  {
  }

  method AddRow(g: map<int, GridCell>, r: Row, d: int) returns (g': map<int, GridCell>)
    ensures g' == Merged(g, r, d)
  {
    g' := g;
    if d !in g' {
      g' := g'[d := GridCell(0.0, 0.0, false, false, false)];
    }
    var c := g'[d];
    g' := g'[d := GridCell(c.bid + r.bid, c.ask + r.ask, c.buyImb || r.buyImb, c.sellImb || r.sellImb, c.poc || r.poc)];
    assert g' == Merged(g, r, d);
  }

  /** One bar's display cells: totals are preserved, marks are merged. */
  method MergeBar(rows: seq<Row>, lo: int, group: int) returns (g: map<int, GridCell>)
    requires group > 0
    ensures SumMap(GridBids(g)) == RowBids(rows) && SumMap(GridAsks(g)) == RowAsks(rows)
    ensures MarksMerged(g, rows, lo, group)
  {
    g := map[];
    SumMapZero(GridBids(g));
    SumMapZero(GridAsks(g));
    for i := 0 to |rows|
      invariant SumMap(GridBids(g)) == RowBids(rows[..i]) && SumMap(GridAsks(g)) == RowAsks(rows[..i])
      invariant MarksMerged(g, rows[..i], lo, group)
    {
      var r := rows[i];
      RowSums(rows, i);
      MergedSums(g, r, Display(r, lo, group));
      MergedMarks(g, rows[..i], r, lo, group);
      g := AddRow(g, r, Display(r, lo, group));
    }
    assert rows[..|rows|] == rows;
  }

  lemma {:induction false} RowsTotal(rows: seq<Row>, order: seq<int>, cells: map<int, Cell>)
    requires |rows| == |order|
    requires forall i :: 0 <= i < |rows| ==> rows[i].bid == CellAt(cells, order[i]).bid
                                             && rows[i].ask == CellAt(cells, order[i]).ask
    ensures RowBids(rows) + RowAsks(rows) == TotalOver(order, cells)
  {
    if rows != [] {
      RowsTotal(rows[..|rows| - 1], order[..|rows| - 1], cells);
    }
  }

  /** From recorder to screen: store a balanced bar, load it, merge it, and the display cells
      add up to the volume traded in it. */
  method ShowBar(k: Key, ghost b: BarV, stored: StoredBar, ratio: real, minCellPct: real, lo: int, group: int)
    returns (g: map<int, GridCell>)
    requires b.cells != map[] && Balanced(b) && stored == Store(k, b) && group > 0
    ensures SumMap(GridBids(g)) + SumMap(GridAsks(g)) == b.Volume()
  {
    var rows, volume := LoadBar(stored, ratio, minCellPct);
    ghost var cells := ByRow(stored.cells, stored.rowSize);
    VolumeSurvivesStorage(k, b, cells);
    RowsTotal(rows, Ascending(cells.Keys), cells);
    g := MergeBar(rows, lo, group);
  }

  // ---- Session strip ----

  function Buys(bars: seq<StoredBar>): real {
    if bars == [] then 0.0 else Buys(bars[..|bars| - 1]) + bars[|bars| - 1].buyQty
  }

  function Sells(bars: seq<StoredBar>): real {
    if bars == [] then 0.0 else Sells(bars[..|bars| - 1]) + bars[|bars| - 1].sellQty
  }

  /** Total buys, total sells, and the path of the running delta: at each bar all buys so far
      minus all sells, so that it ends at the difference of the totals. */
  method SessionStats(bars: seq<StoredBar>) returns (buy: real, sell: real, cvd: seq<real>)
    ensures buy == Buys(bars) && sell == Sells(bars)
    ensures |cvd| == |bars| && forall i :: 0 <= i < |cvd| ==> cvd[i] == Buys(bars[..i + 1]) - Sells(bars[..i + 1])
    ensures buy - sell == if cvd == [] then 0.0 else cvd[|cvd| - 1]
  {
    buy, sell, cvd := 0.0, 0.0, [];
    var running := 0.0;
    for i := 0 to |bars|
      invariant |cvd| == i && forall j :: 0 <= j < i ==> cvd[j] == Buys(bars[..j + 1]) - Sells(bars[..j + 1])
      invariant buy == Buys(bars[..i]) && sell == Sells(bars[..i]) && running == buy - sell
    {
      assert bars[..i + 1][..i] == bars[..i];
      buy := buy + bars[i].buyQty;
      sell := sell + bars[i].sellQty;
      running := running + (bars[i].buyQty - bars[i].sellQty);
      cvd := cvd + [running];
    }
    assert bars[..|bars|] == bars;
  }
}
