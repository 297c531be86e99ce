/** Finished bars as database rows: what a flush writes and what the read side gets back. */
module Storage {
  import opened Nums
  import opened Sums
  import opened OrderFlow
  import opened FootprintBars

  datatype StoredCell = StoredCell(price: real, bid: real, ask: real)

  datatype StoredBar = StoredBar(
    key: Key, barSeconds: int, rowSize: PosReal,
    open: real, high: real, low: real, close: real,
    buyQty: real, sellQty: real, maxDelta: real, minDelta: real,
    pocPrice: real, tickCount: int, cells: seq<StoredCell>)

  lemma {:induction false} FindMin(s: set<int>) returns (m: int)
    requires s != {}
    ensures m in s && forall x :: x in s ==> m <= x
    decreases |s|
  {
    m := Pick(s);
    var rest := s - {m};
    if rest != {} {
      var least := FindMin(rest);
      forall x | x in s
        ensures MinInt(m, least) <= x
      {
        if x != m { assert x in rest; }
      }
      m := MinInt(m, least);
    }
  }

  lemma MinExists(s: set<int>)
    requires s != {}
    ensures exists m :: m in s && forall x :: x in s ==> m <= x
  {
    var m := FindMin(s);
  }

  function MinOf(s: set<int>): (m: int)
    requires s != {}
    ensures m in s && forall x :: x in s ==> m <= x
  {
    MinExists(s);
    var m :| m in s && forall x :: x in s ==> m <= x;
    m
  }

  /** The elements of `s` in increasing order. */
  function Ascending(s: set<int>): seq<int>
    decreases |s|
  {
    if s == {} then []
    else
      var m := MinOf(s);
      [m] + Ascending(s - {m})
  }

  lemma {:induction false} AscendingSorts(s: set<int>)
    ensures forall x :: x in Ascending(s) <==> x in s
    ensures forall i, j :: 0 <= i < j < |Ascending(s)| ==> Ascending(s)[i] < Ascending(s)[j]
    decreases |s|
  {
    if s != {} {
      var m := MinOf(s);
      var rest := Ascending(s - {m});
      AscendingSorts(s - {m});
      assert Ascending(s) == [m] + rest;
      forall i, j | 0 <= i < j <= |rest|
        ensures ([m] + rest)[i] < ([m] + rest)[j]
      {
        assert rest[j - 1] in rest && rest[j - 1] in s - {m};
      }
      forall x
        ensures x in [m] + rest <==> x in s
      {
        assert x in [m] + rest <==> x == m || x in rest;
      }
    }
  }

  function CellAt(cells: map<int, Cell>, row: int): Cell {
    if row in cells then cells[row] else Cell(0.0, 0.0)
  }

  function Weight(cells: map<int, Cell>, row: int): real {
    CellAt(cells, row).bid + CellAt(cells, row).ask
  }

  /** Python's `max(rows, key=weight)`, which keeps the earlier of two equally heavy rows. */
  function FirstHeaviest(rows: seq<int>, cells: map<int, Cell>): int
    requires rows != []
  {
    if |rows| == 1 then rows[0]
    else
      var best := FirstHeaviest(rows[..|rows| - 1], cells);
      var last := rows[|rows| - 1];
      if Weight(cells, best) < Weight(cells, last) then last else best
  }

  /** It is one of the rows, none is heavier, and all before it are strictly lighter. */
  lemma {:induction false} FirstHeaviestIs(rows: seq<int>, cells: map<int, Cell>) returns (i: nat)
    requires rows != []
    ensures i < |rows| && rows[i] == FirstHeaviest(rows, cells)
    ensures forall j :: 0 <= j < i ==> Weight(cells, rows[j]) < Weight(cells, rows[i])
    ensures forall j :: i <= j < |rows| ==> Weight(cells, rows[j]) <= Weight(cells, rows[i])
  {
    var n := |rows| - 1;
    if n == 0 {
      i := 0;
    } else {
      var init := rows[..n];
      i := FirstHeaviestIs(init, cells);
      assert forall j :: 0 <= j < n ==> init[j] == rows[j];
      if Weight(cells, rows[i]) < Weight(cells, rows[n]) {
        i := n;
      }
    }
  }

  function StoredRow(cells: map<int, Cell>, row: int, rowSize: PosReal): StoredCell {
    StoredCell(row as real * rowSize, CellAt(cells, row).bid, CellAt(cells, row).ask)
  }

  function StoreCells(rows: seq<int>, cells: map<int, Cell>, rowSize: PosReal): seq<StoredCell> {
    if rows == [] then []
    else StoreCells(rows[..|rows| - 1], cells, rowSize) + [StoredRow(cells, rows[|rows| - 1], rowSize)]
  }

  lemma CoveredOrder(b: BarV)
    requires b.cells != map[] && OrderCovers(b)
    ensures b.order != []
    ensures forall i :: 0 <= i < |Ascending(b.cells.Keys)| ==> Ascending(b.cells.Keys)[i] in b.cells
    ensures Ascending(b.cells.Keys) != []
  {
    var rows := Ascending(b.cells.Keys);
    AscendingSorts(b.cells.Keys);
    var row := Pick(b.cells.Keys);
    assert row in b.order && row in rows;
    forall i | 0 <= i < |rows|
      ensures rows[i] in b.cells
    {
      assert rows[i] in rows;
    }
  }

  function Store(k: Key, b: BarV): StoredBar
    requires b.cells != map[] && OrderCovers(b)
  {
    CoveredOrder(b);
    StoredBar(k, b.barSeconds, b.rowSize, b.open, b.high, b.low, b.close, b.buyQty, b.sellQty,
              b.maxDelta, b.minDelta, FirstHeaviest(b.order, b.cells) as real * b.rowSize, b.tickCount,
              StoreCells(Ascending(b.cells.Keys), b.cells, b.rowSize))
  }

  /** Row index of a stored price, as the reader recovers it. */
  function RowIndex(price: real, rowSize: PosReal): int {
    Round(price / rowSize)
  }

  /** The reader's row table; a later cell replaces an earlier one on the same row. */
  function ByRow(cells: seq<StoredCell>, rowSize: PosReal): map<int, Cell> {
    if cells == [] then map[]
    else
      var c := cells[|cells| - 1];
      ByRow(cells[..|cells| - 1], rowSize)[RowIndex(c.price, rowSize) := Cell(c.bid, c.ask)]
  }

  lemma RowIndexRecovers(row: int, rowSize: PosReal)
    ensures RowIndex(row as real * rowSize, rowSize) == row
  {
    assert row as real * rowSize / rowSize == row as real;
  }

  lemma StoredRowIndex(cells: map<int, Cell>, row: int, rowSize: PosReal)
    ensures RowIndex(StoredRow(cells, row, rowSize).price, rowSize) == row
  {
    RowIndexRecovers(row, rowSize);
  }

  lemma ByRowAppend(cells: seq<StoredCell>, c: StoredCell, rowSize: PosReal)
    ensures ByRow(cells + [c], rowSize) == ByRow(cells, rowSize)[RowIndex(c.price, rowSize) := Cell(c.bid, c.ask)]
  {
  }

  /** The cells of the listed rows. */
  function CellsOn(rows: seq<int>, cells: map<int, Cell>): map<int, Cell> {
    map row | row in rows :: CellAt(cells, row)
  }

  lemma CellsOnSnoc(rows: seq<int>, row: int, cells: map<int, Cell>)
    ensures CellsOn(rows + [row], cells) == CellsOn(rows, cells)[row := CellAt(cells, row)]
  {
  }

  lemma {:induction false} ByRowRecovers(rows: seq<int>, cells: map<int, Cell>, rowSize: PosReal)
    ensures ByRow(StoreCells(rows, cells, rowSize), rowSize) == CellsOn(rows, cells)
  {
    if rows == [] {
      assert CellsOn(rows, cells) == map[];
    } else {
      var init, row := rows[..|rows| - 1], rows[|rows| - 1];
      assert rows == init + [row];
      ByRowRecovers(init, cells, rowSize);
      StoredRowIndex(cells, row, rowSize);
      ByRowAppend(StoreCells(init, cells, rowSize), StoredRow(cells, row, rowSize), rowSize);
      CellsOnSnoc(init, row, cells);
    }
  }

  /** Reading a stored bar gives back the very cells that were in memory. */
  lemma StoreRoundTrip(k: Key, b: BarV)
    requires b.cells != map[] && OrderCovers(b)
    ensures ByRow(Store(k, b).cells, b.rowSize) == b.cells
  {
    CoveredOrder(b);
    AscendingSorts(b.cells.Keys);
    ByRowRecovers(Ascending(b.cells.Keys), b.cells, b.rowSize);
  }

  /** The point of control as the reader computes it, from its rows in increasing order. */
  function ReaderPoc(cells: map<int, Cell>): int
    requires Ascending(cells.Keys) != []
  {
    FirstHeaviest(Ascending(cells.Keys), cells)
  }

  /** The reader's point of control is the lowest of the heaviest rows. */
  lemma ReaderPocIsLowest(cells: map<int, Cell>)
    requires Ascending(cells.Keys) != []
    ensures ReaderPoc(cells) in cells
    ensures forall row :: row in cells ==> Weight(cells, row) <= Weight(cells, ReaderPoc(cells))
    ensures forall row :: row in cells && row < ReaderPoc(cells) ==> Weight(cells, row) < Weight(cells, ReaderPoc(cells))
  {
    var rows := Ascending(cells.Keys);
    AscendingSorts(cells.Keys);
    var i := FirstHeaviestIs(rows, cells);
    assert rows[i] in rows;
    forall row | row in cells
      ensures Weight(cells, row) <= Weight(cells, rows[i])
      ensures row < rows[i] ==> Weight(cells, row) < Weight(cells, rows[i])
    {
      assert row in rows;
      var j :| 0 <= j < |rows| && rows[j] == row;
    }
  }

  /** The writer's point of control is a heaviest row too, but the one that traded first. */
  lemma WriterPocIsHeaviest(b: BarV)
    requires b.cells != map[] && OrderCovers(b) && b.order != []
    ensures FirstHeaviest(b.order, b.cells) in b.cells
    ensures forall row :: row in b.cells ==> Weight(b.cells, row) <= Weight(b.cells, FirstHeaviest(b.order, b.cells))
  {
    var i := FirstHeaviestIs(b.order, b.cells);
    assert b.order[i] in b.order;
    forall row | row in b.cells
      ensures Weight(b.cells, row) <= Weight(b.cells, b.order[i])
    {
      assert row in b.order;
      var j :| 0 <= j < |b.order| && b.order[j] == row;
    }
  }

  lemma SamePrice(r: int, r': int, rowSize: PosReal)
    ensures r as real * rowSize == r' as real * rowSize <==> r == r'
  {
  }

  /** The two coincide exactly when every row below the writer's is strictly lighter. */
  lemma PocAgreement(b: BarV)
    requires b.cells != map[] && OrderCovers(b)
    ensures b.order != [] && Ascending(b.cells.Keys) != []
    ensures var w, r := FirstHeaviest(b.order, b.cells), ReaderPoc(b.cells);
            w as real * b.rowSize == r as real * b.rowSize <==>
            forall row :: row in b.cells && row < w ==> Weight(b.cells, row) < Weight(b.cells, w)
  {
    CoveredOrder(b);
    ReaderPocIsLowest(b.cells);
    WriterPocIsHeaviest(b);
    SamePrice(FirstHeaviest(b.order, b.cells), ReaderPoc(b.cells), b.rowSize);
  }

  /** Two equally heavy rows traded from the top down: the stored POC is the upper row,
      the reader shows the lower. */
  lemma PocMayDisagree(b: BarV)
    requires b.cells == map[11 := Cell(0.0, 5.0), 10 := Cell(5.0, 0.0)] && b.order == [11, 10]
    ensures OrderCovers(b) && Ascending(b.cells.Keys) != []
    ensures FirstHeaviest(b.order, b.cells) == 11 && ReaderPoc(b.cells) == 10
  {
    assert 10 in b.cells;
    CoveredOrder(b);
    var i := FirstHeaviestIs(b.order, b.cells);
    assert i == 0;
    ReaderPocIsLowest(b.cells);
    assert 10 in b.cells;
  }
}
