/** Simulated exits of paper positions (app/paper_trading.py): bands, end of day, paired legs. */
module PaperMonitor {
  import opened Nums

  datatype Reason = SlHit | TargetHit | EndOfDay | PairedExit

  datatype Band = Band(sl: real, target: real)

  /** An open paper position with its simulated band, this minute's price if quoted, whether its
      end-of-day time has passed, and the straddle it belongs to. */
  datatype Row = Row(id: int, straddle: Option<string>, sells: bool, band: Option<Band>, ltp: Option<real>, pastClose: bool)

  datatype Closing = Closing(id: int, exit: real, reason: Reason)

  /** Why a quoted position exits on its own account. */
  function OwnReason(r: Row, ltp: real): Option<Reason> {
    if r.band.Some? && (if r.sells then ltp >= r.band.value.sl else ltp <= r.band.value.sl) then Some(SlHit)
    else if r.band.Some? && (if r.sells then ltp <= r.band.value.target else ltp >= r.band.value.target) then Some(TargetHit)
    else if r.pastClose then Some(EndOfDay)
    else None
  }

  /** In prices: a bought position is stopped at or below its stop and else taken at or above its
      target, a sold one at or above its stop and else at or below its target; only one that neither
      stops nor takes is closed by the end of its day. */
  lemma ExitsWhen(r: Row, ltp: real)
    ensures OwnReason(r, ltp) == Some(SlHit) <==>
              r.band.Some? && ((!r.sells && ltp <= r.band.value.sl) || (r.sells && ltp >= r.band.value.sl))
    ensures OwnReason(r, ltp) == Some(TargetHit) <==>
              r.band.Some? && ((!r.sells && r.band.value.sl < ltp && ltp >= r.band.value.target)
                               || (r.sells && r.band.value.sl > ltp && ltp <= r.band.value.target))
    ensures OwnReason(r, ltp) == Some(EndOfDay) <==>
              && r.pastClose
              && (r.band.Some? ==> if r.sells then r.band.value.target < ltp < r.band.value.sl else r.band.value.sl < ltp < r.band.value.target)
    ensures OwnReason(r, ltp) != Some(PairedExit)
  {
  }

  predicate OwnExit(r: Row) {
    r.ltp.Some? && OwnReason(r, r.ltp.value).Some?
  }

  /** Its band was hit, so its straddle comes off with it. */
  predicate PullsStraddle(r: Row) {
    OwnExit(r) && OwnReason(r, r.ltp.value).value != EndOfDay && r.straddle.Some?
  }

  ghost predicate Paired(rows: seq<Row>, r: Row) {
    r.ltp.Some? && exists k :: 0 <= k < |rows| && PullsStraddle(rows[k]) && rows[k].straddle == r.straddle
  }

  ghost predicate Distinct(rows: seq<Row>) {
    forall i, j :: 0 <= i < j < |rows| ==> rows[i].id != rows[j].id
  }

  /** The one closing a position gets, if any. */
  ghost predicate ClosedAs(rows: seq<Row>, r: Row, c: Closing) {
    && c.id == r.id && r.ltp.Some? && c.exit == r.ltp.value
    && (if OwnExit(r) then Some(c.reason) == OwnReason(r, r.ltp.value) else Paired(rows, r) && c.reason == PairedExit)
  }

  predicate HasId(closings: seq<Closing>, id: int) {
    exists k :: 0 <= k < |closings| && closings[k].id == id
  }

  ghost predicate OnceEach(closings: seq<Closing>) {
    forall i, j :: 0 <= i < j < |closings| ==> closings[i].id != closings[j].id
  }

  /** Every closing is some row's, for a reason it really has. */
  ghost predicate Justified(rows: seq<Row>, closings: seq<Closing>) {
    forall k :: 0 <= k < |closings| ==> exists i :: 0 <= i < |rows| && ClosedAs(rows, rows[i], closings[k])
  }

  /** The ids among the first `n` rows that satisfy `p`. */
  ghost function IdsWhere(rows: seq<Row>, p: Row -> bool, n: nat): set<int>
    requires n <= |rows|
  {
    if n == 0 then {} else IdsWhere(rows, p, n - 1) + (if p(rows[n - 1]) then {rows[n - 1].id} else {})
  }

  lemma {:induction false} IdsWhereIs(rows: seq<Row>, p: Row -> bool, n: nat, j: nat)
    requires Distinct(rows) && n <= |rows| && j < |rows|
    ensures rows[j].id in IdsWhere(rows, p, n) <==> j < n && p(rows[j])
  {
    if n > 0 { IdsWhereIs(rows, p, n - 1, j); }
  }

  /** What has been written so far, and the set of position ids it closes. */
  ghost predicate Booked(rows: seq<Row>, closings: seq<Closing>, closed: set<int>) {
    && OnceEach(closings) && Justified(rows, closings)
    && forall id :: id in closed <==> HasId(closings, id)
  }

  /** Close one position that is not closed yet. */
  method Close(rows: seq<Row>, ghost i: nat, c: Closing, closings: seq<Closing>, closed: set<int>)
    returns (closings': seq<Closing>, closed': set<int>)
    requires Booked(rows, closings, closed) && c.id !in closed && i < |rows| && ClosedAs(rows, rows[i], c)
    ensures Booked(rows, closings', closed') && closed' == closed + {c.id}
  {
    closings', closed' := closings + [c], closed + {c.id};
    forall k | 0 <= k < |closings|
      ensures closings'[k].id != c.id
    {
      assert closings'[k] == closings[k] && HasId(closings, closings[k].id);
    }
    forall id
      ensures HasId(closings', id) <==> HasId(closings, id) || id == c.id
    {
      if HasId(closings, id) {
        var k :| 0 <= k < |closings| && closings[k].id == id;
        assert closings'[k].id == id;
      }
      assert closings'[|closings|].id == c.id;
    }
    forall k | 0 <= k < |closings'|
      ensures exists i :: 0 <= i < |rows| && ClosedAs(rows, rows[i], closings'[k])
    {
      if k < |closings| { assert closings'[k] == closings[k]; } else { assert ClosedAs(rows, rows[i], closings'[k]); }
    }
  }

  /** One minute: each position is closed at most once, at its quote; it is closed exactly when
      it is quoted and either exits on its own account or a leg of its straddle hit its band. */
  method Monitor(rows: seq<Row>) returns (closings: seq<Closing>)
    requires Distinct(rows)
    ensures OnceEach(closings) && Justified(rows, closings)
    ensures forall i :: 0 <= i < |rows| ==> (HasId(closings, rows[i].id) <==> OwnExit(rows[i]) || Paired(rows, rows[i]))
  {
    var closed: set<int>, pulled: seq<string>;
    closings, closed, pulled := OwnExits(rows);
    for p := 0 to |pulled|
      invariant Booked(rows, closings, closed)
      invariant forall j :: 0 <= j < |rows| ==> (rows[j].id in closed <==> OwnExit(rows[j]) || Drawn(rows[j], pulled[..p]))
    {
      assert pulled[..p + 1] == pulled[..p] + [pulled[p]];
      closings, closed := ClosePair(rows, pulled[p], closings, closed);
    }
    assert pulled[..|pulled|] == pulled;
    PulledIsPaired(rows, pulled);
  }

  /** The main pass: positions that exit on their own account, and the straddles that pulls. */
  method OwnExits(rows: seq<Row>) returns (closings: seq<Closing>, closed: set<int>, pulled: seq<string>)
    requires Distinct(rows)
    ensures Booked(rows, closings, closed)
    ensures forall j :: 0 <= j < |rows| ==> (rows[j].id in closed <==> OwnExit(rows[j]))
    ensures forall t :: t in pulled <==> PulledBy(rows, t)
  {
    closings, closed, pulled := [], {}, [];
    for i := 0 to |rows|
      invariant Booked(rows, closings, closed) && closed == IdsWhere(rows, OwnExit, i)
      invariant forall t :: t in pulled <==> PulledBy(rows[..i], t)
    {
      var r := rows[i];
      PulledSnoc(rows, i);
      IdsWhereIs(rows, OwnExit, i, i);
      if r.ltp.Some? {
        var reason := OwnReason(r, r.ltp.value);
        if reason.Some? {
          closings, closed := Close(rows, i, Closing(r.id, r.ltp.value, reason.value), closings, closed);
          if r.straddle.Some? && reason.value != EndOfDay {
            pulled := pulled + [r.straddle.value];
          }
        }
      }
    }
    assert rows[..|rows|] == rows;
    forall j | 0 <= j < |rows|
      ensures rows[j].id in closed <==> OwnExit(rows[j])
    {
      IdsWhereIs(rows, OwnExit, |rows|, j);
    }
  }

  predicate LegOf(r: Row, straddle: string) {
    r.straddle == Some(straddle) && r.ltp.Some?
  }

  /** A quoted leg of one of these straddles. */
  predicate Drawn(r: Row, straddles: seq<string>) {
    r.ltp.Some? && r.straddle.Some? && r.straddle.value in straddles
  }

  ghost predicate PulledBy(rows: seq<Row>, t: string) {
    exists k :: 0 <= k < |rows| && PullsStraddle(rows[k]) && rows[k].straddle == Some(t)
  }

  lemma PulledSnoc(rows: seq<Row>, i: nat)
    requires i < |rows|
    ensures forall t :: PulledBy(rows[..i + 1], t) <==> PulledBy(rows[..i], t) || (PullsStraddle(rows[i]) && rows[i].straddle == Some(t))
  {
  }

  lemma PulledIsPaired(rows: seq<Row>, pulled: seq<string>)
    requires forall t :: t in pulled <==> PulledBy(rows, t)
    ensures forall j :: 0 <= j < |rows| ==> (Drawn(rows[j], pulled) <==> Paired(rows, rows[j]))
  {
  }

  lemma PairClosing(rows: seq<Row>, r: Row, straddle: string)
    requires PulledBy(rows, straddle) && LegOf(r, straddle) && !OwnExit(r)
    ensures ClosedAs(rows, r, Closing(r.id, r.ltp.value, PairedExit))
  {
  }

  /** The paired-exit pass for one straddle that was pulled. */
  method ClosePair(rows: seq<Row>, straddle: string, start: seq<Closing>, startIds: set<int>)
    returns (closings: seq<Closing>, closed: set<int>)
    requires Distinct(rows) && Booked(rows, start, startIds) && PulledBy(rows, straddle)
    requires forall j :: 0 <= j < |rows| && OwnExit(rows[j]) ==> rows[j].id in startIds
    ensures Booked(rows, closings, closed)
    ensures forall j :: 0 <= j < |rows| ==> (rows[j].id in closed <==> rows[j].id in startIds || LegOf(rows[j], straddle))
  {
    closings, closed := start, startIds;
    ghost var leg := (r: Row) => LegOf(r, straddle);
    for i := 0 to |rows|
      invariant Booked(rows, closings, closed) && closed == startIds + IdsWhere(rows, leg, i)
    {
      assert OwnExit(rows[i]) ==> rows[i].id in closed;
      closings, closed := CloseLeg(rows, i, straddle, closings, closed);
    }
    LegsClosed(rows, straddle, leg);
  }

  lemma LegsClosed(rows: seq<Row>, straddle: string, leg: Row -> bool)
    requires Distinct(rows) && forall r :: leg(r) <==> LegOf(r, straddle)
    ensures forall j :: 0 <= j < |rows| ==> (rows[j].id in IdsWhere(rows, leg, |rows|) <==> LegOf(rows[j], straddle))
  {
    forall j | 0 <= j < |rows|
      ensures rows[j].id in IdsWhere(rows, leg, |rows|) <==> LegOf(rows[j], straddle)
    {
      IdsWhereIs(rows, leg, |rows|, j);
    }
  }

  /** One row of that pass: a quoted leg of the straddle is closed unless it already is. */
  method CloseLeg(rows: seq<Row>, i: nat, straddle: string, start: seq<Closing>, startIds: set<int>)
    returns (closings: seq<Closing>, closed: set<int>)
    requires i < |rows| && Booked(rows, start, startIds) && PulledBy(rows, straddle)
    requires OwnExit(rows[i]) ==> rows[i].id in startIds
    ensures Booked(rows, closings, closed)
    ensures closed == startIds + (if LegOf(rows[i], straddle) then {rows[i].id} else {})
  {
    closings, closed := start, startIds;
    var r := rows[i];
    if r.id !in closed && LegOf(r, straddle) {
      PairClosing(rows, r, straddle);
      closings, closed := Close(rows, i, Closing(r.id, r.ltp.value, PairedExit), closings, closed);
    }
  }

  /** So after a minute in which a leg of a straddle hit its band, no other leg of it is left
      open except one without a quote. */
  lemma NoQuotedLegLeft(rows: seq<Row>, closings: seq<Closing>, hit: nat, leg: nat)
    requires hit < |rows| && leg < |rows| && PullsStraddle(rows[hit]) && rows[leg].straddle == rows[hit].straddle
    requires HasId(closings, rows[leg].id) <==> OwnExit(rows[leg]) || Paired(rows, rows[leg])
    ensures HasId(closings, rows[leg].id) <==> rows[leg].ltp.Some?
  {
  }
}
