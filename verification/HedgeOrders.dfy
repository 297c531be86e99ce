/** Placing a hedge (app/hedge_core.py): LIMIT escalating to MARKET, and the ladder of
    fallbacks when margin is short. */
module HedgeOrders {
  import opened Nums
  import opened HedgeSizing

  datatype Submit = Accepted | NoFunds | Error {
    function ToMode(): Mode {
      match this
      case Accepted => Market
      case NoFunds => InsufficientFunds
      case Error => Failed
    }
  }

  datatype Poll = Silent | Working | Complete | Dead

  datatype Mode = Limit | Market | InsufficientFunds | Failed {
    predicate Ok() { Limit? || Market? }
  }

  /** Outside world of one placement: whether a price was available, the LIMIT submission, the
      order statuses polled before the deadline, how much of the LIMIT filled all the same once
      it was given up, and the MARKET submission. */
  datatype Placement = Placement(priced: bool, limit: Submit, polls: seq<Poll>, strayFill: nat, market: Submit) {
    predicate LimitPlaced() {
      priced && limit.Accepted?
    }

    predicate LimitFills() {
      LimitPlaced() && exists k :: 0 <= k < |polls| && CompletesAt(polls, k)
    }

    function Outcome(): Mode {
      if LimitFills() then Limit
      else if priced && !limit.Accepted? then limit.ToMode()
      else market.ToMode()
    }

    /** Units filled behind the caller's back, by a LIMIT given up on. */
    function Stray(): nat {
      if LimitPlaced() && !LimitFills() then strayFill else 0
    }
  }

  predicate CompletesAt(polls: seq<Poll>, k: int) {
    0 <= k < |polls| && polls[k].Complete? && forall j :: 0 <= j < k ==> !polls[j].Complete? && !polls[j].Dead?
  }

  /** Returns the mode and the quantity that ends up filled at the broker: what was asked for on
      success and nothing on failure, but for a LIMIT that filled after it was given up. */
  method LimitThenMarket(qty: int, p: Placement) returns (mode: Mode, ghost filled: int)
    ensures mode == p.Outcome()
    ensures mode.Ok() <==> p.LimitFills() || ((p.priced ==> p.limit.Accepted?) && p.market.Accepted?)
    ensures mode == InsufficientFunds <==> !p.LimitFills() && (if p.priced && !p.limit.Accepted? then p.limit.NoFunds? else p.market.NoFunds?)
    ensures mode == Limit <==> p.LimitPlaced() && exists k :: 0 <= k < |p.polls| && CompletesAt(p.polls, k)
    ensures filled == (if mode.Ok() then qty else 0) + p.Stray()
    ensures filled == (if mode.Ok() then qty else 0) <==> mode == Limit || !p.LimitPlaced() || p.strayFill == 0
  {
    if !p.priced {
      return p.market.ToMode(), if p.market.Accepted? then qty else 0;
    }
    if !p.limit.Accepted? {
      return p.limit.ToMode(), 0;
    }
    var i := 0;
    while i < |p.polls|
      invariant 0 <= i <= |p.polls|
      invariant forall j :: 0 <= j < i ==> !p.polls[j].Complete? && !p.polls[j].Dead?
    {
      if p.polls[i] == Complete {
        assert CompletesAt(p.polls, i);
        return Limit, qty;
      }
      if p.polls[i] == Dead {
        break;
      }
      i := i + 1;
    }
    assert forall k :: k < i ==> !CompletesAt(p.polls, k);
    assert forall k :: k >= i ==> !CompletesAt(p.polls, k);
    mode := p.market.ToMode();
    filled := p.strayFill + if p.market.Accepted? then qty else 0;
  }

  // ---- The ladder ----

  datatype Kind = BuyBack | SellSame | SellRolled | BuyOpposite | Future

  /** An order that went through: what was traded, the delta of one unit of it, and the delta
      it added to the book. */
  datatype Fill = Fill(kind: Kind, buys: bool, lots: int, unit: real, added: real)

  /** What each rung finds: instruments, their solved deltas, and how the placement went. */
  datatype Rungs = Rungs(
    sell: Placement, farFromExpiry: bool, deepOtm: Option<real>, closeOtm: Placement,
    atm: Option<Option<real>>, sellAtm: Placement,
    opposite: Option<Option<real>>, buyOpposite: Placement,
    hasFuture: bool, tradeFuture: Placement)

  /** Calls have positive deltas and puts negative ones; the side sold matches the book's sign. */
  ghost predicate SameSide(total: real, delta: real) {
    if total > 0.0 then delta > 0.0 else delta < 0.0
  }

  ghost predicate SignsOk(total: real, chosen: real, r: Rungs) {
    && total != 0.0 && SameSide(total, chosen)
    && (r.deepOtm.Some? ==> SameSide(total, r.deepOtm.value))
    && (r.atm.Some? && r.atm.value.Some? ==> SameSide(total, r.atm.value.value))
    && (r.opposite.Some? && r.opposite.value.Some? ==> SameSide(-total, r.opposite.value.value))
  }

  function AddedBy(fills: seq<Fill>): real {
    if fills == [] then 0.0 else AddedBy(fills[..|fills| - 1]) + fills[|fills| - 1].added
  }

  datatype Sizing = Sizing(total: real, band: real, trigger: real, ratio: real, lotMult: int, cap: int) {
    ghost predicate Breached() {
      && band >= 0.0 && 0.0 <= ratio <= trigger && Abs(total) > trigger * band
      && lotMult >= 1 && cap >= 1
    }

    function Target(): real { Residual(ratio, band) }

    function Lots(deltaUnit: real): int {
      LotsFor(Abs(total) - Residual(ratio, band), deltaUnit, lotMult, cap)
    }

    /** Delta added by selling `n` lots of an option. */
    function Sold(n: int, deltaUnit: real): real { -(n as real * deltaUnit * lotMult as real) }
  }

  /** The order has the solved number of lots for its instrument, pushes the book toward zero and,
      sized from a breach, leaves it where it should. */
  ghost predicate WellSized(z: Sizing, f: Fill) {
    && f.lots == z.Lots(f.unit)
    && f.added == (if f.buys then z.Sold(f.lots, -f.unit) else z.Sold(f.lots, f.unit))
    && f.added == Push(z.total, f.lots, PerLot(f.unit, z.lotMult))
    && (z.Breached() ==> LandsWell(z.total, z.Target(), PerLot(f.unit, z.lotMult), f.lots, z.cap, z.total + f.added))
  }

  /** The bought-back lot and what it does to the book. */
  function BackFill(z: Sizing, r: Rungs): Fill
    requires r.deepOtm.Some?
  {
    Fill(BuyBack, true, 1, r.deepOtm.value, r.deepOtm.value * z.lotMult as real)
  }

  /** Delta of the at-the-money option, or of the one first chosen when it cannot be solved. */
  function RollUnit(chosen: real, r: Rungs): real
    requires r.atm.Some?
  {
    if r.atm.value.Some? then r.atm.value.value else chosen
  }

  /** Each kind of order trades the instrument its rung found, on the side its rung trades. */
  predicate Genuine(z: Sizing, chosen: real, r: Rungs, f: Fill) {
    match f.kind
    case BuyBack => r.deepOtm.Some? && f == BackFill(z, r)
    case SellSame => f.unit == chosen && !f.buys && r.sell.Outcome().Ok()
    case SellRolled => r.atm.Some? && f.unit == RollUnit(chosen, r) && !f.buys
    case BuyOpposite => r.opposite == Some(Some(f.unit)) && f.buys
    case Future => r.hasFuture && f.unit == 1.0 && f.buys == (z.total < 0.0)
  }

  lemma SoldPushes(z: Sizing, n: int, deltaUnit: real)
    requires z.total != 0.0 && SameSide(z.total, deltaUnit)
    ensures z.Sold(n, deltaUnit) == Push(z.total, n, PerLot(deltaUnit, z.lotMult))
  {
  }

  lemma PerLotPositive(deltaUnit: real, lotMult: int)
    requires deltaUnit != 0.0 && lotMult >= 1
    ensures PerLot(deltaUnit, lotMult) > 0.0
  {
  }

  lemma PushLands(z: Sizing, deltaUnit: real)
    requires z.Breached() && deltaUnit != 0.0
    ensures var per := PerLot(deltaUnit, z.lotMult);
            LandsWell(z.total, z.Target(), per, z.Lots(deltaUnit), z.cap, z.total + Push(z.total, z.Lots(deltaUnit), per))
  {
    PerLotPositive(deltaUnit, z.lotMult);
    HedgeLands(z.total, z.band, z.trigger, z.ratio, deltaUnit, z.lotMult, z.cap);
  }

  /** Selling the solved number of lots of a same-side option is well sized. */
  lemma SaleLands(z: Sizing, f: Fill)
    requires z.total != 0.0 && SameSide(z.total, f.unit) && !f.buys
    requires f.lots == z.Lots(f.unit) && f.added == z.Sold(f.lots, f.unit)
    ensures WellSized(z, f)
  {
    SoldPushes(z, f.lots, f.unit);
    if z.Breached() { PushLands(z, f.unit); }
  }

  /** And so does buying an option of the opposite side. */
  lemma PurchaseLands(z: Sizing, f: Fill)
    requires z.total != 0.0 && SameSide(z.total, -f.unit) && f.buys
    requires f.lots == z.Lots(f.unit) && f.added == z.Sold(f.lots, -f.unit)
    ensures WellSized(z, f)
  {
    SoldPushes(z, f.lots, -f.unit);
    assert PerLot(-f.unit, z.lotMult) == PerLot(f.unit, z.lotMult);
    if z.Breached() { PushLands(z, f.unit); }
  }

  /** One more order on top of `fills`, well sized. */
  ghost predicate Hedges(z: Sizing, fills: seq<Fill>, fills': seq<Fill>, projected: real) {
    && |fills'| == |fills| + 1 && fills <= fills' && WellSized(z, fills'[|fills|])
    && projected == z.total + fills'[|fills|].added
    && AddedBy(fills') == AddedBy(fills) + fills'[|fills|].added
  }

  lemma FillHedges(z: Sizing, fills: seq<Fill>, f: Fill)
    requires WellSized(z, f)
    ensures Hedges(z, fills, fills + [f], z.total + f.added)
  {
  }

  /** Delta of `n` units bought. */
  function Bought(z: Sizing, n: int, unit: real): real {
    n as real * unit * z.lotMult as real
  }

  lemma BoughtAdds(z: Sizing, n: int, m: int, unit: real)
    ensures Bought(z, n + m, unit) == Bought(z, n, unit) + Bought(z, m, unit)
    ensures Bought(z, n, -unit) == -Bought(z, n, unit)
    ensures Bought(z, 0, unit) == 0.0
  {
  }

  /** An order of one rung placed: hedged with it, or left as before; `held`, the delta really on
      the book, moves by the order and by what its given-up LIMIT filled. */
  ghost predicate Placed(z: Sizing, p: Placement, unit: real, fills: seq<Fill>, held: real,
                         mode: Mode, projected: real, fills': seq<Fill>, held': real) {
    && mode == p.Outcome()
    && (if mode.Ok() then Hedges(z, fills, fills', projected) else fills' == fills && projected == z.total)
    && held' - AddedBy(fills') == held - AddedBy(fills) + Bought(z, p.Stray(), unit)
  }

  /** Delta of one unit traded the way the order trades it. */
  function Signed(f: Fill): real {
    if f.buys then f.unit else -f.unit
  }

  lemma AddedIsBought(z: Sizing, f: Fill)
    requires WellSized(z, f)
    ensures f.added == Bought(z, f.lots, Signed(f))
  {
  }

  /** What every rung does with the order it has sized. */
  method Rung(z: Sizing, f: Fill, p: Placement, fills: seq<Fill>, ghost held: real)
    returns (mode: Mode, projected: real, fills': seq<Fill>, ghost held': real)
    requires WellSized(z, f)
    ensures Placed(z, p, Signed(f), fills, held, mode, projected, fills', held')
    ensures mode.Ok() ==> fills' == fills + [f]
  {
    ghost var filled;
    mode, filled := LimitThenMarket(f.lots, p);
    held' := held + Bought(z, filled, Signed(f));
    BoughtAdds(z, f.lots, p.Stray(), Signed(f));
    BoughtAdds(z, 0, p.Stray(), Signed(f));
    AddedIsBought(z, f);
    projected, fills' := z.total, fills;
    if mode.Ok() {
      FillHedges(z, fills, f);
      projected, fills' := z.total + f.added, fills + [f];
    }
  }

  method SellRung(z: Sizing, kind: Kind, unit: real, p: Placement, fills: seq<Fill>, ghost held: real)
    returns (mode: Mode, projected: real, fills': seq<Fill>, ghost held': real)
    requires z.total != 0.0 && SameSide(z.total, unit)
    ensures Placed(z, p, -unit, fills, held, mode, projected, fills', held')
    ensures mode.Ok() ==> fills'[|fills|].kind == kind && fills'[|fills|].unit == unit && !fills'[|fills|].buys
  {
    var lots := z.Lots(unit);
    var f := Fill(kind, false, lots, unit, z.Sold(lots, unit));
    SaleLands(z, f);
    mode, projected, fills', held' := Rung(z, f, p, fills, held);
  }

  method BuyRung(z: Sizing, unit: real, p: Placement, fills: seq<Fill>, ghost held: real)
    returns (mode: Mode, projected: real, fills': seq<Fill>, ghost held': real)
    requires z.total != 0.0 && SameSide(z.total, -unit)
    ensures Placed(z, p, unit, fills, held, mode, projected, fills', held')
    ensures mode.Ok() ==> fills'[|fills|].kind == BuyOpposite && fills'[|fills|].unit == unit && fills'[|fills|].buys
  {
    var lots := z.Lots(unit);
    var f := Fill(BuyOpposite, true, lots, unit, lots as real * unit * z.lotMult as real);
    assert f.added == z.Sold(lots, -unit);
    PurchaseLands(z, f);
    mode, projected, fills', held' := Rung(z, f, p, fills, held);
  }

  /** Delta of one unit traded against the book. */
  function AgainstBook(z: Sizing): real {
    if z.total > 0.0 then -1.0 else 1.0
  }

  /** A future carries one unit of delta per unit: sold against a long book, bought against a short one. */
  method FutureRung(z: Sizing, p: Placement, fills: seq<Fill>, ghost held: real)
    returns (mode: Mode, projected: real, fills': seq<Fill>, ghost held': real)
    requires z.total != 0.0
    ensures Placed(z, p, AgainstBook(z), fills, held, mode, projected, fills', held')
    ensures mode.Ok() ==> fills'[|fills|].kind == Future && fills'[|fills|].unit == 1.0 && fills'[|fills|].buys == (z.total < 0.0)
  {
    var lots := z.Lots(1.0);
    var f := Fill(Future, z.total < 0.0, lots, 1.0, AgainstBook(z) * lots as real * z.lotMult as real);
    if z.total > 0.0 {
      assert f.added == z.Sold(lots, 1.0);
      SaleLands(z, f);
    } else {
      assert f.added == z.Sold(lots, -1.0);
      PurchaseLands(z, f);
    }
    mode, projected, fills', held' := Rung(z, f, p, fills, held);
  }

  predicate ShortOfMargin(r: Rungs) {
    r.sell.Outcome() == InsufficientFunds
  }

  predicate TriesRoll(r: Rungs) {
    ShortOfMargin(r) && r.farFromExpiry && r.deepOtm.Some?
  }

  predicate BuysBack(r: Rungs) {
    TriesRoll(r) && r.closeOtm.Outcome().Ok()
  }

  predicate TriesAtm(r: Rungs) {
    BuysBack(r) && r.atm.Some?
  }

  predicate TriesOpposite(r: Rungs) {
    ShortOfMargin(r) && !(TriesAtm(r) && r.sellAtm.Outcome().Ok()) && r.opposite.Some? && r.opposite.value.Some?
  }

  predicate TriesFuture(r: Rungs) {
    && ShortOfMargin(r) && !(TriesAtm(r) && r.sellAtm.Outcome().Ok())
    && (TriesOpposite(r) ==> r.buyOpposite.Outcome() == InsufficientFunds) && r.hasFuture
  }

  /** The first rung that works. Only a shortage of margin leads on to the next: any other
      failure of the opposite option ends the ladder. */
  function Winner(r: Rungs): Option<Kind> {
    if r.sell.Outcome().Ok() then Some(SellSame)
    else if TriesAtm(r) && r.sellAtm.Outcome().Ok() then Some(SellRolled)
    else if TriesOpposite(r) && r.buyOpposite.Outcome().Ok() then Some(BuyOpposite)
    else if TriesFuture(r) && r.tradeFuture.Outcome().Ok() then Some(Future)
    else None
  }

  /** The delta of the one lot bought back, if any. */
  function BackDelta(z: Sizing, r: Rungs): real {
    if BuysBack(r) then BackFill(z, r).added else 0.0
  }

  /** The delta of everything the given-up LIMITs of the rungs tried have filled. */
  function StrayDelta(z: Sizing, chosen: real, r: Rungs): real {
    Bought(z, r.sell.Stray(), -chosen)
    + (if TriesRoll(r) then Bought(z, r.closeOtm.Stray(), r.deepOtm.value) else 0.0)
    + (if TriesAtm(r) then Bought(z, r.sellAtm.Stray(), -RollUnit(chosen, r)) else 0.0)
    + (if TriesOpposite(r) then Bought(z, r.buyOpposite.Stray(), r.opposite.value.value) else 0.0)
    + (if TriesFuture(r) then Bought(z, r.tradeFuture.Stray(), AgainstBook(z)) else 0.0)
  }

  /** Close one lot of the deepest out-of-the-money leg, and sell at the money once that worked. */
  method Roll(z: Sizing, chosen: real, r: Rungs, ghost held: real)
    returns (hedged: bool, projected: real, fills: seq<Fill>, ghost held': real)
    requires SignsOk(z.total, chosen, r) && TriesRoll(r)
    ensures hedged <==> TriesAtm(r) && r.sellAtm.Outcome().Ok()
    ensures var back := if BuysBack(r) then [BackFill(z, r)] else [];
            if hedged then Hedges(z, back, fills, projected) && Genuine(z, chosen, r, fills[|back|]) && fills[|back|].kind == SellRolled
            else fills == back && projected == z.total
    ensures held' == held + AddedBy(fills) + Bought(z, r.closeOtm.Stray(), r.deepOtm.value)
                     + if TriesAtm(r) then Bought(z, r.sellAtm.Stray(), -RollUnit(chosen, r)) else 0.0
    ensures hedged ==> AddedBy(fills) == BackDelta(z, r) + projected - z.total
    ensures !hedged ==> AddedBy(fills) == BackDelta(z, r)
  {
    hedged, projected, fills := false, z.total, [];
    var mode, filled := LimitThenMarket(1, r.closeOtm);
    held' := held + Bought(z, filled, r.deepOtm.value);
    BoughtAdds(z, 1, r.closeOtm.Stray(), r.deepOtm.value);
    BoughtAdds(z, 0, r.closeOtm.Stray(), r.deepOtm.value);
    if !mode.Ok() {
      return;
    }
    fills := [BackFill(z, r)];
    assert AddedBy(fills) == BackFill(z, r).added by { assert fills[..0] == []; }
    if r.atm.Some? {
      mode, projected, fills, held' := SellRung(z, SellRolled, RollUnit(chosen, r), r.sellAtm, fills, held');
      hedged := mode.Ok();
    }
  }

  /** Buy the opposite option, else trade the future. */
  method LastResorts(z: Sizing, chosen: real, r: Rungs, fills: seq<Fill>, ghost held: real)
    returns (hedged: bool, projected: real, fills': seq<Fill>, ghost held': real)
    requires SignsOk(z.total, chosen, r) && ShortOfMargin(r) && !(TriesAtm(r) && r.sellAtm.Outcome().Ok())
    ensures hedged <==> Winner(r).Some?
    ensures if hedged then Hedges(z, fills, fills', projected) && Genuine(z, chosen, r, fills'[|fills|]) && fills'[|fills|].kind == Winner(r).value
            else fills' == fills && projected == z.total
    ensures held' - AddedBy(fills') == held - AddedBy(fills)
                     + (if TriesOpposite(r) then Bought(z, r.buyOpposite.Stray(), r.opposite.value.value) else 0.0)
                     + (if TriesFuture(r) then Bought(z, r.tradeFuture.Stray(), AgainstBook(z)) else 0.0)
  {
    var mode := InsufficientFunds;
    hedged, projected, fills', held' := false, z.total, fills, held;
    if r.opposite.Some? && r.opposite.value.Some? {
      mode, projected, fills', held' := BuyRung(z, r.opposite.value.value, r.buyOpposite, fills, held);
      hedged := mode.Ok();
    }
    if mode == InsufficientFunds && r.hasFuture {
      mode, projected, fills', held' := FutureRung(z, r.tradeFuture, fills', held');
      hedged := mode.Ok();
    }
  }

  /** Sell the deficit side; when margin is short, buy back a deep out-of-the-money leg and sell
      at the money instead, else buy the opposite option, else trade the future. A hedge is one
      well-sized order. The projection it reports leaves out exactly the bought-back leg, which
      stays bought back even when every later rung fails, and what LIMITs given up on have filled. */
  method Ladder(z: Sizing, chosen: real, r: Rungs) returns (hedged: bool, projected: real, fills: seq<Fill>, ghost held: real)
    requires SignsOk(z.total, chosen, r)
    ensures hedged ==> Hedges(z, if BuysBack(r) then [BackFill(z, r)] else [], fills, projected)
    ensures !hedged ==> fills == (if BuysBack(r) then [BackFill(z, r)] else []) && projected == z.total
    ensures z.total + AddedBy(fills) == projected + BackDelta(z, r)
    ensures held == projected + BackDelta(z, r) + StrayDelta(z, chosen, r)
    ensures forall i :: 0 <= i < |fills| ==> Genuine(z, chosen, r, fills[i])
    ensures hedged <==> Winner(r).Some?
    ensures hedged ==> fills[|fills| - 1].kind == Winner(r).value
  {
    held := z.total;
    var mode;
    mode, projected, fills, held := SellRung(z, SellSame, chosen, r.sell, [], held);
    hedged := mode.Ok();
    if mode != InsufficientFunds {
      return;
    }
    if r.farFromExpiry && r.deepOtm.Some? {
      hedged, projected, fills, held := Roll(z, chosen, r, held);
    }
    if !hedged {
      hedged, projected, fills, held := LastResorts(z, chosen, r, fills, held);
    }
  }

  /** Buying back a leg on the sold side moves the book away from zero, so a ladder that then
      fails leaves it further out than it found it. */
  lemma FailedRollWorsens(z: Sizing, r: Rungs, chosen: real)
    requires SignsOk(z.total, chosen, r) && z.lotMult >= 1 && BuysBack(r)
    ensures Abs(z.total + BackFill(z, r).added) > Abs(z.total)
  {
  }
}
