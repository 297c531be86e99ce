/** The prototype trading bot (app_prototype.py): module-level state driven by webhook signals. */
module Prototype {
  import opened Nums

  const MAX_OPEN_POSITIONS := 3
  const MAX_DAILY_LOSS := -2000.0
  const MAX_TRADES_PER_DAY := 10
  const MAX_CONSECUTIVE_LOSSES := 3
  const BREAKEVEN_RR := 1.0
  const TRAIL_RR := 1.5
  const TRAIL_STEP := 0.5

  datatype Action = Buy | Sell | Other

  datatype Status = Open | SlHit | TargetHit

  /** `ticket` stands for the identity of the record: the number of the trade that opened it. */
  datatype Position = Position(ticket: nat, action: Action, entry: real, stop: real, target: real, pnl: real, status: Status)

  datatype Signal = Signal(id: string, action: Action, price: real, stop: real, target: real)

  datatype State = State(
    tradeCount: nat, dailyPnl: real, openPositions: int, consecutiveLosses: int,
    positions: seq<Position>, closed: seq<Position>, processed: set<string>, enabled: bool)

  const START := State(0, 0.0, 0, 0, [], [], {}, true)

  // ---- One position at a new price ----

  function Round2(x: real): real {
    Round(x * 100.0) as real / 100.0
  }

  function Risk(p: Position): real {
    Abs(p.entry - p.stop)
  }

  /** The stop after the breakeven and trailing rules. */
  function NewStop(p: Position, price: real): real {
    match p.action
    case Buy =>
      var s := if price >= p.entry + Risk(p) * BREAKEVEN_RR then Max(p.stop, p.entry) else p.stop;
      if price >= p.entry + Risk(p) * TRAIL_RR then Max(s, price - Risk(p) * TRAIL_STEP) else s
    case Sell =>
      var s := if price <= p.entry - Risk(p) * BREAKEVEN_RR then Min(p.stop, p.entry) else p.stop;
      if price <= p.entry - Risk(p) * TRAIL_RR then Min(s, price + Risk(p) * TRAIL_STEP) else s
    case Other => p.stop
  }

  function NewStatus(p: Position, stop: real, price: real): Status {
    match p.action
    case Buy => if price <= stop then SlHit else if price >= p.target then TargetHit else Open
    case Sell => if price >= stop then SlHit else if price <= p.target then TargetHit else Open
    case Other => Open
  }

  function Gain(p: Position, price: real): real {
    match p.action
    case Buy => price - p.entry
    case Sell => p.entry - price
    case Other => 0.0
  }

  function Reprice(p: Position, price: real): Position {
    var stop := NewStop(p, price);
    var status := NewStatus(p, stop, price);
    p.(stop := stop, pnl := Round2(Gain(p, price)), status := status)
  }

  /** Profit is written to the nearest hundredth: what the price has gained on a bought position, lost
      on a sold one, and nothing for a position that is neither. */
  lemma ProfitWritten(p: Position, price: real)
    ensures var pnl := Reprice(p, price).pnl;
            && Whole(100.0 * pnl)
            && (p.action == Buy ==> Abs(pnl - (price - p.entry)) <= 0.005)
            && (p.action == Sell ==> Abs(pnl - (p.entry - price)) <= 0.005)
            && (p.action == Other ==> pnl == 0.0)
  {
    RoundIsNearest(Gain(p, price) * 100.0, 0);
    IntsAreWhole(Round(Gain(p, price) * 100.0));
    assert 100.0 * Reprice(p, price).pnl == Round(Gain(p, price) * 100.0) as real;
  }

  predicate Tighter(action: Action, was: real, now: real) {
    match action
    case Buy => now >= was
    case Sell => now <= was
    case Other => now == was
  }

  /** A stop is only ever tightened. */
  lemma StopNeverLoosens(p: Position, price: real)
    ensures Tighter(p.action, p.stop, Reprice(p, price).stop)
  {
  }

  /** Moving the stop closes nothing that the old stop would have kept, with one exception: a
      position whose stop is exactly its entry price always closes. Otherwise it stays open
      exactly strictly between the stop it had and its target. */
  lemma StaysOpenWhen(p: Position, price: real)
    ensures Reprice(p, price).status == Open <==>
              match p.action
              case Buy => p.stop != p.entry && p.stop < price < p.target
              case Sell => p.stop != p.entry && p.target < price < p.stop
              case Other => true
  {
  }

  /** And why it closes: at its stop, which comes first and claims every position whose stop is its
      entry price, or else at its target. */
  lemma ClosesFor(p: Position, price: real)
    ensures Reprice(p, price).status == SlHit <==>
              match p.action
              case Buy => p.stop == p.entry || price <= p.stop
              case Sell => p.stop == p.entry || price >= p.stop
              case Other => false
    ensures Reprice(p, price).status == TargetHit <==>
              match p.action
              case Buy => p.stop != p.entry && price > p.stop && price >= p.target
              case Sell => p.stop != p.entry && price < p.stop && price <= p.target
              case Other => false
  {
  }

  /** There is a price at which the position would stay open. */
  predicate Room(p: Position) {
    match p.action
    case Buy => p.stop != p.entry && p.stop < p.target
    case Sell => p.stop != p.entry && p.target < p.stop
    case Other => true
  }

  /** The next price closes a position, wherever it is, exactly when its stop is its entry price
      or is not short of its target. */
  lemma ClosesNextWhen(p: Position)
    ensures (forall price :: Reprice(p, price).status != Open) <==> !Room(p)
  {
    var between := (p.stop + p.target) / 2.0;
    StaysOpenWhen(p, between);
    if !Room(p) {
      forall price
        ensures Reprice(p, price).status != Open
      {
        StaysOpenWhen(p, price);
      }
    }
  }

  /** The stop is still on the losing side of the entry price. */
  predicate AtRisk(p: Position) {
    match p.action
    case Buy => p.stop < p.entry
    case Sell => p.stop > p.entry
    case Other => false
  }

  /** An update that leaves a position open with its stop on the entry price, so that the next
      price closes it, is exactly one at a gain of one risk or more but less than one and a half. */
  lemma BreakevenWhen(p: Position, price: real)
    requires p.action != Other && p.stop != p.entry && Reprice(p, price).status == Open
    ensures Reprice(p, price).stop == p.entry <==>
              AtRisk(p) && BREAKEVEN_RR * Risk(p) <= Gain(p, price) < TRAIL_RR * Risk(p)
  {
  }

  const LONG := Position(0, Buy, 100.0, 90.0, 1000.0, 0.0, Open)

  /** Bought at 100 with ten at risk: the price 110 takes the stop to the entry price, and then
      even 500 closes the position. */
  lemma BreakevenClosesNext()
    ensures var p := Reprice(LONG, 110.0);
            p.status == Open && p.stop == 100.0 && !Room(p) && Reprice(p, 500.0).status == SlHit
  {
  }

  /** The same position carried past breakeven in one step is trailed, and trailed again. */
  lemma TrailsPastBreakeven()
    ensures var p := Reprice(LONG, 115.0);
            && p.status == Open && p.stop == 110.0
            && Reprice(p, 130.0).status == Open && Reprice(p, 130.0).stop == 125.0
  {
  }

  // ---- All positions ----

  function RepriceAll(s: seq<Position>, price: real): seq<Position> {
    seq(|s|, i requires 0 <= i < |s| => Reprice(s[i], price))
  }

  function StillOpen(s: seq<Position>): seq<Position> {
    if s == [] then [] else (if s[0].status == Open then [s[0]] else []) + StillOpen(s[1..])
  }

  function Hit(s: seq<Position>): seq<Position> {
    if s == [] then [] else (if s[0].status == Open then [] else [s[0]]) + Hit(s[1..])
  }

  function PnlOf(s: seq<Position>): real {
    if s == [] then 0.0 else PnlOf(s[..|s| - 1]) + s[|s| - 1].pnl
  }

  /** The length of the losing run at the end. */
  function LosingRun(s: seq<Position>): nat {
    if s == [] || s[|s| - 1].pnl >= 0.0 then 0 else LosingRun(s[..|s| - 1]) + 1
  }

  function Updated(s: State, price: real): State {
    var all := RepriceAll(s.positions, price);
    var closed := s.closed + Hit(all);
    s.(positions := StillOpen(all), closed := closed,
       openPositions := s.openPositions - |Hit(all)|,
       dailyPnl := s.dailyPnl + PnlOf(Hit(all)),
       consecutiveLosses := RunAfter(s.consecutiveLosses, Hit(all)))
  }

  function RunAfter(run: int, hits: seq<Position>): int {
    if hits == [] then run
    else if hits[|hits| - 1].pnl < 0.0 then RunAfter(run, hits[..|hits| - 1]) + 1
    else 0
  }

  datatype Reply = Duplicate | DailyLoss | MaxTrades | MaxOpen | Losses | Disabled | Executed

  function RiskCheck(s: State): Reply {
    if s.dailyPnl <= MAX_DAILY_LOSS then DailyLoss
    else if s.tradeCount >= MAX_TRADES_PER_DAY then MaxTrades
    else if s.openPositions >= MAX_OPEN_POSITIONS then MaxOpen
    else if s.consecutiveLosses >= MAX_CONSECUTIVE_LOSSES then Losses
    else if !s.enabled then Disabled
    else Executed
  }

  function Opened(s: State, g: Signal): State {
    s.(tradeCount := s.tradeCount + 1, openPositions := s.openPositions + 1,
       positions := s.positions + [Position(s.tradeCount, g.action, g.price, g.stop, g.target, 0.0, Open)])
  }

  function Received(s: State, g: Signal): (State, Reply) {
    if g.id in s.processed then (s, Duplicate)
    else
      var u := Updated(s.(processed := s.processed + {g.id}), g.price);
      var r := RiskCheck(u);
      (if r == Executed then Opened(u, g) else u, r)
  }

  // ---- The bot ----

  class Bot {
    var tradeCount: nat
    var dailyPnl: real
    var openPositions: int
    var consecutiveLosses: int
    var positions: seq<Position>
    var closedTrades: seq<Position>
    var processedSignals: set<string>
    var tradingEnabled: bool

    function View(): State
      reads this
    {
      State(tradeCount, dailyPnl, openPositions, consecutiveLosses, positions, closedTrades, processedSignals, tradingEnabled)
    }

    constructor ()
      ensures View() == START
    {
      tradeCount, dailyPnl, openPositions, consecutiveLosses := 0, 0.0, 0, 0;
      positions, closedTrades, processedSignals, tradingEnabled := [], [], {}, true;
    }

    method SetTrading(enabled: bool)
      modifies this`tradingEnabled
      ensures View() == old(View()).(enabled := enabled)
    {
      tradingEnabled := enabled;
    }

    /** Move every stop, then close what was hit. */
    method UpdatePositions(price: real)
      requires Numbered(positions)
      modifies this
      ensures View() == Updated(old(View()), price)
    {
      var toClose: seq<Position> := [];
      var all: seq<Position> := [];
      for i := 0 to |positions|
        invariant View() == old(View())
        invariant all == RepriceAll(positions, price)[..i] && toClose == Hit(all)
      {
        var p := Reprice(positions[i], price);
        HitSnoc(all, p);
        all := all + [p];
        if p.status != Open {
          toClose := toClose + [p];
        }
      }
      assert all == RepriceAll(positions, price);
      positions := all;
      Close(toClose);
    }

    /** Take the hit positions off the list one by one, booking each. */
    method Close(toClose: seq<Position>)
      requires Numbered(positions) && toClose == Hit(positions)
      modifies this`positions, this`closedTrades, this`openPositions, this`dailyPnl, this`consecutiveLosses
      ensures positions == StillOpen(old(positions)) && closedTrades == old(closedTrades) + toClose
      ensures openPositions == old(openPositions) - |toClose| && dailyPnl == old(dailyPnl) + PnlOf(toClose)
      ensures consecutiveLosses == RunAfter(old(consecutiveLosses), toClose)
    {
      ghost var all := positions;
      NothingRemoved(all);
      for i := 0 to |toClose|
        invariant positions == Without(all, toClose[..i])
        invariant closedTrades == old(closedTrades) + toClose[..i]
        invariant openPositions == old(openPositions) - i && dailyPnl == old(dailyPnl) + PnlOf(toClose[..i])
        invariant consecutiveLosses == RunAfter(old(consecutiveLosses), toClose[..i])
      {
        var p := toClose[i];
        RemoveHit(all, i);
        positions := Remove(positions, p);
        Book(p);
        BookedOne(old(consecutiveLosses), toClose, i);
      }
      assert toClose[..|toClose|] == toClose;
      OpenIsWithoutHits(all, toClose) by {
        forall p | p in all
          ensures p in toClose <==> p.status != Open
        {
          HitIs(all, p);
        }
      }
    }

    method Book(p: Position)
      modifies this`closedTrades, this`openPositions, this`dailyPnl, this`consecutiveLosses
      ensures closedTrades == old(closedTrades) + [p] && openPositions == old(openPositions) - 1
      ensures dailyPnl == old(dailyPnl) + p.pnl
      ensures consecutiveLosses == if p.pnl < 0.0 then old(consecutiveLosses) + 1 else 0
    {
      openPositions := openPositions - 1;
      dailyPnl := dailyPnl + p.pnl;
      closedTrades := closedTrades + [p];
      if p.pnl < 0.0 {
        consecutiveLosses := consecutiveLosses + 1;
      } else {
        consecutiveLosses := 0;
      }
    }

    method Webhook(g: Signal) returns (r: Reply)
      requires Inv(View())
      modifies this
      ensures (View(), r) == Received(old(View()), g)
    {
      if g.id in processedSignals {
        return Duplicate;
      }
      processedSignals := processedSignals + {g.id};
      UpdatePositions(g.price);
      r := RiskCheck(View());
      if r != Executed {
        return;
      }
      positions := positions + [Position(tradeCount, g.action, g.price, g.stop, g.target, 0.0, Open)];
      tradeCount := tradeCount + 1;
      openPositions := openPositions + 1;
    }
  }

  // ---- Lists ----

  /** Tickets tell positions apart. */
  ghost predicate Numbered(s: seq<Position>) {
    forall i, j :: 0 <= i < j < |s| ==> s[i].ticket != s[j].ticket
  }

  /** Python's `list.remove`: the first equal element goes. */
  function Remove(s: seq<Position>, p: Position): seq<Position> {
    if s == [] then [] else if s[0] == p then s[1..] else [s[0]] + Remove(s[1..], p)
  }

  function Without(s: seq<Position>, gone: seq<Position>): seq<Position> {
    if s == [] then [] else (if s[0] in gone then [] else [s[0]]) + Without(s[1..], gone)
  }

  lemma BookedOne(run: int, hits: seq<Position>, i: nat)
    requires i < |hits|
    ensures hits[..i + 1] == hits[..i] + [hits[i]]
    ensures PnlOf(hits[..i + 1]) == PnlOf(hits[..i]) + hits[i].pnl
    ensures RunAfter(run, hits[..i + 1]) == if hits[i].pnl < 0.0 then RunAfter(run, hits[..i]) + 1 else 0
  {
  }

  lemma RemoveHit(s: seq<Position>, i: nat)
    requires Numbered(s) && i < |Hit(s)|
    ensures Remove(Without(s, Hit(s)[..i]), Hit(s)[i]) == Without(s, Hit(s)[..i + 1])
  {
    assert Hit(s)[..i + 1] == Hit(s)[..i] + [Hit(s)[i]];
    HitOnce(s, i);
    RemoveOne(s, Hit(s)[..i], Hit(s)[i]);
  }

  lemma {:induction false} HitSnoc(s: seq<Position>, p: Position)
    ensures Hit(s + [p]) == Hit(s) + (if p.status == Open then [] else [p])
  {
    if s != [] {
      HitSnoc(s[1..], p);
      assert (s + [p])[1..] == s[1..] + [p];
    }
  }

  lemma {:induction false} NothingRemoved(s: seq<Position>)
    ensures Without(s, []) == s
  {
    if s != [] { NothingRemoved(s[1..]); }
  }

  lemma {:induction false} HitIs(s: seq<Position>, p: Position)
    ensures p in Hit(s) <==> p in s && p.status != Open
  {
    if s != [] { HitIs(s[1..], p); }
  }

  lemma {:induction false} HitNumbered(s: seq<Position>)
    requires Numbered(s)
    ensures Numbered(Hit(s))
  {
    if s != [] {
      HitNumbered(s[1..]);
      forall p | p in Hit(s[1..])
        ensures p.ticket != s[0].ticket
      {
        HitIs(s[1..], p);
      }
    }
  }

  lemma HitOnce(s: seq<Position>, i: nat)
    requires Numbered(s) && i < |Hit(s)|
    ensures Hit(s)[i] in s && Hit(s)[i] !in Hit(s)[..i]
  {
    HitIs(s, Hit(s)[i]);
    HitNumbered(s);
  }

  lemma {:induction false} WithoutMore(s: seq<Position>, gone: seq<Position>, p: Position)
    requires p !in s
    ensures Without(s, gone + [p]) == Without(s, gone)
  {
    if s != [] { WithoutMore(s[1..], gone, p); }
  }

  lemma {:induction false} RemoveOne(s: seq<Position>, gone: seq<Position>, p: Position)
    requires Numbered(s) && p in s && p !in gone
    ensures Remove(Without(s, gone), p) == Without(s, gone + [p])
  {
    if s[0] == p {
      assert p !in s[1..];
      WithoutMore(s[1..], gone, p);
    } else {
      RemoveOne(s[1..], gone, p);
      assert s[0] in gone + [p] <==> s[0] in gone;
      var rest := Without(s[1..], gone);
      assert ([s[0]] + rest)[1..] == rest && [] + rest == rest;
      assert [] + Without(s[1..], gone + [p]) == Without(s[1..], gone + [p]);
    }
  }

  lemma {:induction false} OpenIsWithoutHits(s: seq<Position>, hits: seq<Position>)
    requires forall p :: p in s ==> (p in hits <==> p.status != Open)
    ensures StillOpen(s) == Without(s, hits)
  {
    if s != [] { OpenIsWithoutHits(s[1..], hits); }
  }

  // ---- Invariants of every run ----

  ghost predicate Inv(s: State) {
    && s.openPositions == |s.positions| <= MAX_OPEN_POSITIONS
    && s.tradeCount == |s.positions| + |s.closed| <= MAX_TRADES_PER_DAY
    && s.dailyPnl == PnlOf(s.closed)
    && s.consecutiveLosses == LosingRun(s.closed)
    && Ticketed(s)
  }

  /** Open positions carry distinct tickets of trades already opened; closed ones were hit. */
  ghost predicate Ticketed(s: State) {
    && Numbered(s.positions)
    && (forall p :: p in s.positions ==> p.ticket < s.tradeCount && p.status == Open)
    && (forall p :: p in s.closed ==> p.status != Open)
  }

  lemma {:induction false} PnlAdds(a: seq<Position>, b: seq<Position>)
    ensures PnlOf(a + b) == PnlOf(a) + PnlOf(b)
  {
    if b == [] {
      assert a + b == a;
    } else {
      assert (a + b)[..|a + b| - 1] == a + b[..|b| - 1];
      PnlAdds(a, b[..|b| - 1]);
    }
  }

  lemma {:induction false} RunContinues(a: seq<Position>, b: seq<Position>)
    ensures LosingRun(a + b) == RunAfter(LosingRun(a), b)
  {
    if b == [] {
      assert a + b == a;
    } else {
      assert (a + b)[..|a + b| - 1] == a + b[..|b| - 1];
      RunContinues(a, b[..|b| - 1]);
    }
  }

  lemma {:induction false} SplitCounts(s: seq<Position>)
    ensures |StillOpen(s)| + |Hit(s)| == |s|
  {
    if s != [] { SplitCounts(s[1..]); }
  }

  lemma {:induction false} OpenIs(s: seq<Position>, p: Position)
    ensures p in StillOpen(s) <==> p in s && p.status == Open
  {
    if s != [] { OpenIs(s[1..], p); }
  }

  lemma {:induction false} OpenNumbered(s: seq<Position>)
    requires Numbered(s)
    ensures Numbered(StillOpen(s))
  {
    if s != [] {
      OpenNumbered(s[1..]);
      forall p | p in StillOpen(s[1..])
        ensures p.ticket != s[0].ticket
      {
        OpenIs(s[1..], p);
      }
    }
  }

  lemma UpdateKeepsTickets(s: State, price: real)
    requires Ticketed(s)
    ensures Ticketed(Updated(s, price))
  {
    var all := RepriceAll(s.positions, price);
    assert Numbered(all);
    OpenNumbered(all);
    forall p | p in Hit(all)
      ensures p.status != Open
    {
      HitIs(all, p);
    }
    forall p | p in StillOpen(all)
      ensures p.ticket < s.tradeCount && p.status == Open
    {
      OpenIs(all, p);
      var i :| 0 <= i < |all| && all[i] == p;
      assert s.positions[i] in s.positions;
    }
  }

  lemma UpdateKeeps(s: State, price: real)
    requires Inv(s)
    ensures Inv(Updated(s, price))
  {
    var hits := Hit(RepriceAll(s.positions, price));
    PnlAdds(s.closed, hits);
    RunContinues(s.closed, hits);
    SplitCounts(RepriceAll(s.positions, price));
    UpdateKeepsTickets(s, price);
  }

  lemma OpenKeeps(s: State, g: Signal)
    requires Inv(s) && RiskCheck(s) == Executed
    ensures Inv(Opened(s, g))
  {
    var t := Opened(s, g);
    forall p | p in t.positions
      ensures p.ticket < t.tradeCount && p.status == Open
    {
      assert p in s.positions || p.ticket == s.tradeCount;
    }
    forall i, j | 0 <= i < j < |t.positions|
      ensures t.positions[i].ticket != t.positions[j].ticket
    {
      assert t.positions[i] in s.positions;
    }
  }

  /** Every signal keeps the books: the counters are the list lengths and stay in their limits,
      daily P&L is the sum of the closed trades, and the loss counter their trailing losing run. */
  lemma SignalKeeps(s: State, g: Signal)
    requires Inv(s)
    ensures Inv(Received(s, g).0)
  {
    if g.id !in s.processed {
      var marked := s.(processed := s.processed + {g.id});
      UpdateKeeps(marked, g.price);
      if RiskCheck(Updated(marked, g.price)) == Executed { OpenKeeps(Updated(marked, g.price), g); }
    }
  }

  /** A signal opens a trade exactly when its id is new and, once its price has closed what it closes,
      the day's loss is short of two thousand, fewer than ten trades were opened, fewer than three are
      open, fewer than three losses came in a row, and trading is on; and then it is that trade, at the
      signal's prices. */
  lemma OpensWhen(s: State, g: Signal)
    requires Inv(s)
    ensures var u, t := Updated(s.(processed := s.processed + {g.id}), g.price), Received(s, g).0;
            && (Received(s, g).1 == Executed <==>
                  && g.id !in s.processed && u.dailyPnl > -2000.0 && u.tradeCount < 10 && |u.positions| < 3
                  && LosingRun(u.closed) < 3 && s.enabled)
            && (if Received(s, g).1 == Executed then
                  t == u.(tradeCount := u.tradeCount + 1, openPositions := u.openPositions + 1,
                          positions := u.positions + [Position(s.tradeCount, g.action, g.price, g.stop, g.target, 0.0, Open)])
                else t == if g.id in s.processed then s else u)
  {
    if g.id !in s.processed { UpdateKeeps(s.(processed := s.processed + {g.id}), g.price); }
  }

  datatype Event = Incoming(signal: Signal) | Switch(on: bool)

  function Step(s: State, e: Event): State {
    match e
    case Incoming(g) => Received(s, g).0
    case Switch(on) => s.(enabled := on)
  }

  function After(events: seq<Event>): State {
    if events == [] then START else Step(After(events[..|events| - 1]), events[|events| - 1])
  }

  lemma {:induction false} InvAlways(events: seq<Event>)
    ensures Inv(After(events))
  {
    if events != [] {
      InvAlways(events[..|events| - 1]);
      if events[|events| - 1].Incoming? { SignalKeeps(After(events[..|events| - 1]), events[|events| - 1].signal); }
    }
  }

  lemma {:induction false} ProcessedStays(events: seq<Event>, i: nat)
    requires i < |events| && events[i].Incoming?
    ensures events[i].signal.id in After(events).processed
  {
    if i < |events| - 1 { ProcessedStays(events[..|events| - 1], i); }
  }

  /** A signal id acts at most once in any run: its second arrival changes nothing. */
  lemma IdActsOnce(events: seq<Event>, i: nat, j: nat)
    requires i < j < |events| && events[i].Incoming? && events[j].Incoming? && events[i].signal.id == events[j].signal.id
    ensures Received(After(events[..j]), events[j].signal) == (After(events[..j]), Duplicate)
  {
    ProcessedStays(events[..j], i);
  }

  /** Nothing is open and a limit that nothing can lift has been reached. */
  predicate Locked(s: State) {
    && s.positions == []
    && (s.dailyPnl <= MAX_DAILY_LOSS || s.tradeCount >= MAX_TRADES_PER_DAY || s.consecutiveLosses >= MAX_CONSECUTIVE_LOSSES)
  }

  lemma LockHolds(s: State, e: Event)
    requires Locked(s)
    ensures Locked(Step(s, e)) && (e.Incoming? ==> Received(s, e.signal).1 != Executed)
  {
  }

  /** From then on no event of any run opens a trade again: there is no daily reset. */
  lemma {:induction false} LockedForever(events: seq<Event>, i: nat)
    requires i <= |events| && Locked(After(events[..i]))
    ensures Locked(After(events))
    ensures After(events).tradeCount == After(events[..i]).tradeCount
  {
    if i == |events| {
      assert events[..i] == events;
    } else {
      var init := events[..|events| - 1];
      assert init[..i] == events[..i];
      LockedForever(init, i);
      LockHolds(After(init), events[|events| - 1]);
      if events[|events| - 1].Incoming? {
        assert RepriceAll(After(init).positions, events[|events| - 1].signal.price) == [];
      }
    }
  }

  lemma {:induction false} LongerThanAll(ids: set<string>) returns (id: string)
    ensures forall x :: x in ids ==> |x| < |id|
    decreases |ids|
  {
    if ids == {} {
      id := "";
    } else {
      var x :| x in ids;
      var longer := LongerThanAll(ids - {x});
      id := longer + x + "+";
      forall y | y in ids
        ensures |y| < |id|
      {
        if y != x { assert y in ids - {x}; }
      }
    }
  }

  /** A flat bot is locked exactly when no signal could open a trade even with trading switched on. */
  lemma LockedWhen(s: State)
    requires Inv(s) && s.positions == []
    ensures Locked(s) <==> forall g :: Received(s.(enabled := true), g).1 != Executed
  {
    var on := s.(enabled := true);
    if Locked(s) {
      forall g
        ensures Received(on, g).1 != Executed
      {
        LockHolds(on, Incoming(g));
      }
    } else {
      var id := LongerThanAll(s.processed);
      var g := Signal(id, Buy, 100.0, 90.0, 110.0);
      assert g.id !in on.processed;
      assert Updated(on.(processed := on.processed + {g.id}), g.price) == on.(processed := on.processed + {g.id}) by {
        assert RepriceAll([], g.price) == [];
        assert s.closed + [] == s.closed;
      }
      assert Received(on, g).1 == Executed;
    }
  }

  // ---- Stops over a run ----

  /** `q` is `p` later in its life. */
  predicate Continues(p: Position, q: Position) {
    q.ticket == p.ticket && q.action == p.action && q.entry == p.entry && q.target == p.target && Tighter(p.action, p.stop, q.stop)
  }

  /** After one event an open position is either the new one or continues one that was open. */
  lemma Descends(s: State, e: Event, q: Position) returns (p: Position)
    requires Inv(s) && q in Step(s, e).positions && q.ticket < s.tradeCount
    ensures p in s.positions && Continues(p, q)
  {
    if e.Switch? || e.signal.id in s.processed {
      p := q;
    } else {
      var all := RepriceAll(s.positions, e.signal.price);
      OpenIs(all, q);
      var i :| 0 <= i < |all| && all[i] == q;
      p := s.positions[i];
      StopNeverLoosens(p, e.signal.price);
    }
  }

  lemma {:induction false} TradeCountGrows(events: seq<Event>, i: nat)
    requires i <= |events|
    ensures After(events[..i]).tradeCount <= After(events).tradeCount
  {
    if i == |events| {
      assert events[..i] == events;
    } else {
      assert events[..|events| - 1][..i] == events[..i];
      TradeCountGrows(events[..|events| - 1], i);
    }
  }

  /** Over any stretch of any run the stop of a position that is still open has not loosened,
      and entry, target and side are those it was opened with. */
  lemma {:induction false} StopsHoldOverRuns(events: seq<Event>, i: nat, p: Position, q: Position)
    requires i <= |events| && p in After(events[..i]).positions && q in After(events).positions && p.ticket == q.ticket
    ensures Continues(p, q)
  {
    InvAlways(events[..i]);
    if i == |events| {
      assert events[..i] == events;
    } else {
      var init := events[..|events| - 1];
      assert init[..i] == events[..i];
      InvAlways(init);
      TradeCountGrows(init, i);
      var m := Descends(After(init), events[|events| - 1], q);
      StopsHoldOverRuns(init, i, p, m);
    }
  }
}
