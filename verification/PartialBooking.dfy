/** Partial profit booking (app/partial_booking.py) and the close that follows it
    (app/paper_trading.py). */
module PartialBooking {
  import opened Nums
  import Triggers

  datatype Side = Buy | Sell

  /** How far the price has travelled from entry to target, as a fraction. */
  function ProgressToTarget(side: Side, entry: real, target: real, ltp: real): real {
    var span := if side == Sell then entry - target else target - entry;
    var moved := if side == Sell then entry - ltp else ltp - entry;
    if span <= 0.0 then 0.0 else moved / span
  }

  /** Python's `int()` truncates toward zero. */
  function Truncate(x: real): int {
    if x < 0.0 then -Floor(-x) else Floor(x)
  }

  function QtyToBook(openQty: int, pct: real): int {
    if openQty < 2 then 0 else MaxInt(1, MinInt(Truncate(openQty as real * pct), openQty - 1))
  }

  /** Whatever the configured fraction, a splittable position is really split: something is
      booked and something is left. */
  lemma BookedIsProper(openQty: int, pct: real)
    ensures openQty >= 2 ==> 1 <= QtyToBook(openQty, pct) < openQty
    ensures openQty < 2 ==> QtyToBook(openQty, pct) == 0
    ensures openQty >= 2 && 0.0 <= pct <= 1.0 && 1.0 <= openQty as real * pct <= (openQty - 1) as real ==>
              QtyToBook(openQty, pct) as real <= openQty as real * pct < QtyToBook(openQty, pct) as real + 1.0
  {
  }

  function PaperPnl(side: Side, entry: real, exit: real, qty: int, units: int): real {
    var diff := if side == Sell then -(exit - entry) else exit - entry;
    diff * qty as real * units as real
  }

  /** Python's `round(x, 2)`. */
  function Round2(x: real): real {
    Round(x * 100.0) as real / 100.0
  }

  /** A slice booked past a positive trigger is a profit of at least that share of the way
      to target on every unit booked. */
  lemma BookedSliceProfits(side: Side, entry: real, target: real, ltp: real, trigger: real, qty: int, units: int)
    requires ProgressToTarget(side, entry, target, ltp) >= trigger > 0.0 && qty >= 1 && units >= 1
    ensures Abs(target - entry) > 0.0
    ensures PaperPnl(side, entry, ltp, qty, units) >= trigger * Abs(target - entry) * qty as real * units as real
  {
  }

  /** A stop moved to breakeven is the entry price rounded to the tick: at that stop the
      surviving slice loses at most half a tick a unit, nothing when the entry is on the grid, and
      it does not lose exactly when the rounding did not go against it. */
  lemma SurvivorAtStop(side: Side, entry: real, tick: real, qty: int, units: int)
    requires tick > 0.0 && qty >= 1 && units >= 1
    ensures var stop := Triggers.ToTick(entry, tick);
            && Abs(stop - entry) <= tick / 2.0
            && (PaperPnl(side, entry, stop, qty, units) >= 0.0 <==> if side == Sell then stop <= entry else stop >= entry)
            && (forall k :: Triggers.OnGrid(entry, tick, k) ==> PaperPnl(side, entry, stop, qty, units) == 0.0)
  {
    var stop := Triggers.ToTick(entry, tick);
    Triggers.ToTickNearest(entry, tick);
    var diff := if side == Sell then entry - stop else stop - entry;
    SameSign(diff, qty as real, units as real);
    forall k | Triggers.OnGrid(entry, tick, k)
      ensures stop == entry
    {
      Triggers.ToTickKeepsGrid(entry, tick, k);
    }
  }

  lemma SameSign(x: real, a: real, b: real)
    requires a > 0.0 && b > 0.0
    ensures x * a * b >= 0.0 <==> x >= 0.0
    ensures x == 0.0 ==> x * a * b == 0.0
  {
    if x < 0.0 {
      assert x * a < 0.0;
      assert x * a * b < 0.0;
    } else {
      assert x * a >= 0.0;
    }
  }

  // ---- The broker steps ----

  /** What becomes of one order call: whether it finally returned an id, and how many of its
      attempts landed at the broker although the caller saw an error. */
  datatype Reply = Reply(acked: bool, behind: nat)

  /** What becomes of a change to the exit order: done, refused, or it took effect at the broker
      although the caller saw an error. */
  datatype Change = Done | Refused | LandedButRaised {
    predicate Lands() { !Refused? }
  }

  datatype Script = Script(resize: Change, reply: Reply, restore: Change)

  datatype Settings = Settings(paper: bool, qtyPct: real, triggerPct: real, toBreakeven: bool)

  /** What one pass may see of a position: whether its exit order is still live, the quote, and
      the outside world's replies. */
  datatype View = View(gttLive: bool, ltp: Option<real>, script: Script)

  /** A quantity closed at a price. */
  datatype Slice = Slice(qty: int, price: real)

  function Sum(s: seq<int>): int {
    if s == [] then 0 else Sum(s[..|s| - 1]) + s[|s| - 1]
  }

  function Copies(qty: int, n: nat): seq<int> {
    seq(n, _ => qty)
  }

  /** The orders of `qty` that a call with this reply leaves at the broker. */
  function Landings(qty: int, r: Reply): seq<int> {
    Copies(qty, r.behind) + (if r.acked then [qty] else [])
  }

  lemma {:induction false} SumAdds(s: seq<int>, t: seq<int>)
    ensures Sum(s + t) == Sum(s) + Sum(t)
  {
    if t == [] {
      assert s + t == s;
    } else {
      assert (s + t)[..|s + t| - 1] == s + t[..|t| - 1];
      SumAdds(s, t[..|t| - 1]);
    }
  }

  lemma {:induction false} SumAtLeast(s: seq<int>, q: int)
    requires q >= 1 && forall i :: 0 <= i < |s| ==> s[i] >= q
    ensures s == [] ==> Sum(s) == 0
    ensures |s| == 1 ==> Sum(s) == s[0]
    ensures |s| >= 2 ==> Sum(s) >= 2 * q
    ensures s != [] ==> Sum(s) >= q
  {
    if s != [] {
      SumAtLeast(s[..|s| - 1], q);
    }
  }

  lemma LandingsSum(qty: int, r: Reply)
    requires qty >= 1
    ensures Sum(Landings(qty, r)) == Sum(Copies(qty, r.behind)) + (if r.acked then qty else 0)
    ensures |Landings(qty, r)| == 0 ==> Sum(Landings(qty, r)) == 0
    ensures |Landings(qty, r)| == 1 ==> Sum(Landings(qty, r)) == qty
    ensures |Landings(qty, r)| >= 2 ==> Sum(Landings(qty, r)) >= 2 * qty
  {
    SumAdds(Copies(qty, r.behind), if r.acked then [qty] else []);
    SumAtLeast(Landings(qty, r), qty);
  }

  ghost predicate Accounted(original: int, held: int, landed: seq<int>, unseen: seq<int>, booked: int, slices: nat) {
    && held + Sum(landed) == original
    && Sum(landed) == booked + Sum(unseen) && |landed| == slices + |unseen|
    && forall i :: 0 <= i < |unseen| ==> unseen[i] >= 1
  }

  /** One reducing call keeps every unit accounted for. */
  lemma CallAccounted(original: int, held: int, landed: seq<int>, unseen: seq<int>, qty: int, r: Reply)
    requires Accounted(original, held, landed, unseen, 0, 0) && qty >= 1
    ensures Accounted(original, held - Sum(Landings(qty, r)), landed + Landings(qty, r), unseen + Copies(qty, r.behind),
                      if r.acked then qty else 0, if r.acked then 1 else 0)
  {
    LandingsSum(qty, r);
    SumAdds(landed, Landings(qty, r));
    SumAdds(unseen, Copies(qty, r.behind));
  }

  lemma LandedExactly(qty: int, r: Reply)
    requires qty >= 1
    ensures r.acked ==> (Sum(Landings(qty, r)) == qty <==> r.behind == 0)
    ensures !r.acked ==> (Sum(Landings(qty, r)) == 0 <==> r.behind == 0)
  {
    LandingsSum(qty, r);
  }

  /** Broker quantities (position, exit order) after each step of a booking that has an exit
      order at the broker. */
  function Trail(held: int, gtt: int, openQty: int, qty: int, s: Script): seq<(int, int)> {
    if !s.resize.Done? then [(held, if s.resize.Lands() then openQty - qty else gtt)]
    else
      var rest := openQty - qty;
      var left := held - Sum(Landings(qty, s.reply));
      [(held, rest), (left, rest)] + (if s.reply.acked then [] else [(left, if s.restore.Lands() then openQty else rest)])
  }

  /** The exit order such a booking ends with. */
  function ExitLeft(gtt: int, openQty: int, qty: int, s: Script): int {
    if s.resize.Refused? then gtt
    else if s.resize.Done? && !s.reply.acked && s.restore.Lands() then openQty
    else openQty - qty
  }

  ghost predicate ExitWithinPosition(steps: seq<(int, int)>) {
    forall i :: 0 <= i < |steps| ==> steps[i].1 <= steps[i].0
  }

  ghost predicate PositionWithinExit(steps: seq<(int, int)>) {
    forall i :: 0 <= i < |steps| ==> steps[i].0 <= steps[i].1
  }

  /** Starting in agreement: the exit order never exceeds the position exactly unless a reduction
      landed twice, or landed behind an error and the exit order was then put back; the position
      never exceeds its protection exactly when the resize was refused; and a failed booking ends in
      agreement exactly when the resize was refused, or it was done, nothing was reduced and the
      exit order was put back. */
  lemma ProtectionOrder(openQty: int, qty: int, s: Script)
    requires 1 <= qty < openQty
    ensures var t := Trail(openQty, openQty, openQty, qty, s);
            && t != []
            && (ExitWithinPosition(t) <==>
                !(s.resize.Done? && (|Landings(qty, s.reply)| >= 2 || (!s.reply.acked && s.reply.behind >= 1 && s.restore.Lands()))))
            && (PositionWithinExit(t) <==> s.resize.Refused?)
            && (!(s.reply.acked && s.resize.Done?) ==>
                  (t[|t| - 1] == (openQty, openQty) <==> s.resize.Refused? || (s.resize.Done? && s.reply.behind == 0 && s.restore.Lands())))
  {
    LandingsSum(qty, s.reply);
    var t, left := Trail(openQty, openQty, openQty, qty, s), openQty - Sum(Landings(qty, s.reply));
    StepByStep(t);
    if s.resize.Done? {
      assert t[0] == (openQty, openQty - qty) && t[1] == (left, openQty - qty);
      assert left < openQty - qty <==> |Landings(qty, s.reply)| >= 2;
      assert left < openQty <==> |Landings(qty, s.reply)| >= 1;
      assert |t| == if s.reply.acked then 2 else 3;
    } else {
      assert |t| == 1;
    }
  }

  lemma StepByStep(t: seq<(int, int)>)
    requires 1 <= |t| <= 3
    ensures ExitWithinPosition(t) <==>
              t[0].1 <= t[0].0 && (|t| > 1 ==> t[1].1 <= t[1].0) && (|t| > 2 ==> t[2].1 <= t[2].0)
    ensures PositionWithinExit(t) <==>
              t[0].0 <= t[0].1 && (|t| > 1 ==> t[1].0 <= t[1].1) && (|t| > 2 ==> t[2].0 <= t[2].1)
  {
  }

  /** What the table says of a position. */
  datatype Row = Row(
    side: Side, entry: real, target: real, tick: real, paper: bool, hasBrokerGtt: bool,
    quantity: int, bookedQty: int, slTrigger: real, closed: bool)
  {
    function BookQty(cfg: Settings): int {
      QtyToBook(quantity, cfg.qtyPct)
    }

    function NewStop(cfg: Settings): real
      requires tick > 0.0
    {
      if cfg.toBreakeven then Triggers.ToTick(entry, tick) else slTrigger
    }

    /** There is something to book and the re-armed band would bracket the price. */
    predicate Ready(cfg: Settings, ltp: real)
      requires tick > 0.0
    {
      BookQty(cfg) > 0 && (if side == Sell then target < ltp < NewStop(cfg) else NewStop(cfg) < ltp < target)
    }

    predicate Sends(cfg: Settings, ltp: real, s: Script)
      requires tick > 0.0
    {
      Ready(cfg, ltp) && !cfg.paper && (hasBrokerGtt ==> s.resize.Done?)
    }

    predicate Books(cfg: Settings, ltp: real, s: Script)
      requires tick > 0.0
    {
      Ready(cfg, ltp) && (cfg.paper || (Sends(cfg, ltp, s) && s.reply.acked))
    }

    /** The price has come this share of the way from entry to target. */
    predicate Come(ltp: real, share: real) {
      match side
      case Buy => if target > entry then ltp >= entry + share * (target - entry) else share <= 0.0
      case Sell => if target < entry then ltp <= entry - share * (entry - target) else share <= 0.0
    }

    /** A pass looks at the position: open, of the pass's mode, unbooked, of more than one unit, with a
        live exit order and a quote that has come far enough. */
    predicate Eligible(cfg: Settings, v: View) {
      !closed && paper == cfg.paper && bookedQty == 0 && quantity > 1 && v.gttLive && v.ltp.Some? && Come(v.ltp.value, cfg.triggerPct)
    }

    /** And it books. */
    predicate Meets(cfg: Settings, v: View)
      requires tick > 0.0
    {
      Eligible(cfg, v) && Books(cfg, v.ltp.value, v.script)
    }

    /** The slice it then closes. */
    function SliceOf(cfg: Settings, v: View): Slice {
      Slice(BookQty(cfg), if v.ltp.Some? then v.ltp.value else 0.0)
    }
  }

  lemma ComesWhen(r: Row, ltp: real, share: real)
    ensures r.Come(ltp, share) <==> ProgressToTarget(r.side, r.entry, r.target, ltp) >= share
  {
    var span := if r.side == Sell then r.entry - r.target else r.target - r.entry;
    var moved := if r.side == Sell then r.entry - ltp else ltp - r.entry;
    if span > 0.0 {
      ShareOf(moved, span, share);
    }
  }

  lemma ShareOf(moved: real, span: real, share: real)
    requires span > 0.0
    ensures moved / span >= share <==> moved >= share * span
  {
    var q := moved / span;
    assert q * span == moved;
    if q >= share {
      assert (q - share) * span >= 0.0;
    } else {
      assert (share - q) * span > 0.0;
    }
  }

  class Position {
    const side: Side
    const entry: real
    const target: real
    const tick: real
    const units: int
    const hasBrokerGtt: bool
    const paper: bool
    const original: int
    var quantity: int
    var bookedQty: int
    var bookedPnl: real
    var slTrigger: real
    var closed: bool
    /** What the broker holds: the position and the size of its exit order. */
    var heldQty: int
    var gttQty: int
    /** Broker quantities (position, exit order) after every broker step. */
    ghost var steps: seq<(int, int)>
    /** Every reducing order that reached the broker, and those of them the caller took for failed. */
    ghost var landed: seq<int>
    ghost var unseen: seq<int>
    /** The slices booked so far. */
    ghost var slices: seq<Slice>

    constructor (side: Side, entry: real, target: real, slTrigger: real, tick: real, units: int, quantity: int, hasBrokerGtt: bool, paper: bool)
      requires tick > 0.0
      ensures this.side == side && this.entry == entry && this.target == target && this.units == units && this.tick == tick
      ensures this.original == this.quantity == heldQty == gttQty == quantity
      ensures this.hasBrokerGtt == hasBrokerGtt && this.paper == paper && this.slTrigger == slTrigger && !closed
      ensures bookedQty == 0 && bookedPnl == 0.0 && steps == [] && slices == [] && landed == [] && unseen == []
      ensures Tallied()
    {
      this.side, this.entry, this.target, this.slTrigger, this.units := side, entry, target, slTrigger, units;
      this.tick, this.paper, this.hasBrokerGtt, original := tick, paper, hasBrokerGtt, quantity;
      this.quantity, heldQty, gttQty, closed := quantity, quantity, quantity, false;
      bookedQty, bookedPnl, steps, slices, landed, unseen := 0, 0.0, [], [], [], [];
    }

    /** Booked at most once, and then the slice is a proper one with its rounded P&L banked. */
    ghost predicate Latched()
      reads this
    {
      && tick > 0.0 && quantity + bookedQty == original && |slices| <= 1
      && (slices == [] <==> bookedQty == 0) && (slices == [] ==> bookedPnl == 0.0)
      && (slices != [] ==> slices[0].qty == bookedQty && bookedQty >= 1 && quantity >= 1)
      && (slices != [] ==> bookedPnl == Round2(PaperPnl(side, entry, slices[0].price, bookedQty, units)))
    }

    /** Every unit is accounted for at the broker: what it holds and what left it by a reducing
        order, seen or not. Once booked, the exit order is for what the row has left. */
    ghost predicate Counted()
      reads this
    {
      && Accounted(original, heldQty, landed, unseen, bookedQty, |slices|)
      && (hasBrokerGtt && slices != [] ==> gttQty == quantity)
    }

    ghost predicate Tallied()
      reads this
    {
      Latched() && (!paper ==> Counted())
    }

    /** The database row, the broker position and its exit order agree. */
    ghost predicate InSync()
      reads this
    {
      quantity == heldQty == gttQty
    }

    function AsRow(): Row
      reads this
    {
      Row(side, entry, target, tick, paper, hasBrokerGtt, quantity, bookedQty, slTrigger, closed)
    }

    method ModifyGtt(qty: int, change: Change) returns (ok: bool)
      modifies this`gttQty, this`steps
      ensures ok == change.Done? && gttQty == if change.Lands() then qty else old(gttQty)
      ensures steps == old(steps) + [(heldQty, gttQty)]
    {
      if change.Lands() {
        gttQty := qty;
      }
      steps := steps + [(heldQty, gttQty)];
      ok := change.Done?;
    }

    /** Send the reducing order; every attempt that lands takes its quantity off the position. */
    method Reduce(qty: int, reply: Reply) returns (ok: bool)
      requires qty >= 1
      modifies this`heldQty, this`steps, this`landed, this`unseen
      ensures ok == reply.acked
      ensures heldQty == old(heldQty) - Sum(Landings(qty, reply))
      ensures landed == old(landed) + Landings(qty, reply) && unseen == old(unseen) + Copies(qty, reply.behind)
      ensures steps == old(steps) + [(heldQty, gttQty)]
    {
      ghost var before := heldQty;
      LandingsSum(qty, reply);
      for n := 0 to reply.behind
        invariant heldQty == before - Sum(Copies(qty, n))
        invariant gttQty == old(gttQty) && steps == old(steps) && landed == old(landed) && unseen == old(unseen)
      {
        assert Copies(qty, n + 1)[..n] == Copies(qty, n);
        heldQty := heldQty - qty;
      }
      if reply.acked {
        heldQty := heldQty - qty;
      }
      landed, unseen := landed + Landings(qty, reply), unseen + Copies(qty, reply.behind);
      steps := steps + [(heldQty, gttQty)];
      ok := reply.acked;
    }

    /** Shrink the exit order to the remainder, then reduce; put the exit order back if the
        reduction fails. `Trail` says what the broker goes through. */
    method BrokerSteps(bookQty: int, s: Script) returns (ok: bool)
      requires 1 <= bookQty < quantity
      modifies this`heldQty, this`gttQty, this`steps, this`landed, this`unseen
      ensures ok <==> (hasBrokerGtt ==> s.resize.Done?) && s.reply.acked
      ensures Sent(old(landed), old(unseen), old(heldQty), hasBrokerGtt ==> s.resize.Done?, bookQty, s.reply)
      ensures Stepped(old(steps), old(heldQty), old(gttQty), quantity, bookQty, s)
    {
      var openQty := quantity;
      if hasBrokerGtt {
        var resized := ModifyGtt(openQty - bookQty, s.resize);
        if !resized {
          return false;
        }
      }
      ok := Reduce(bookQty, s.reply);
      if !ok && hasBrokerGtt {
        var restored := ModifyGtt(openQty, s.restore);
      }
    }

    /** The row after a completed booking. */
    method Record(bookQty: int, ltp: real, newSl: real)
      modifies this`quantity, this`bookedQty, this`bookedPnl, this`slTrigger, this`slices
      ensures quantity == old(quantity) - bookQty && bookedQty == bookQty && slTrigger == newSl
      ensures bookedPnl == Round2(PaperPnl(side, entry, ltp, bookQty, units)) && slices == old(slices) + [Slice(bookQty, ltp)]
    {
      slices := slices + [Slice(bookQty, ltp)];
      quantity := quantity - bookQty;
      bookedQty := bookQty;
      bookedPnl := Round2(PaperPnl(side, entry, ltp, bookQty, units));
      slTrigger := newSl;
    }

    /** The broker's half of a booking, live only: what is sent, what lands, and how the exit order ends. */
    method AtBroker(cfg: Settings, bookQty: int, s: Script) returns (ok: bool)
      requires 1 <= bookQty < quantity
      modifies this`heldQty, this`gttQty, this`steps, this`landed, this`unseen
      ensures ok <==> cfg.paper || ((hasBrokerGtt ==> s.resize.Done?) && s.reply.acked)
      ensures Sent(old(landed), old(unseen), old(heldQty), !cfg.paper && (hasBrokerGtt ==> s.resize.Done?), bookQty, s.reply)
      ensures if cfg.paper then steps == old(steps) && gttQty == old(gttQty)
              else Stepped(old(steps), old(heldQty), old(gttQty), quantity, bookQty, s)
      ensures !cfg.paper && hasBrokerGtt && old(InSync()) ==>
                if ok then gttQty == quantity - bookQty && (heldQty == gttQty <==> s.reply.behind == 0)
                else InSync() <==> s.resize.Refused? || (s.resize.Done? && s.reply.behind == 0 && s.restore.Lands())
    {
      ok := true;
      if !cfg.paper {
        LandedExactly(bookQty, s.reply);
        ok := BrokerSteps(bookQty, s);
      }
    }

    /** What one call will leave accounted for, if everything is now. */
    lemma TallyAfter(cfg: Settings, bookQty: int, s: Script)
      requires bookQty >= 1
      ensures Accounted(original, heldQty, landed, unseen, 0, 0) && !cfg.paper && (hasBrokerGtt ==> s.resize.Done?) ==>
                Accounted(original, heldQty - Sum(Landings(bookQty, s.reply)), landed + Landings(bookQty, s.reply),
                          unseen + Copies(bookQty, s.reply.behind), if s.reply.acked then bookQty else 0, if s.reply.acked then 1 else 0)
    {
      if Accounted(original, heldQty, landed, unseen, 0, 0) {
        CallAccounted(original, heldQty, landed, unseen, bookQty, s.reply);
      }
    }

    /** The broker steps since `steps0`, and the exit order they end with. */
    ghost predicate Stepped(steps0: seq<(int, int)>, held0: int, gtt0: int, openQty: int, qty: int, s: Script)
      reads this
    {
      && steps == steps0 + (if hasBrokerGtt then Trail(held0, gtt0, openQty, qty, s) else [(heldQty, gttQty)])
      && gttQty == if hasBrokerGtt then ExitLeft(gtt0, openQty, qty, s) else gtt0
    }

    /** What a reducing call that was or was not sent leaves at the broker. */
    ghost predicate Sent(landed0: seq<int>, unseen0: seq<int>, held0: int, sent: bool, qty: int, r: Reply)
      reads this
    {
      if sent then landed == landed0 + Landings(qty, r) && unseen == unseen0 + Copies(qty, r.behind) && heldQty == held0 - Sum(Landings(qty, r))
      else landed == landed0 && unseen == unseen0 && heldQty == held0
    }

    /** Close part of the position and re-arm the exit order on the remainder. */
    method BookPartial(cfg: Settings, ltp: real, s: Script) returns (done: bool)
      requires tick > 0.0
      modifies this
      ensures done == old(AsRow()).Books(cfg, ltp, s) && closed == old(closed)
      ensures Sent(old(landed), old(unseen), old(heldQty), old(AsRow()).Sends(cfg, ltp, s), old(AsRow()).BookQty(cfg), s.reply)
      ensures if old(AsRow()).Ready(cfg, ltp) && !cfg.paper then Stepped(old(steps), old(heldQty), old(gttQty), old(quantity), old(AsRow()).BookQty(cfg), s)
              else steps == old(steps) && gttQty == old(gttQty)
      ensures done ==>
                && 1 <= bookedQty == old(AsRow()).BookQty(cfg) < old(quantity) && quantity == old(quantity) - bookedQty
                && bookedPnl == Round2(PaperPnl(side, entry, ltp, bookedQty, units))
                && slTrigger == old(AsRow()).NewStop(cfg) && slices == old(slices) + [Slice(bookedQty, ltp)]
                && (if side == Sell then target < ltp < slTrigger else slTrigger < ltp < target)
      ensures !done ==>
                && quantity == old(quantity) && bookedQty == old(bookedQty) && bookedPnl == old(bookedPnl)
                && slTrigger == old(slTrigger) && slices == old(slices)
      ensures !cfg.paper && hasBrokerGtt && old(InSync()) ==>
              (InSync() <==> !old(AsRow()).Ready(cfg, ltp) || s.resize.Refused?
                             || (s.resize.Done? && s.reply.behind == 0 && (s.reply.acked || s.restore.Lands())))
      ensures old(Tallied()) && old(bookedQty) == 0 && cfg.paper == paper ==> Tallied()
    {
      BookedIsProper(quantity, cfg.qtyPct);
      var bookQty := QtyToBook(quantity, cfg.qtyPct);
      if bookQty <= 0 {
        return false;
      }
      var newSl := if cfg.toBreakeven then Triggers.ToTick(entry, tick) else slTrigger;
      var bandOk := if side == Sell then target < ltp < newSl else newSl < ltp < target;
      if !bandOk {
        return false;
      }
      TallyAfter(cfg, bookQty, s);
      done := AtBroker(cfg, bookQty, s);
      if done {
        Record(bookQty, ltp, newSl);
      }
    }

    /** The final close: the P&L written is that of the closing slice plus what was banked, which
        is the P&L of all slices closed, up to half a paisa; together they are the whole position. */
    method ClosePaper(exit: real) returns (pnl: real, ghost legs: seq<Slice>)
      requires Latched()
      modifies this`closed
      ensures closed && legs == slices + [Slice(quantity, exit)]
      ensures Abs(pnl - SlicesPnl(side, entry, units, legs)) <= 0.005
      ensures slices == [] ==> pnl == SlicesPnl(side, entry, units, legs)
      ensures SlicesQty(legs) == original
    {
      closed := true;
      legs := slices + [Slice(quantity, exit)];
      Closed(side, entry, units, slices, Slice(quantity, exit));
      if slices != [] {
        assert slices == [] + [slices[0]];
        Closed(side, entry, units, [], slices[0]);
        Round2Close(PaperPnl(side, entry, slices[0].price, slices[0].qty, units));
      }
      pnl := PaperPnl(side, entry, exit, quantity, units);
      pnl := pnl + bookedPnl;
    }
  }

  function SlicesPnl(side: Side, entry: real, units: int, legs: seq<Slice>): real {
    if legs == [] then 0.0
    else SlicesPnl(side, entry, units, legs[..|legs| - 1]) + PaperPnl(side, entry, legs[|legs| - 1].price, legs[|legs| - 1].qty, units)
  }

  function SlicesQty(legs: seq<Slice>): int {
    if legs == [] then 0 else SlicesQty(legs[..|legs| - 1]) + legs[|legs| - 1].qty
  }

  lemma Closed(side: Side, entry: real, units: int, legs: seq<Slice>, last: Slice)
    ensures SlicesPnl(side, entry, units, legs + [last]) == SlicesPnl(side, entry, units, legs) + PaperPnl(side, entry, last.price, last.qty, units)
    ensures SlicesQty(legs + [last]) == SlicesQty(legs) + last.qty
  {
    assert (legs + [last])[..|legs|] == legs;
  }

  lemma Round2Close(x: real)
    ensures Abs(Round2(x) - x) <= 0.005
  {
    RoundIsNearest(x * 100.0, 0);
  }

  /** The row and the broker agree on the open quantity exactly when no reducing order that was
      sent landed behind an error; and then at most one landed. */
  lemma AgreesWhen(p: Position)
    requires p.Tallied() && !p.paper
    ensures p.heldQty == p.quantity <==> p.unseen == []
    ensures p.unseen == [] ==> |p.landed| <= 1
  {
    SumAtLeast(p.unseen, 1);
  }

  // ---- Passes ----

  /** Reducing orders of one pass that land although it takes them for failed. */
  function Lost(r: Row, cfg: Settings, v: View): seq<int>
    requires r.tick > 0.0
  {
    if r.Eligible(cfg, v) && r.Sends(cfg, v.ltp.value, v.script) then Copies(r.BookQty(cfg), v.script.reply.behind) else []
  }

  /** What one pass makes of a row: the slice moves to the booked side and the stop moves. */
  function RowAfter(r: Row, cfg: Settings, v: View): Row
    requires r.tick > 0.0
  {
    if r.Meets(cfg, v) then r.(quantity := r.quantity - r.BookQty(cfg), bookedQty := r.BookQty(cfg), slTrigger := r.NewStop(cfg)) else r
  }

  function SlicesAfter(slices: seq<Slice>, r: Row, cfg: Settings, v: View): seq<Slice>
    requires r.tick > 0.0
  {
    if r.Meets(cfg, v) then slices + [r.SliceOf(cfg, v)] else slices
  }

  method PassOne(p: Position, cfg: Settings, v: View)
    requires p.Tallied()
    modifies p
    ensures p.Tallied() && p.unseen == old(p.unseen) + Lost(old(p.AsRow()), cfg, v)
    ensures p.AsRow() == RowAfter(old(p.AsRow()), cfg, v)
    ensures p.slices == SlicesAfter(old(p.slices), old(p.AsRow()), cfg, v)
    ensures old(p.bookedQty) != 0 ==> p.bookedPnl == old(p.bookedPnl) && p.landed == old(p.landed)
  {
    if !p.closed && p.paper == cfg.paper && p.bookedQty == 0 && p.quantity > 1 && v.gttLive && v.ltp.Some? {
      ComesWhen(p.AsRow(), v.ltp.value, cfg.triggerPct);
      if ProgressToTarget(p.side, p.entry, p.target, v.ltp.value) >= cfg.triggerPct {
        var done := p.BookPartial(cfg, v.ltp.value, v.script);
      }
    }
  }

  /** One-minute pass over all positions; a failing row leaves the others alone. */
  method Pass(positions: seq<Position>, cfg: Settings, views: seq<View>)
    requires |views| == |positions|
    requires forall i, j :: 0 <= i < j < |positions| ==> positions[i] != positions[j]
    requires forall i :: 0 <= i < |positions| ==> positions[i].Tallied()
    modifies positions
    ensures forall i :: 0 <= i < |positions| ==> positions[i].Tallied()
    ensures forall i :: 0 <= i < |positions| ==>
      && old(positions[i].Tallied())
      && positions[i].unseen == old(positions[i].unseen) + Lost(old(positions[i].AsRow()), cfg, views[i])
      && positions[i].AsRow() == RowAfter(old(positions[i].AsRow()), cfg, views[i])
      && positions[i].slices == SlicesAfter(old(positions[i].slices), old(positions[i].AsRow()), cfg, views[i])
  {
    for k := 0 to |positions|
      invariant forall i :: 0 <= i < |positions| ==> positions[i].Tallied()
      invariant forall i :: 0 <= i < k ==>
        && positions[i].unseen == old(positions[i].unseen) + Lost(old(positions[i].AsRow()), cfg, views[i])
        && positions[i].AsRow() == RowAfter(old(positions[i].AsRow()), cfg, views[i])
        && positions[i].slices == SlicesAfter(old(positions[i].slices), old(positions[i].AsRow()), cfg, views[i])
      invariant forall i :: k <= i < |positions| ==> unchanged(positions[i])
    {
      PassOne(positions[k], cfg, views[k]);
    }
  }

  // ---- Which pass books ----

  /** Some pass books a position that starts from this row. */
  ghost predicate MetBy(r: Row, cfgs: seq<Settings>, views: seq<View>)
    requires |cfgs| == |views| && r.tick > 0.0
  {
    exists n :: 0 <= n < |views| && r.Meets(cfgs[n], views[n])
  }

  /** After these passes the row is as it was if none of them books it, and otherwise has the slice
      of the first that does. */
  ghost predicate BookedByFirst(r: Row, slices: seq<Slice>, cfgs: seq<Settings>, views: seq<View>, r': Row, slices': seq<Slice>)
    requires |cfgs| == |views| && r.tick > 0.0
  {
    if !MetBy(r, cfgs, views) then r' == r && slices' == slices
    else exists n :: 0 <= n < |views| && FirstMet(r, cfgs, views, n)
                     && r' == RowAfter(r, cfgs[n], views[n]) && slices' == slices + [r.SliceOf(cfgs[n], views[n])]
  }

  ghost predicate FirstMet(r: Row, cfgs: seq<Settings>, views: seq<View>, n: nat)
    requires |cfgs| == |views| && r.tick > 0.0 && n < |views|
  {
    r.Meets(cfgs[n], views[n]) && forall m :: 0 <= m < n ==> !r.Meets(cfgs[m], views[m])
  }

  lemma NextPass(r: Row, slices: seq<Slice>, cfgs: seq<Settings>, views: seq<View>, r': Row, slices': seq<Slice>, n: nat)
    requires |cfgs| == |views| && r.tick > 0.0 && n < |views|
    requires BookedByFirst(r, slices, cfgs[..n], views[..n], r', slices')
    ensures BookedByFirst(r, slices, cfgs[..n + 1], views[..n + 1],
                          RowAfter(r', cfgs[n], views[n]), SlicesAfter(slices', r', cfgs[n], views[n]))
  {
    var cs, vs := cfgs[..n + 1], views[..n + 1];
    assert forall m :: 0 <= m < n ==> cs[m] == cfgs[..n][m] && vs[m] == views[..n][m];
    assert cs[n] == cfgs[n] && vs[n] == views[n];
    if MetBy(r, cfgs[..n], views[..n]) {
      var m :| 0 <= m < n && FirstMet(r, cfgs[..n], views[..n], m) && r' == RowAfter(r, cfgs[..n][m], views[..n][m])
               && slices' == slices + [r.SliceOf(cfgs[..n][m], views[..n][m])];
      BookedIsProper(r.quantity, cs[m].qtyPct);
      assert !r'.Meets(cfgs[n], views[n]);
      assert FirstMet(r, cs, vs, m);
      assert MetBy(r, cs, vs);
    } else if r.Meets(cfgs[n], views[n]) {
      assert FirstMet(r, cs, vs, n);
      assert MetBy(r, cs, vs);
    }
  }

  /** What the passes see of the `i`-th position. */
  function Column(history: seq<seq<View>>, i: nat): seq<View>
    requires forall n :: 0 <= n < |history| ==> i < |history[n]|
  {
    seq(|history|, n requires 0 <= n < |history| => history[n][i])
  }

  /** Where a position starts: its row and the slices already closed. */
  datatype Start = Start(row: Row, slices: seq<Slice>)

  ghost function Starts(positions: seq<Position>): (s: seq<Start>)
    reads positions
    ensures |s| == |positions|
    ensures forall i :: 0 <= i < |s| ==> s[i] == Start(positions[i].AsRow(), positions[i].slices)
  {
    if positions == [] then []
    else
      var last := positions[|positions| - 1];
      Starts(positions[..|positions| - 1]) + [Start(last.AsRow(), last.slices)]
  }

  ghost predicate Followed(p: Position, start: Start, cfgs: seq<Settings>, views: seq<View>)
    reads p
  {
    && |cfgs| == |views| && start.row.tick > 0.0
    && BookedByFirst(start.row, start.slices, cfgs, views, p.AsRow(), p.slices)
  }

  /** So far, after `n` passes. */
  ghost predicate AllFollowed(positions: seq<Position>, start: seq<Start>, cfgs: seq<Settings>, history: seq<seq<View>>, n: nat)
    requires |cfgs| == |history| && n <= |history| && forall m :: 0 <= m < |history| ==> |history[m]| == |positions|
    reads positions
  {
    && |start| == |positions|
    && forall i :: 0 <= i < |positions| ==> Followed(positions[i], start[i], cfgs[..n], Column(history, i)[..n])
  }

  lemma NoPassYet(positions: seq<Position>, start: seq<Start>, cfgs: seq<Settings>, history: seq<seq<View>>)
    requires |cfgs| == |history| && forall m :: 0 <= m < |history| ==> |history[m]| == |positions|
    requires start == Starts(positions) && forall i :: 0 <= i < |positions| ==> positions[i].Tallied()
    ensures AllFollowed(positions, start, cfgs, history, 0)
  {
    forall i | 0 <= i < |positions|
      ensures Followed(positions[i], start[i], cfgs[..0], Column(history, i)[..0])
    {
      assert positions[i].Tallied();
    }
  }

  lemma WholeHistory(positions: seq<Position>, start: seq<Start>, cfgs: seq<Settings>, history: seq<seq<View>>)
    requires |cfgs| == |history| && forall m :: 0 <= m < |history| ==> |history[m]| == |positions|
    requires AllFollowed(positions, start, cfgs, history, |history|)
    ensures forall i :: 0 <= i < |positions| ==> Followed(positions[i], start[i], cfgs, Column(history, i))
  {
    assert cfgs[..|history|] == cfgs;
    forall i | 0 <= i < |positions|
      ensures Followed(positions[i], start[i], cfgs, Column(history, i))
    {
      assert Column(history, i)[..|history|] == Column(history, i);
      assert Followed(positions[i], start[i], cfgs[..|history|], Column(history, i)[..|history|]);
    }
  }

  /** The `n`-th pass. */
  method PassOn(positions: seq<Position>, ghost start: seq<Start>, cfgs: seq<Settings>, history: seq<seq<View>>, n: nat)
    requires |cfgs| == |history| && n < |history| && forall m :: 0 <= m < |history| ==> |history[m]| == |positions|
    requires forall i, j :: 0 <= i < j < |positions| ==> positions[i] != positions[j]
    requires forall i :: 0 <= i < |positions| ==> positions[i].Tallied()
    requires AllFollowed(positions, start, cfgs, history, n)
    modifies positions
    ensures forall i :: 0 <= i < |positions| ==> positions[i].Tallied()
    ensures AllFollowed(positions, start, cfgs, history, n + 1)
  {
    Pass(positions, cfgs[n], history[n]);
    forall i | 0 <= i < |positions|
      ensures Followed(positions[i], start[i], cfgs[..n + 1], Column(history, i)[..n + 1])
    {
      assert old(Followed(positions[i], start[i], cfgs[..n], Column(history, i)[..n]));
      NextPass(start[i].row, start[i].slices, cfgs, Column(history, i), old(positions[i].AsRow()), old(positions[i].slices), n);
    }
  }

  /** A slice booked at a positive trigger earns at least that share of the way to target a unit. */
  lemma MetProfits(r: Row, cfg: Settings, v: View, units: int)
    requires r.tick > 0.0 && r.Meets(cfg, v) && cfg.triggerPct > 0.0 && units >= 1
    ensures var s := r.SliceOf(cfg, v);
            && (if r.side == Buy then r.entry < s.price < r.target else r.target < s.price < r.entry)
            && PaperPnl(r.side, r.entry, s.price, s.qty, units) >= cfg.triggerPct * Abs(r.target - r.entry) * s.qty as real * units as real
  {
    ComesWhen(r, v.ltp.value, cfg.triggerPct);
    BookedIsProper(r.quantity, cfg.qtyPct);
    BookedSliceProfits(r.side, r.entry, r.target, v.ltp.value, cfg.triggerPct, r.BookQty(cfg), units);
    if r.side == Buy {
      assert cfg.triggerPct * (r.target - r.entry) > 0.0;
    } else {
      assert cfg.triggerPct * (r.entry - r.target) > 0.0;
    }
  }

  /** Any number of passes, the settings free to change in between: the first pass that a position
      meets books it, no other does, and the books stay straight. */
  method Passes(positions: seq<Position>, cfgs: seq<Settings>, history: seq<seq<View>>)
    requires |cfgs| == |history| && forall n :: 0 <= n < |history| ==> |history[n]| == |positions|
    requires forall i, j :: 0 <= i < j < |positions| ==> positions[i] != positions[j]
    requires forall i :: 0 <= i < |positions| ==> positions[i].Tallied()
    modifies positions
    ensures forall i :: 0 <= i < |positions| ==> positions[i].Tallied()
    ensures forall i :: 0 <= i < |positions| ==> Followed(positions[i], old(Starts(positions))[i], cfgs, Column(history, i))
  {
    ghost var start := Starts(positions);
    NoPassYet(positions, start, cfgs, history);
    for n := 0 to |history|
      invariant forall i :: 0 <= i < |positions| ==> positions[i].Tallied()
      invariant AllFollowed(positions, start, cfgs, history, n)
    {
      PassOn(positions, start, cfgs, history, n);
    }
    WholeHistory(positions, start, cfgs, history);
  }

  /** Which is to say: the row is booked at most once and loses no unit; at the broker every unit is
      accounted for, and row and broker agree exactly when no reducing order that was sent landed behind
      an error, in which case at most one landed; and once booked, the exit order is for what is left. */
  lemma TalliedMeans(p: Position)
    requires p.Tallied()
    ensures p.quantity + p.bookedQty == p.original && |p.slices| <= 1 && (p.bookedQty != 0 <==> p.slices != [])
    ensures !p.paper ==>
      && p.heldQty + Sum(p.landed) == p.original
      && (p.heldQty == p.quantity <==> p.unseen == [])
      && (p.unseen == [] ==> |p.landed| <= 1)
      && (p.hasBrokerGtt && p.slices != [] ==> p.gttQty == p.quantity)
  {
    if !p.paper { AgreesWhen(p); }
  }

  /** At the end a position is booked exactly when it started booked or some pass met it. */
  lemma BookedAtEnd(r: Row, slices: seq<Slice>, cfgs: seq<Settings>, views: seq<View>, r': Row, slices': seq<Slice>)
    requires |cfgs| == |views| && r.tick > 0.0 && BookedByFirst(r, slices, cfgs, views, r', slices')
    ensures r'.bookedQty != 0 <==> r.bookedQty != 0 || MetBy(r, cfgs, views)
    ensures |slices'| == |slices| + if MetBy(r, cfgs, views) then 1 else 0
  {
    if MetBy(r, cfgs, views) {
      var n :| 0 <= n < |views| && FirstMet(r, cfgs, views, n)
               && r' == RowAfter(r, cfgs[n], views[n]) && slices' == slices + [r.SliceOf(cfgs[n], views[n])];
      BookedIsProper(r.quantity, cfgs[n].qtyPct);
    }
  }

  /** Any passes over a paper position and then its close: the P&L written is that of the slices
      actually closed, up to half a paisa, and the slices are the whole position, two of them exactly
      when it started booked or some pass met it. */
  method PassesThenClose(p: Position, cfgs: seq<Settings>, history: seq<View>, exit: real) returns (pnl: real, ghost legs: seq<Slice>)
    requires |cfgs| == |history| && p.Tallied()
    modifies p
    ensures old(p.Tallied()) && p.closed && SlicesQty(legs) == p.original
    ensures |legs| == if old(p.bookedQty) != 0 || MetBy(old(p.AsRow()), cfgs, history) then 2 else 1
    ensures Abs(pnl - SlicesPnl(p.side, p.entry, p.units, legs)) <= 0.005
  {
    for n := 0 to |history|
      invariant p.Tallied() && BookedByFirst(old(p.AsRow()), old(p.slices), cfgs[..n], history[..n], p.AsRow(), p.slices)
    {
      ghost var r, s := p.AsRow(), p.slices;
      PassOne(p, cfgs[n], history[n]);
      NextPass(old(p.AsRow()), old(p.slices), cfgs, history, r, s, n);
    }
    assert cfgs[..|history|] == cfgs && history[..|history|] == history;
    BookedAtEnd(old(p.AsRow()), old(p.slices), cfgs, history, p.AsRow(), p.slices);
    pnl, legs := p.ClosePaper(exit);
  }

  /** Ten units, long from 100 to a target of 200, with an exit order at the broker. */
  method TenLong() returns (p: Position)
    ensures fresh(p) && p.side == Buy && p.entry == 100.0 && p.target == 200.0 && p.tick == 0.05 && p.hasBrokerGtt && !p.paper
    ensures p.original == p.quantity == p.heldQty == p.gttQty == 10 && p.slTrigger == 50.0 && p.Tallied()
    ensures p.bookedQty == 0 && p.landed == p.unseen == [] && p.slices == [] && p.steps == []
  {
    p := new Position(Buy, 100.0, 200.0, 50.0, 0.05, 1, 10, true, false);
  }

  const EXAMPLE := Settings(false, 0.35, 0.5, false)

  lemma ExampleQty()
    ensures QtyToBook(10, 0.35) == 3 && ProgressToTarget(Buy, 100.0, 200.0, 160.0) >= EXAMPLE.triggerPct
    ensures Landings(3, Reply(false, 1)) == [3] && Landings(3, Reply(true, 0)) == [3] && Sum([3]) == 3
  {
    assert Copies(3, 1) == [3] && Copies(3, 0) == [];
    SumAtLeast([3], 3);
  }

  /** One call on that position at 160, past the trigger. */
  method BookTen(p: Position, reply: Reply) returns (done: bool)
    requires p.side == Buy && p.target == 200.0 && p.tick > 0.0 && p.hasBrokerGtt && p.quantity == 10 && p.slTrigger == 50.0
    modifies p
    ensures p.slTrigger == 50.0
    ensures done == reply.acked && p.quantity == (if done then 7 else 10) && p.bookedQty == (if done then 3 else old(p.bookedQty))
    ensures p.landed == old(p.landed) + Landings(3, reply) && p.heldQty == old(p.heldQty) - Sum(Landings(3, reply))
    ensures p.slices == old(p.slices) + (if done then [Slice(3, 160.0)] else [])
  {
    ExampleQty();
    done := p.BookPartial(EXAMPLE, 160.0, Script(Done, reply, Done));
  }

  /** A first reducing order that lands behind an error and a second that is acknowledged: two
      orders of three landed, the row has booked three of ten, and the broker holds four. */
  method ReducedTwice() returns (p: Position)
    ensures p.quantity == 7 && p.bookedQty == 3 && |p.slices| == 1
    ensures p.landed == [3, 3] && p.heldQty == 4 && p.original == 10
  {
    ExampleQty();
    p := TenLong();
    var first := BookTen(p, Reply(false, 1));
    var second := BookTen(p, Reply(true, 0));
  }

  /** The ordinary booking passes through a moment at which the position is bigger than its
      protection: ten units, the exit order already cut to seven. */
  method BiggerThanItsProtection() returns (p: Position)
    ensures p.heldQty == 7 == p.gttQty && p.steps == [(10, 7), (7, 7)]
  {
    ExampleQty();
    p := TenLong();
    var ok := p.BrokerSteps(3, Script(Done, Reply(true, 0), Done));
  }

  /** A resize that takes effect and then raises: nothing is booked and nothing put back, and the ten
      units are left under an exit order of seven. */
  method LeftUnderprotected() returns (p: Position, done: bool)
    ensures !done && p.quantity == p.heldQty == 10 && p.gttQty == 7 && p.bookedQty == 0 && p.steps == [(10, 7)]
  {
    ExampleQty();
    p := TenLong();
    done := p.BookPartial(EXAMPLE, 160.0, Script(LandedButRaised, Reply(true, 0), Done));
  }
}
