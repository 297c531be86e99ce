/** One wake-up of the hedge loop (app/delta_hedge.py): which books are due, one hedge per tick,
    and carrying a crowded-out book over to the next minute. */
module Dispatcher {
  import opened Nums
  import opened HedgeEngine
  import HedgeOrders

  type Minute = m: nat | m < 60

  datatype Cadence = Cadence(interval: int, phase: int)

  predicate OnCadence(c: Cadence, minute: Minute) {
    c.interval <= 1 || minute % c.interval == c.phase % c.interval
  }

  predicate IsDue(c: Cadence, minute: Minute, carryover: bool) {
    carryover || OnCadence(c, minute)
  }

  function NextMinute(minute: Minute): Minute {
    (minute + 1) % 60
  }

  /** A cadence can be due in two adjacent minutes of the clock exactly when it is due every
      minute, or fires at :59 and :00. */
  lemma AdjacentMinutes(c: Cadence)
    ensures (exists m: Minute :: OnCadence(c, m) && OnCadence(c, NextMinute(m)))
            <==> c.interval <= 1 || (c.interval == 59 && c.phase % 59 == 0)
  {
    if c.interval <= 1 {
      assert OnCadence(c, 0) && OnCadence(c, NextMinute(0));
    } else if c.interval == 59 && c.phase % 59 == 0 {
      assert OnCadence(c, 59) && OnCadence(c, NextMinute(59));
    } else {
      forall m: Minute | OnCadence(c, m)
        ensures !OnCadence(c, NextMinute(m))
      {
        NeverAdjacent(c, m);
      }
    }
  }

  lemma NeverAdjacent(c: Cadence, m: Minute)
    requires c.interval >= 2 && !(c.interval == 59 && c.phase % 59 == 0) && OnCadence(c, m)
    ensures !OnCadence(c, NextMinute(m))
  {
    if m < 59 {
      StepMod(m, c.interval);
    } else {
      assert NextMinute(m) == 0;
      SmallMod(c.interval);
      if 59 % c.interval == 0 { DividesPrime(c.interval); }
    }
  }

  lemma SmallMod(k: int)
    requires k >= 1
    ensures 0 % k == 0
  {
  }

  lemma StepMod(m: nat, k: int)
    requires k >= 2
    ensures (m + 1) % k != m % k
  {
    var q, r := m / k, m % k;
    if r + 1 < k {
      ModIs(m + 1, q, r + 1, k);
    } else {
      assert (q + 1) * k == q * k + k;
      ModIs(m + 1, q + 1, 0, k);
    }
  }

  lemma DividesPrime(k: int)
    requires 2 <= k && 59 % k == 0
    ensures k == 59
  {
  }

  // ---- One tick ----

  datatype Outcome = Ran(result: Result) | Raised

  /** What happens when a due book is evaluated: it runs on what it finds, or raises somewhere
      and leaves its slice as `left`, the carry-over flag already consumed. */
  datatype Visit = Runs(v: View) | Raises(left: Book)

  datatype Desk = Desk(spec: Spec, state: HedgeState)

  /** Whether some of these outcomes is a hedge. */
  predicate AnyHedged(results: seq<Outcome>) {
    exists i :: 0 <= i < |results| && results[i] == Ran(Hedged)
  }

  predicate AtMostOneHedged(results: seq<Outcome>) {
    forall i, j :: 0 <= i < j < |results| ==> !(results[i] == Ran(Hedged) && results[j] == Ran(Hedged))
  }

  ghost predicate VisitOk(d: Desk, visit: Visit) {
    d.spec.Valid() && (visit.Runs? ==> visit.v.Valid(d.spec.lotUnits))
  }

  /** How the evaluation of a book ends, by what it finds and whether it may place orders. */
  function OutcomeOf(s: Spec, visit: Visit, cfg: Config, now: real, b: Book, allow: bool): Outcome
    requires s.samples >= 1
  {
    match visit
    case Raises(_) => Raised
    case Runs(v) => Ran(ResultOf(s, cfg, v, now, allow, b))
  }

  /** And the slice it leaves. */
  function SliceAfter(s: Spec, visit: Visit, now: real, b: Book, o: Outcome): Book {
    match visit
    case Raises(left) => left.(carryover := false)
    case Runs(v) => if o.Ran? then BookNext(s, v, now, b, o.result) else b
  }

  /** The `i`-th due book may place orders exactly when no earlier one hedged. */
  ghost predicate Arbitrated(d: Desk, visit: Visit, cfg: Config, now: real, b: Book, b': Book, results: seq<Outcome>, i: nat)
    requires i < |results| && d.spec.samples >= 1
  {
    && results[i] == OutcomeOf(d.spec, visit, cfg, now, b, !AnyHedged(results[..i]))
    && b' == SliceAfter(d.spec, visit, now, b, results[i])
  }

  /** So it is crowded out exactly when it wants to hedge behind one that did, and hedges exactly
      when it can, none having hedged before it. */
  lemma ArbitratedMeans(d: Desk, visit: Visit, cfg: Config, now: real, b: Book, b': Book, results: seq<Outcome>, i: nat)
    requires i < |results| && d.spec.samples >= 1 && Arbitrated(d, visit, cfg, now, b, b', results, i)
    ensures b'.carryover <==> results[i] == Ran(Deferred)
    ensures results[i] == Ran(Deferred) <==> AnyHedged(results[..i]) && visit.Runs? && Wants(d.spec, cfg, visit.v, now, b)
    ensures results[i] == Ran(Hedged) <==>
              && !AnyHedged(results[..i]) && visit.Runs? && Wants(d.spec, cfg, visit.v, now, b)
              && visit.v.candidate.Some? && !visit.v.dryRun && HedgeOrders.Winner(visit.v.rungs).Some?
    ensures results[i] == Raised <==> visit.Raises?
  {
  }

  /** Evaluate the due books in order; once one has hedged, the rest may only defer. */
  method RunDue(due: seq<Desk>, visits: seq<Visit>, cfg: Config, now: real) returns (results: seq<Outcome>)
    requires |visits| == |due|
    requires forall i :: 0 <= i < |due| ==> VisitOk(due[i], visits[i])
    requires forall i, j :: 0 <= i < j < |due| ==> due[i].state != due[j].state
    modifies set d | d in due :: d.state
    ensures |results| == |due|
    ensures forall i :: 0 <= i < |due| ==>
      && VisitOk(due[i], visits[i])
      && Arbitrated(due[i], visits[i], cfg, now, old(due[i].state.State()), due[i].state.State(), results, i)
    ensures AtMostOneHedged(results)
  {
    results := [];
    var hedged := false;
    for n := 0 to |due|
      invariant |results| == n
      invariant hedged == AnyHedged(results)
      invariant AtMostOneHedged(results)
      invariant forall i :: 0 <= i < n ==>
        && VisitOk(due[i], visits[i])
        && Arbitrated(due[i], visits[i], cfg, now, old(due[i].state.State()), due[i].state.State(), results, i)
      invariant forall i :: n <= i < |due| ==> due[i].state.State() == old(due[i].state.State())
    {
      var d := due[n];
      assert VisitOk(due[n], visits[n]);
      var outcome := VisitOne(d, visits[n], cfg, now, hedged);
      ghost var sofar := results;
      results := results + [outcome];
      Extends(sofar, outcome);
      hedged := hedged || outcome == Ran(Hedged);
    }
  }

  lemma Extends(sofar: seq<Outcome>, o: Outcome)
    ensures AnyHedged(sofar + [o]) <==> AnyHedged(sofar) || o == Ran(Hedged)
    ensures AtMostOneHedged(sofar) && (o == Ran(Hedged) ==> !AnyHedged(sofar)) ==> AtMostOneHedged(sofar + [o])
    ensures (sofar + [o])[..|sofar|] == sofar
    ensures forall i :: 0 <= i < |sofar| ==> (sofar + [o])[..i] == sofar[..i] && (sofar + [o])[i] == sofar[i]
  {
    var all := sofar + [o];
    assert all[|sofar|] == o;
    assert forall i :: 0 <= i < |sofar| ==> all[i] == sofar[i];
  }

  lemma NoneBefore(results: seq<Outcome>)
    ensures !AnyHedged(results[..0])
    ensures results != [] ==> (AnyHedged(results[..1]) <==> results[0] == Ran(Hedged))
  {
    if results != [] { assert results[..1][0] == results[0]; }
  }

  /** One due book inside the tick's try block. */
  method VisitOne(d: Desk, visit: Visit, cfg: Config, now: real, hedged: bool) returns (o: Outcome)
    requires VisitOk(d, visit)
    modifies d.state
    ensures o == OutcomeOf(d.spec, visit, cfg, now, old(d.state.State()), !hedged)
    ensures d.state.State() == SliceAfter(d.spec, visit, now, old(d.state.State()), o)
  {
    match visit
    case Raises(left) =>
      d.state.Leave(left);
      o := Raised;
    case Runs(v) =>
      var result, _ := d.state.Process(d.spec, cfg, v, now, !hedged);
      o := Ran(result);
  }

  // ---- The job ----

  /** The carry-over flags of the state file. */
  datatype Flags = Flags(ng: bool, crude: bool)

  /** One wake-up as seen from outside: `session` says that books could be evaluated, `ran` that the
      due ones were, and each book has an outcome when it was among them. */
  datatype Tick = Tick(
    date: int, minute: Minute, ngOn: bool, crudeOn: bool, session: bool, ran: bool, ng: Option<Outcome>, crude: Option<Outcome>)

  /** What a wake-up finds: switches, broker session, the one-shot half exit, and the visits. */
  datatype World = World(
    halted: bool, date: int, minute: Minute, now: real, ngOn: bool, crudeOn: bool,
    positionsOk: bool, halfExit: bool, ng: Visit, crude: Visit)
  {
    /** Not stopped, positions fetched, and the book not just restructured by a half exit. */
    predicate Session() { !halted && positionsOk && !(ngOn && halfExit) }
  }

  datatype Rota = Rota(ng: Cadence, crude: Cadence)

  function Deferral(o: Option<Outcome>, flag: bool): bool {
    if o.Some? then o.value == Ran(Deferred) else flag
  }

  /** The slice of a book after a wake-up that may have evaluated it. */
  function AfterVisit(s: Spec, visit: Visit, now: real, b: Book, o: Option<Outcome>): Book {
    if o.Some? then SliceAfter(s, visit, now, b, o.value) else b
  }

  function FlagsAfter(f: Flags, t: Tick): Flags {
    Flags(Deferral(t.ng, f.ng), Deferral(t.crude, f.crude))
  }

  /** What the dispatcher promises about one wake-up that starts from the flags `f`. */
  ghost predicate Obeys(r: Rota, f: Flags, t: Tick) {
    && (t.ran <==> t.session && ((t.ngOn && IsDue(r.ng, t.minute, f.ng)) || (t.crudeOn && IsDue(r.crude, t.minute, f.crude))))
    && (t.ng.Some? <==> t.ran && t.ngOn && IsDue(r.ng, t.minute, f.ng))
    && (t.crude.Some? <==> t.ran && t.crudeOn && IsDue(r.crude, t.minute, f.crude))
    && t.ng != Some(Ran(Deferred))
    && (t.crude == Some(Ran(Deferred)) ==> t.ng == Some(Ran(Hedged)))
    && !(t.ng == Some(Ran(Hedged)) && t.crude == Some(Ran(Hedged)))
  }

  class DeltaHedgeJob {
    const rota: Rota
    const ng: HedgeState
    const crude: HedgeState
    var date: int

    constructor (rota: Rota, date: int)
      ensures Valid() && Carried() == Flags(false, false) && fresh(ng) && fresh(crude)
      ensures this.rota == rota && this.date == date
    {
      this.rota, this.date := rota, date;
      ng := new HedgeState();
      crude := new HedgeState();
    }

    ghost predicate Valid() { ng != crude }

    function Carried(): Flags
      reads ng, crude
    {
      Flags(ng.carryover, crude.carryover)
    }

    /** The flags a tick on `today` starts from. */
    function CarriedOn(today: int): Flags
      reads this, ng, crude
    {
      if date == today then Carried() else Flags(false, false)
    }

    /** The slices a tick on `today` starts from. */
    function SlicesOn(today: int): Slices
      reads this, ng, crude
    {
      if date == today then Slices(ng.State(), crude.State()) else Slices(Blank, Blank)
    }

    /** Load the state file: a new date starts both books from blank slices. */
    method Load(today: int)
      requires Valid()
      modifies this, ng, crude
      ensures date == today && Carried() == old(CarriedOn(today))
      ensures date == old(date) ==> ng.State() == old(ng.State()) && crude.State() == old(crude.State())
      ensures date != old(date) ==> ng.State() == crude.State() == Blank
    {
      if date != today {
        date := today;
        ng.Reset();
        crude.Reset();
      }
    }

    /** The due books, NATURALGAS first. */
    method EvaluateDue(specNg: Spec, specCrude: Spec, cfg: Config, w: World, ngDue: bool, crudeDue: bool)
      returns (ngOutcome: Option<Outcome>, crudeOutcome: Option<Outcome>)
      requires Valid()
      requires VisitOk(Desk(specNg, ng), w.ng) && VisitOk(Desk(specCrude, crude), w.crude)
      modifies ng, crude
      ensures ngOutcome == if ngDue then Some(OutcomeOf(specNg, w.ng, cfg, w.now, old(ng.State()), true)) else None
      ensures crudeOutcome == if crudeDue then Some(OutcomeOf(specCrude, w.crude, cfg, w.now, old(crude.State()), ngOutcome != Some(Ran(Hedged)))) else None
      ensures ng.State() == AfterVisit(specNg, w.ng, w.now, old(ng.State()), ngOutcome)
      ensures crude.State() == AfterVisit(specCrude, w.crude, w.now, old(crude.State()), crudeOutcome)
    {
      ghost var ngBefore, crudeBefore := ng.State(), crude.State();
      var due, visits := [], [];
      if ngDue {
        due, visits := [Desk(specNg, ng)], [w.ng];
      }
      if crudeDue {
        due, visits := due + [Desk(specCrude, crude)], visits + [w.crude];
      }
      var results := RunDue(due, visits, cfg, w.now);
      NoneBefore(results);
      ngOutcome, crudeOutcome := None, None;
      if ngDue {
        assert VisitOk(due[0], visits[0]) && due[0].state == ng;
        assert Arbitrated(due[0], visits[0], cfg, w.now, ngBefore, ng.State(), results, 0);
        ngOutcome := Some(results[0]);
      }
      if crudeDue {
        var last := |results| - 1;
        assert VisitOk(due[last], visits[last]) && due[last].state == crude;
        assert Arbitrated(due[last], visits[last], cfg, w.now, crudeBefore, crude.State(), results, last);
        crudeOutcome := Some(results[last]);
      }
    }

    method Wake(specNg: Spec, specCrude: Spec, cfg: Config, w: World) returns (t: Tick)
      requires Valid()
      requires VisitOk(Desk(specNg, ng), w.ng) && VisitOk(Desk(specCrude, crude), w.crude)
      modifies this, ng, crude
      ensures specNg.samples >= 1 && specCrude.samples >= 1
      ensures Woken(specNg, specCrude, cfg, w, t, old(SlicesOn(w.date)), SlicesOn(w.date))
      ensures Obeys(rota, old(CarriedOn(w.date)), t)
      ensures CarriedOn(w.date) == FlagsAfter(old(CarriedOn(w.date)), t)
    {
      t := Tick(w.date, w.minute, w.ngOn, w.crudeOn, w.Session(), false, None, None);
      if w.halted || (!w.ngOn && !w.crudeOn) {
        return;
      }
      Load(w.date);
      var ngDue := w.ngOn && IsDue(rota.ng, w.minute, ng.carryover);
      var crudeDue := w.crudeOn && IsDue(rota.crude, w.minute, crude.carryover);
      if (!ngDue && !crudeDue) || !w.positionsOk || (w.ngOn && w.halfExit) {
        return;
      }
      var ngOutcome, crudeOutcome := EvaluateDue(specNg, specCrude, cfg, w, ngDue, crudeDue);
      t := t.(ran := true, ng := ngOutcome, crude := crudeOutcome);
    }
  }

  // ---- A day of wake-ups ----

  /** The flags left by a day's wake-ups, from a blank state file. */
  function Carry(ticks: seq<Tick>): Flags {
    if ticks == [] then Flags(false, false) else FlagsAfter(Carry(ticks[..|ticks| - 1]), ticks[|ticks| - 1])
  }

  ghost predicate Day(r: Rota, ticks: seq<Tick>) {
    forall i :: 0 <= i < |ticks| ==> Obeys(r, Carry(ticks[..i]), ticks[i])
  }

  predicate CrowdedOut(t: Tick) {
    t.crude == Some(Ran(Deferred))
  }

  /** The book that leads the list never has to carry over. */
  lemma {:induction false} LeaderNeverCarried(r: Rota, ticks: seq<Tick>)
    requires Day(r, ticks)
    ensures !Carry(ticks).ng
  {
    if ticks != [] {
      var init := ticks[..|ticks| - 1];
      assert forall i :: 0 <= i < |init| ==> init[..i] == ticks[..i];
      LeaderNeverCarried(r, init);
      assert Obeys(r, Carry(init), ticks[|ticks| - 1]);
    }
  }

  /** So the second book is crowded out only in minutes of the leader's own cadence. */
  lemma CrowdedOnLeaderCadence(r: Rota, ticks: seq<Tick>, i: nat)
    requires Day(r, ticks) && i < |ticks| && CrowdedOut(ticks[i])
    ensures OnCadence(r.ng, ticks[i].minute) && ticks[i].ng == Some(Ran(Hedged))
  {
    assert forall j :: 0 <= j < i ==> ticks[..i][..j] == ticks[..j];
    LeaderNeverCarried(r, ticks[..i]);
    assert Obeys(r, Carry(ticks[..i]), ticks[i]);
  }

  /** The second book could be evaluated at this wake-up. */
  predicate CrudeOpen(t: Tick) {
    t.session && t.crudeOn
  }

  /** A deferral outlives every wake-up at which the book cannot be evaluated. */
  lemma {:induction false} StaysCarried(r: Rota, ticks: seq<Tick>, i: nat, j: nat)
    requires Day(r, ticks) && i < j <= |ticks| && CrowdedOut(ticks[i])
    requires forall k :: i < k < j ==> !CrudeOpen(ticks[k])
    ensures Carry(ticks[..j]).crude
  {
    assert ticks[..j][..j - 1] == ticks[..j - 1];
    assert Obeys(r, Carry(ticks[..j - 1]), ticks[j - 1]);
    if j - 1 > i {
      StaysCarried(r, ticks, i, j - 1);
    }
  }

  /** A crowded-out book is evaluated at the next wake-up that has a session and finds it switched
      on, however many are lost before; and when that is the next minute it is not crowded out
      again: the leader is not due then, unless its cadence has adjacent minutes. */
  lemma TurnComesNext(r: Rota, ticks: seq<Tick>, i: nat, j: nat)
    requires Day(r, ticks) && i < j < |ticks| && CrowdedOut(ticks[i])
    requires CrudeOpen(ticks[j]) && forall k :: i < k < j ==> !CrudeOpen(ticks[k])
    ensures ticks[j].ran && ticks[j].crude.Some?
    ensures ticks[j].minute == NextMinute(ticks[i].minute)
            && 2 <= r.ng.interval && !(r.ng.interval == 59 && r.ng.phase % 59 == 0)
            ==> ticks[j].ng == None && !CrowdedOut(ticks[j])
  {
    StaysCarried(r, ticks, i, j);
    CrowdedOnLeaderCadence(r, ticks, i);
    assert Obeys(r, Carry(ticks[..j]), ticks[j]);
    assert forall k :: 0 <= k < j ==> ticks[..j][..k] == ticks[..k];
    LeaderNeverCarried(r, ticks[..j]);
    AdjacentMinutes(r.ng);
  }

  /** Completed wake-ups `i` and `j` of a day, none completed between, crowd out the second book
      both times, at these minutes. */
  ghost predicate TwiceCrowded(r: Rota, ticks: seq<Tick>, i: nat, j: nat, m: Minute, m': Minute) {
    && Day(r, ticks) && i < j < |ticks|
    && ticks[i].ran && ticks[j].ran && (forall k :: i < k < j ==> !ticks[k].ran)
    && ticks[i].minute == m && ticks[j].minute == m' && CrowdedOut(ticks[i]) && CrowdedOut(ticks[j])
  }

  predicate OnBoth(r: Rota, m: Minute) {
    OnCadence(r.ng, m) && OnCadence(r.crude, m)
  }

  /** A book is crowded out on its own cadence, or because it was carried over; so the first time
      falls on both cadences. */
  lemma {:induction false} FirstCrowdingOnBoth(r: Rota, ticks: seq<Tick>, i: nat) returns (first: nat)
    requires Day(r, ticks) && i < |ticks| && (CrowdedOut(ticks[i]) || Carry(ticks[..i + 1]).crude)
    ensures first <= i && OnBoth(r, ticks[first].minute)
  {
    assert ticks[..i + 1][..i] == ticks[..i];
    assert Obeys(r, Carry(ticks[..i]), ticks[i]);
    if CrowdedOut(ticks[i]) && OnCadence(r.crude, ticks[i].minute) {
      CrowdedOnLeaderCadence(r, ticks, i);
      first := i;
    } else {
      assert Carry(ticks[..i]).crude && i > 0;
      first := FirstCrowdingOnBoth(r, ticks, i - 1);
    }
  }

  /** A day with two consecutive completed wake-ups at these minutes that both crowd out the second
      book exists exactly when both minutes are on the leader's cadence and some minute is on both
      cadences: with the default odd minutes that takes a wake-up lost in between. */
  lemma TwiceCrowdedWhen(r: Rota, m: Minute, m': Minute)
    ensures (exists ticks: seq<Tick>, i: nat, j: nat :: TwiceCrowded(r, ticks, i, j, m, m'))
            <==> OnCadence(r.ng, m) && OnCadence(r.ng, m') && exists both: Minute :: OnBoth(r, both)
  {
    forall ticks: seq<Tick>, i: nat, j: nat | TwiceCrowded(r, ticks, i, j, m, m')
      ensures OnCadence(r.ng, m) && OnCadence(r.ng, m') && exists both: Minute :: OnBoth(r, both)
    {
      CrowdedOnLeaderCadence(r, ticks, i);
      CrowdedOnLeaderCadence(r, ticks, j);
      var first := FirstCrowdingOnBoth(r, ticks, i);
      assert OnBoth(r, ticks[first].minute);
    }
    if both: Minute :| OnBoth(r, both) && OnCadence(r.ng, m) && OnCadence(r.ng, m') {
      var t := Tick(0, both, true, true, true, true, Some(Ran(Hedged)), Some(Ran(Deferred)));
      CrowdedDay(r, t, m, m');
      assert TwiceCrowded(r, [t] + [t.(minute := m)] + [t.(minute := m')], 1, 2, m, m');
    }
  }

  /** Crowded out on both cadences, and again at each of two minutes of the leader's. */
  lemma CrowdedDay(r: Rota, t: Tick, m: Minute, m': Minute)
    requires t == Tick(0, t.minute, true, true, true, true, Some(Ran(Hedged)), Some(Ran(Deferred)))
    requires OnBoth(r, t.minute) && OnCadence(r.ng, m) && OnCadence(r.ng, m')
    ensures Day(r, [t] + [t.(minute := m)] + [t.(minute := m')])
  {
    DaySnoc(r, [], t);
    assert [] + [t] == [t];
    DaySnoc(r, [t], t.(minute := m));
    DaySnoc(r, [t] + [t.(minute := m)], t.(minute := m'));
  }

  /** The slices of both books. */
  datatype Slices = Slices(ng: Book, crude: Book)

  /** The tick is what this wake-up does from these slices: it sees what there is to see, and each
      book evaluated ends as its own visit makes it, leaving its slice accordingly. */
  ghost predicate Woken(specNg: Spec, specCrude: Spec, cfg: Config, w: World, t: Tick, b: Slices, b': Slices)
    requires specNg.samples >= 1 && specCrude.samples >= 1
  {
    && t.date == w.date && t.minute == w.minute && t.ngOn == w.ngOn && t.crudeOn == w.crudeOn && t.session == w.Session()
    && (t.ng.Some? ==> t.ng.value == OutcomeOf(specNg, w.ng, cfg, w.now, b.ng, true))
    && (t.crude.Some? ==> t.crude.value == OutcomeOf(specCrude, w.crude, cfg, w.now, b.crude, t.ng != Some(Ran(Hedged))))
    && b' == Slices(AfterVisit(specNg, w.ng, w.now, b.ng, t.ng), AfterVisit(specCrude, w.crude, w.now, b.crude, t.crude))
  }

  /** A day of wake-ups of the job with nothing carried over, logged, with the slices between them. */
  method RunDay(job: DeltaHedgeJob, specNg: Spec, specCrude: Spec, cfg: Config, today: int, worlds: seq<World>)
    returns (ticks: seq<Tick>, ghost slices: seq<Slices>)
    requires job.Valid() && job.CarriedOn(today) == Flags(false, false) && specNg.samples >= 1 && specCrude.samples >= 1
    requires forall i :: 0 <= i < |worlds| ==> Presented(job, specNg, specCrude, today, worlds[i])
    modifies job, job.ng, job.crude
    ensures |ticks| == |worlds| && Day(job.rota, ticks) && job.CarriedOn(today) == Carry(ticks)
    ensures |slices| == |ticks| + 1 && slices[0] == old(job.SlicesOn(today)) && slices[|ticks|] == job.SlicesOn(today)
    ensures forall i :: 0 <= i < |ticks| ==> Woken(specNg, specCrude, cfg, worlds[i], ticks[i], slices[i], slices[i + 1])
  {
    ticks, slices := [], [job.SlicesOn(today)];
    for i := 0 to |worlds|
      invariant |ticks| == i && Day(job.rota, ticks) && job.CarriedOn(today) == Carry(ticks)
      invariant |slices| == i + 1 && slices[0] == old(job.SlicesOn(today)) && slices[i] == job.SlicesOn(today)
      invariant forall j :: 0 <= j < i ==> Woken(specNg, specCrude, cfg, worlds[j], ticks[j], slices[j], slices[j + 1])
    {
      assert Presented(job, specNg, specCrude, today, worlds[i]);
      var t := job.Wake(specNg, specCrude, cfg, worlds[i]);
      DaySnoc(job.rota, ticks, t);
      ticks, slices := ticks + [t], slices + [job.SlicesOn(today)];
    }
  }

  ghost predicate Presented(job: DeltaHedgeJob, specNg: Spec, specCrude: Spec, today: int, w: World) {
    && w.date == today
    && VisitOk(Desk(specNg, job.ng), w.ng) && VisitOk(Desk(specCrude, job.crude), w.crude)
  }

  lemma DaySnoc(r: Rota, ticks: seq<Tick>, t: Tick)
    requires Day(r, ticks) && Obeys(r, Carry(ticks), t)
    ensures Day(r, ticks + [t]) && Carry(ticks + [t]) == FlagsAfter(Carry(ticks), t)
  {
    var all := ticks + [t];
    assert all[..|ticks|] == ticks;
    assert forall i :: 0 <= i < |ticks| ==> all[..i] == ticks[..i] && all[i] == ticks[i];
  }
}
