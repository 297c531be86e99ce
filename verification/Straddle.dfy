/** The straddle entry saga: protective wings first, then the two short legs, compensating
    when a step fails (app/main.py `_process_straddle`, app/entry_wings.py). Live mode. */
module Straddle {
  datatype Leg = CallShort | PutShort | CallWing | PutWing

  /** What becomes of an order: filled with an id, refused, or it lands at the broker although
      the caller's wait for its id has already timed out. */
  datatype Reply = Filled | Refused | Late

  datatype Policy = Policy(wingsEnabled: bool, wingsRequired: bool)

  /** Everything the outside world decides during one entry. */
  datatype Script = Script(
    wingsFound: bool, tooExpensive: bool, callWing: Reply, putWing: Reply, loneWingSold: bool,
    sessionUp: bool, callShort: Reply, putShort: Reply, cancelWorks: bool,
    callWingSold: bool, putWingSold: bool)

  const WINGS := {CallWing, PutWing}
  const SHORTS := {CallShort, PutShort}

  class Broker {
    var on: set<Leg>
    /** The legs that were on each time a short leg was sent. */
    ghost var shortsSentOver: seq<set<Leg>>

    constructor ()
      ensures on == {} && shortsSentOver == []
    {
      on, shortsSentOver := {}, [];
    }

    method Send(leg: Leg, reply: Reply) returns (id: bool)
      modifies this
      ensures id <==> reply == Filled
      ensures on == if reply == Refused then old(on) else old(on) + {leg}
      ensures shortsSentOver == if leg in SHORTS then old(shortsSentOver) + [old(on)] else old(shortsSentOver)
    {
      if leg in SHORTS {
        shortsSentOver := shortsSentOver + [on];
      }
      if reply != Refused {
        on := on + {leg};
      }
      id := reply == Filled;
    }

    /** Cancel an order or sell a leg back. */
    method Undo(leg: Leg, works: bool)
      modifies this`on
      ensures on == if works then old(on) - {leg} else old(on)
    {
      if works {
        on := on - {leg};
      }
    }
  }

  /** Wings left behind by an attempt that did not put both on. */
  function StrayWings(s: Script): set<Leg> {
    (if s.callWing == Late || (s.callWing == Filled && !s.loneWingSold) then {CallWing} else {}) +
    (if s.putWing == Late || (s.putWing == Filled && !s.loneWingSold) then {PutWing} else {})
  }

  predicate BothWings(s: Script) {
    s.callWing == Filled && s.putWing == Filled
  }

  /** Buy both wings; a lone wing is sold back, because it is not protection. */
  method PlaceEntryWings(broker: Broker, s: Script) returns (ok: bool)
    requires broker.on == {}
    modifies broker
    ensures ok <==> BothWings(s)
    ensures broker.on == if BothWings(s) then WINGS else StrayWings(s)
    ensures broker.shortsSentOver == old(broker.shortsSentOver)
  {
    var call := broker.Send(CallWing, s.callWing);
    var put := broker.Send(PutWing, s.putWing);
    if call != put {
      broker.Undo(if call then CallWing else PutWing, s.loneWingSold);
      return false;
    }
    ok := call;
  }

  predicate WingsTried(p: Policy, s: Script) {
    p.wingsEnabled && s.wingsFound && !s.tooExpensive
  }

  /** The entry has its wings on record. */
  predicate WingsOn(p: Policy, s: Script) {
    WingsTried(p, s) && BothWings(s)
  }

  /** Wings could not be had and the policy demands them. */
  predicate Blocked(p: Policy, s: Script) {
    p.wingsEnabled && p.wingsRequired && !WingsOn(p, s)
  }

  method AttachEntryWings(broker: Broker, p: Policy, s: Script) returns (plan: bool, blocked: bool)
    requires broker.on == {} && p.wingsEnabled
    modifies broker
    ensures plan == WingsOn(p, s) && blocked == Blocked(p, s)
    ensures broker.on == if plan then WINGS else if WingsTried(p, s) then StrayWings(s) else {}
    ensures broker.shortsSentOver == old(broker.shortsSentOver)
  {
    if !s.wingsFound || s.tooExpensive {
      return false, p.wingsRequired;
    }
    var ok := PlaceEntryWings(broker, s);
    if !ok {
      return false, p.wingsRequired;
    }
    return true, false;
  }

  method ReverseEntryWings(broker: Broker, s: Script)
    modifies broker`on
    ensures broker.on == old(broker.on) - (if s.callWingSold then {CallWing} else {})
                                        - (if s.putWingSold then {PutWing} else {})
  {
    broker.Undo(CallWing, s.callWingSold);
    broker.Undo(PutWing, s.putWingSold);
  }

  /** The program's own account of the entry: nothing, two pending orders without an id, a
      straddle, or a straddle with wings. Fills are matched by id, so stubs never become legs. */
  datatype Booked = Nothing | Stubs | Naked | Winged {
    function Legs(): set<Leg> {
      match this
      case Nothing => {}
      case Stubs => {}
      case Naked => SHORTS
      case Winged => SHORTS + WINGS
    }
  }

  predicate ShortsFilled(s: Script) {
    s.callShort == Filled && s.putShort == Filled
  }

  /** Nothing landed late and every compensation that was needed worked. */
  predicate WingPhaseClean(p: Policy, s: Script) {
    WingsTried(p, s) ==>
      s.callWing != Late && s.putWing != Late && ((s.callWing == Filled) != (s.putWing == Filled) ==> s.loneWingSold)
  }

  predicate ShortPhaseClean(p: Policy, s: Script) {
    && (WingsOn(p, s) ==> s.sessionUp)
    && (s.sessionUp ==>
          && s.callShort != Late && s.putShort != Late
          && ((s.callShort == Filled) != (s.putShort == Filled) ==> s.cancelWorks)
          && (WingsOn(p, s) && !ShortsFilled(s) ==> s.callWingSold && s.putWingSold))
  }

  predicate Clean(p: Policy, s: Script) {
    WingPhaseClean(p, s) && (Blocked(p, s) || ShortPhaseClean(p, s))
  }

  /** The account the short phase leaves: with no wings to give back, a pair refused on both sides
      is recorded as if it had been placed. */
  function Account(plan: bool, s: Script): Booked {
    if !s.sessionUp || ((s.callShort == Filled) != (s.putShort == Filled)) then Nothing
    else if ShortsFilled(s) then if plan then Winged else Naked
    else if plan then Nothing else Stubs
  }

  /** Place both short legs; cancel a lone one and give the wings back when the pair is incomplete. */
  method PlaceShorts(broker: Broker, plan: bool, s: Script) returns (booked: Booked)
    requires broker.on !! SHORTS && (plan ==> broker.on == WINGS)
    modifies broker
    ensures booked == Account(plan, s)
    ensures !s.sessionUp ==> broker.on == old(broker.on) && broker.shortsSentOver == old(broker.shortsSentOver)
    ensures s.sessionUp ==> |broker.shortsSentOver| == |old(broker.shortsSentOver)| + 2
                            && old(broker.shortsSentOver) < broker.shortsSentOver
    ensures forall i :: |old(broker.shortsSentOver)| <= i < |broker.shortsSentOver|
                        ==> old(broker.on) <= broker.shortsSentOver[i]
    ensures s.sessionUp ==> AsLeft(broker.on, plan, old(broker.on), s)
  {
    if !s.sessionUp {
      return Nothing;
    }
    var call := broker.Send(CallShort, s.callShort);
    var put := broker.Send(PutShort, s.putShort);
    if call && put {
      return if plan then Winged else Naked;
    }
    if call != put {
      broker.Undo(if call then CallShort else PutShort, s.cancelWorks);
    }
    if plan {
      ReverseEntryWings(broker, s);
    }
    booked := if call == put && !plan then Stubs else Nothing;
  }

  /** Whether a leg is on after the short phase. */
  predicate LegLeft(leg: Leg, plan: bool, before: set<Leg>, s: Script) {
    match leg
    case CallShort => s.callShort == Late || (s.callShort == Filled && (s.putShort == Filled || !s.cancelWorks))
    case PutShort => s.putShort == Late || (s.putShort == Filled && (s.callShort == Filled || !s.cancelWorks))
    case CallWing => CallWing in before && !(plan && !ShortsFilled(s) && s.callWingSold)
    case PutWing => PutWing in before && !(plan && !ShortsFilled(s) && s.putWingSold)
  }

  /** Leg by leg, what the short phase leaves on. */
  ghost predicate AsLeft(on: set<Leg>, plan: bool, before: set<Leg>, s: Script) {
    && (CallShort in on <==> LegLeft(CallShort, plan, before, s))
    && (PutShort in on <==> LegLeft(PutShort, plan, before, s))
    && (CallWing in on <==> LegLeft(CallWing, plan, before, s))
    && (PutWing in on <==> LegLeft(PutWing, plan, before, s))
  }

  lemma EveryLeg(on: set<Leg>, plan: bool, before: set<Leg>, s: Script)
    requires AsLeft(on, plan, before, s)
    ensures forall leg :: leg in on <==> LegLeft(leg, plan, before, s)
  {
  }

  /** Short legs are on without both wings. */
  predicate Exposed(on: set<Leg>) {
    on * SHORTS != {} && !(WINGS <= on)
  }

  /** Required wings, and yet a short leg survives its compensation while the wings are sold. */
  predicate LeftExposed(p: Policy, s: Script) {
    && WingsOn(p, s) && s.sessionUp && !ShortsFilled(s) && (s.callWingSold || s.putWingSold)
    && (s.callShort == Late || s.putShort == Late || ((s.callShort == Filled) != (s.putShort == Filled) && !s.cancelWorks))
  }

  /** One live entry. The broker ends up with exactly the legs the program has on its books if
      and only if nothing landed late, every needed compensation worked and the session held
      once the wings were on. When wings are required no short leg is ever sent without both
      wings on, and one is left uncovered exactly in the case `LeftExposed`. */
  method ProcessStraddle(p: Policy, s: Script) returns (broker: Broker, booked: Booked)
    ensures fresh(broker)
    ensures broker.on == booked.Legs() <==> Clean(p, s)
    ensures booked == Winged <==> WingsOn(p, s) && s.sessionUp && ShortsFilled(s)
    ensures booked == Naked <==> !WingsOn(p, s) && !Blocked(p, s) && s.sessionUp && ShortsFilled(s)
    ensures booked == Stubs <==> !WingsOn(p, s) && !Blocked(p, s) && s.sessionUp && s.callShort != Filled && s.putShort != Filled
    ensures booked == Stubs ==> (CallShort in broker.on <==> s.callShort == Late) && (PutShort in broker.on <==> s.putShort == Late)
    ensures p.wingsEnabled && p.wingsRequired ==>
              forall i :: 0 <= i < |broker.shortsSentOver| ==> WINGS <= broker.shortsSentOver[i]
    ensures p.wingsEnabled && p.wingsRequired ==> (Exposed(broker.on) <==> LeftExposed(p, s))
  {
    broker := new Broker();
    var plan, blocked := false, false;
    if p.wingsEnabled {
      plan, blocked := AttachEntryWings(broker, p, s);
    }
    if blocked {
      return broker, Nothing;
    }
    ghost var before := broker.on;
    booked := PlaceShorts(broker, plan, s);
    if s.sessionUp {
      EveryLeg(broker.on, plan, before, s);
      FinalLegs(p, s, before, broker.on, booked);
      if p.wingsEnabled && p.wingsRequired {
        FinalExposure(p, s, broker.on);
      }
    }
  }

  /** No wings wanted and both short legs refused: nothing is on, and two pending orders are recorded. */
  method RefusedTwice() returns (broker: Broker, booked: Booked)
    ensures fresh(broker) && broker.on == {} && booked == Stubs
  {
    var s := Script(true, false, Filled, Filled, true, true, Refused, Refused, true, true, true);
    broker, booked := ProcessStraddle(Policy(false, false), s);
  }

  /** The same with both orders landing after the wait for their ids: both short legs are on, and
      the recorded orders carry no id to find their fills by. */
  method LandedLateTwice() returns (broker: Broker, booked: Booked)
    ensures fresh(broker) && SHORTS <= broker.on && booked == Stubs
  {
    var s := Script(true, false, Filled, Filled, true, true, Late, Late, true, true, true);
    broker, booked := ProcessStraddle(Policy(false, false), s);
  }

  lemma FinalLegs(p: Policy, s: Script, before: set<Leg>, on: set<Leg>, booked: Booked)
    requires s.sessionUp && !Blocked(p, s)
    requires before == if WingsOn(p, s) then WINGS else if WingsTried(p, s) then StrayWings(s) else {}
    requires forall leg :: leg in on <==> LegLeft(leg, WingsOn(p, s), before, s)
    requires booked == Account(WingsOn(p, s), s)
    ensures on == booked.Legs() <==> Clean(p, s)
  {
    assert on == booked.Legs() <==> forall leg :: leg in on <==> leg in booked.Legs();
    assert CallShort in on <==> LegLeft(CallShort, WingsOn(p, s), before, s);
    assert PutShort in on <==> LegLeft(PutShort, WingsOn(p, s), before, s);
    assert CallWing in on <==> LegLeft(CallWing, WingsOn(p, s), before, s);
    assert PutWing in on <==> LegLeft(PutWing, WingsOn(p, s), before, s);
  }

  lemma FinalExposure(p: Policy, s: Script, on: set<Leg>)
    requires s.sessionUp && WingsOn(p, s)
    requires forall leg :: leg in on <==> LegLeft(leg, true, WINGS, s)
    ensures Exposed(on) <==> LeftExposed(p, s)
  {
    assert on * SHORTS != {} <==> CallShort in on || PutShort in on by {
      if CallShort in on { assert CallShort in on * SHORTS; }
      if PutShort in on { assert PutShort in on * SHORTS; }
    }
  }
}
