/** The duplicate-close guard of `square_off` (app/orders.py): any number of threads closing
    any symbols, interleaved step by step, each close retrying its order call. */
module SquareOff {
  import opened Nums
  import Throttle

  const TTL := 30.0
  const MAX_RETRIES := 3

  /** Where a thread is inside the call; `entered` is the clock it read when it got the lock. An
      open close has made `attempt` attempts and may make the next once the clock reaches `resumes`. */
  datatype Pc =
    | Outside
    | Locked(symbol: string, entered: real)
    | Fresh(symbol: string, entered: real)
    | Open(symbol: string, entered: real, attempt: nat, resumes: real)

  /** How one attempt of the order call ends: acknowledged; refused with nothing at the broker; or
      landed at the broker although the caller saw an error. Errors may be retryable. */
  datatype Reply = Acked | Refused(retryable: bool) | LandedButRaised(retryable: bool) {
    predicate Lands() { !Refused? }
  }

  /** An order that reached the broker: when the call that sent it entered the lock, and when the
      attempt that sent it ended. */
  datatype Landing = Landing(symbol: string, entered: real, at: real, acked: bool)

  datatype State = State(now: real, pc: map<nat, Pc>, recent: map<string, real>, landed: seq<Landing>)

  /** One atomic step of one thread, or of the clock. */
  datatype Action =
    | Wait(secs: real)
    | Enter(thread: nat, symbol: string)
    | CheckTtl(thread: nat)
    | CheckPosition(thread: nat, isOpen: bool)
    | Attempt(thread: nat, reply: Reply)

  function PcOf(s: State, thread: nat): Pc {
    if thread in s.pc then s.pc[thread] else Outside
  }

  ghost predicate Holds(s: State, thread: nat, symbol: string) {
    var p := PcOf(s, thread);
    !p.Outside? && p.symbol == symbol
  }

  /** The per-symbol lock admits one thread at a time; the other steps follow the program order,
      and a retry waits out its back-off. */
  ghost predicate Enabled(s: State, a: Action) {
    match a
    case Wait(secs) => secs >= 0.0
    case Enter(t, symbol) => PcOf(s, t).Outside? && forall u :: !Holds(s, u, symbol)
    case CheckTtl(t) => PcOf(s, t).Locked?
    case CheckPosition(t, _) => PcOf(s, t).Fresh?
    case Attempt(t, _) => PcOf(s, t).Open? && PcOf(s, t).resumes <= s.now
  }

  /** A retryable error short of the last attempt is tried again. */
  predicate Retries(p: Pc, r: Reply)
    requires p.Open?
  {
    !r.Acked? && r.retryable && p.attempt < MAX_RETRIES
  }

  function Next(s: State, a: Action): State {
    match a
    case Wait(secs) => s.(now := s.now + secs)
    case Enter(t, symbol) => s.(pc := s.pc[t := Locked(symbol, s.now)])
    case CheckTtl(t) =>
      var p := PcOf(s, t);
      if !p.Locked? then s
      else if p.symbol in s.recent && p.entered - s.recent[p.symbol] < TTL then s.(pc := s.pc[t := Outside])
      else s.(pc := s.pc[t := Fresh(p.symbol, p.entered)])
    case CheckPosition(t, isOpen) =>
      var p := PcOf(s, t);
      if !p.Fresh? then s
      else if !isOpen then s.(pc := s.pc[t := Outside], recent := s.recent[p.symbol := p.entered])
      else s.(pc := s.pc[t := Open(p.symbol, p.entered, 0, s.now)])
    case Attempt(t, r) =>
      var p := PcOf(s, t);
      if !p.Open? then s
      else
        s.(landed := s.landed + (if r.Lands() then [Landing(p.symbol, p.entered, s.now, r.Acked?)] else []),
           recent := if r.Acked? then s.recent[p.symbol := p.entered] else s.recent,
           pc := s.pc[t := if Retries(p, r) then Open(p.symbol, p.entered, p.attempt + 1, s.now + Throttle.Delay(p.attempt))
                           else Outside])
  }

  const INIT := State(0.0, map[], map[], [])

  /** The state after some actions, oldest first. */
  function From(s: State, actions: seq<Action>): State {
    if actions == [] then s else Next(From(s, actions[..|actions| - 1]), actions[|actions| - 1])
  }

  ghost predicate LegalFrom(s: State, actions: seq<Action>) {
    actions != [] ==>
      LegalFrom(s, actions[..|actions| - 1]) && Enabled(From(s, actions[..|actions| - 1]), actions[|actions| - 1])
  }

  function After(actions: seq<Action>): State {
    From(INIT, actions)
  }

  ghost predicate Legal(actions: seq<Action>) {
    LegalFrom(INIT, actions)
  }

  /** An attempt lands and its caller is not told. */
  predicate Loses(a: Action) {
    a.Attempt? && a.reply.LandedButRaised?
  }

  ghost predicate NoneLost(actions: seq<Action>) {
    forall i :: 0 <= i < |actions| ==> !Loses(actions[i])
  }

  // ---- Invariants ----

  ghost predicate MutualExclusion(s: State) {
    forall t, u, symbol :: Holds(s, t, symbol) && Holds(s, u, symbol) ==> t == u
  }

  /** The timestamps a thread compares are ordered, and past the TTL check they are far apart. */
  ghost predicate ClocksOrdered(s: State) {
    && (forall t :: !PcOf(s, t).Outside? ==> PcOf(s, t).entered <= s.now)
    && (forall symbol :: symbol in s.recent ==> s.recent[symbol] <= s.now)
    && (forall t :: (PcOf(s, t).Fresh? || PcOf(s, t).Open?) && PcOf(s, t).symbol in s.recent
                    ==> PcOf(s, t).entered - s.recent[PcOf(s, t).symbol] >= TTL)
    && (forall t :: !PcOf(s, t).Outside? && PcOf(s, t).symbol in s.recent
                    ==> s.recent[PcOf(s, t).symbol] <= PcOf(s, t).entered)
  }

  /** Every acknowledged order is remembered by a timestamp at least as late. */
  ghost predicate Remembered(s: State) {
    forall i :: 0 <= i < |s.landed| && s.landed[i].acked ==> InRecent(s, s.landed[i])
  }

  ghost predicate InRecent(s: State, l: Landing) {
    l.symbol in s.recent && l.entered <= s.recent[l.symbol]
  }

  ghost predicate AckedApart(landed: seq<Landing>) {
    forall i, j :: 0 <= i < j < |landed| && landed[i].symbol == landed[j].symbol && landed[i].acked && landed[j].acked
                   ==> landed[j].entered - landed[i].entered >= TTL
  }

  ghost predicate Timed(s: State) {
    forall i :: 0 <= i < |s.landed| ==> s.landed[i].entered <= s.landed[i].at <= s.now
  }

  ghost predicate Inv(s: State) {
    MutualExclusion(s) && ClocksOrdered(s) && Timed(s) && Remembered(s) && AckedApart(s.landed)
  }

  lemma ExclusionKept(s: State, a: Action)
    requires Inv(s) && Enabled(s, a)
    ensures MutualExclusion(Next(s, a))
  {
    var s' := Next(s, a);
    forall t, u, symbol | Holds(s', t, symbol) && Holds(s', u, symbol)
      ensures t == u
    {
      assert a.Enter? && a.symbol == symbol ==> !Holds(s, t, symbol) && !Holds(s, u, symbol);
      assert Holds(s, t, symbol) || (a.Enter? && a.thread == t);
      assert Holds(s, u, symbol) || (a.Enter? && a.thread == u);
    }
  }

  lemma ClocksKept(s: State, a: Action)
    requires Inv(s) && Enabled(s, a)
    ensures ClocksOrdered(Next(s, a))
  {
    var s' := Next(s, a);
    forall t | !PcOf(s', t).Outside?
      ensures PcOf(s', t).entered <= s'.now
      ensures PcOf(s', t).symbol in s'.recent ==> s'.recent[PcOf(s', t).symbol] <= PcOf(s', t).entered
      ensures (PcOf(s', t).Fresh? || PcOf(s', t).Open?) && PcOf(s', t).symbol in s'.recent
              ==> PcOf(s', t).entered - s'.recent[PcOf(s', t).symbol] >= TTL
    {
      var symbol := PcOf(s', t).symbol;
      var p := PcOf(s, t);
      assert !p.Outside? ==> p.entered <= s.now;
      assert !p.Outside? && p.symbol in s.recent ==> s.recent[p.symbol] <= p.entered;
      assert symbol in s.recent ==> s.recent[symbol] <= s.now;
      if a.Wait? || a.thread != t {
        assert PcOf(s', t) == p && Holds(s, t, symbol);
        if a.CheckPosition? || a.Attempt? {
          assert Holds(s, a.thread, PcOf(s, a.thread).symbol);
          assert PcOf(s, a.thread).symbol != symbol;
        }
      }
    }
  }

  /** An acknowledged order comes at least the TTL after every earlier one of its symbol. */
  lemma AckedKept(s: State, a: Action)
    requires Inv(s) && Enabled(s, a)
    ensures Remembered(Next(s, a)) && AckedApart(Next(s, a).landed) && Timed(Next(s, a))
  {
    var s' := Next(s, a);
    assert forall i :: 0 <= i < |s.landed| ==> s'.landed[i] == s.landed[i];
    forall i | 0 <= i < |s'.landed| && s'.landed[i].acked
      ensures InRecent(s', s'.landed[i])
    {
      if i < |s.landed| { assert InRecent(s, s.landed[i]); }
    }
    forall i, j | 0 <= i < j < |s'.landed| && s'.landed[i].symbol == s'.landed[j].symbol && s'.landed[i].acked && s'.landed[j].acked
      ensures s'.landed[j].entered - s'.landed[i].entered >= TTL
    {
      assert InRecent(s, s.landed[i]);
    }
  }

  lemma InvKept(s: State, a: Action)
    requires Inv(s) && Enabled(s, a)
    ensures Inv(Next(s, a))
  {
    ExclusionKept(s, a);
    ClocksKept(s, a);
    AckedKept(s, a);
  }

  lemma {:induction false} InvHolds(actions: seq<Action>)
    requires Legal(actions)
    ensures Inv(After(actions))
  {
    if actions != [] {
      InvHolds(actions[..|actions| - 1]);
      InvKept(After(actions[..|actions| - 1]), actions[|actions| - 1]);
    }
  }

  /** In every interleaving, two acknowledged orders for one symbol come from calls that entered
      the lock at least 30 seconds apart. */
  lemma NoDuplicateClose(actions: seq<Action>, i: nat, j: nat)
    requires Legal(actions) && i < j < |After(actions).landed|
    requires var l := After(actions).landed; l[i].symbol == l[j].symbol && l[i].acked && l[j].acked
    ensures After(actions).landed[j].entered - After(actions).landed[i].entered >= TTL
  {
    InvHolds(actions);
  }

  // ---- Between the orders themselves ----

  /** A call may hold the lock for a while before its order is through, and the 30 seconds are
      counted from its entry: that while is missing between the orders. */
  lemma OrdersApart(actions: seq<Action>, i: nat, j: nat)
    requires Legal(actions) && i < j < |After(actions).landed|
    requires var l := After(actions).landed; l[i].symbol == l[j].symbol && l[i].acked && l[j].acked
    ensures var l := After(actions).landed; l[j].at - l[i].at >= TTL - (l[i].at - l[i].entered)
  {
    InvHolds(actions);
  }

  lemma {:induction false} InvStays(s: State, actions: seq<Action>)
    requires Inv(s) && LegalFrom(s, actions)
    ensures Inv(From(s, actions)) && s.landed <= From(s, actions).landed
  {
    if actions != [] {
      var init := actions[..|actions| - 1];
      InvStays(s, init);
      InvKept(From(s, init), actions[|actions| - 1]);
    }
  }

  /** After `more` steps the `i`-th order, acknowledged, has been followed by another acknowledged
      one of its symbol less than 30 seconds later. */
  ghost predicate ClosedAgain(s: State, more: seq<Action>, i: nat, j: nat) {
    && LegalFrom(s, more)
    && var l := From(s, more).landed;
       i < j < |l| && l[i].symbol == l[j].symbol && l[i].acked && l[j].acked && l[j].at - l[i].at < TTL
  }

  /** The next close of the symbol once its TTL is over. */
  lemma ClosesAgain(s: State, t: nat) returns (more: seq<Action>)
    requires Inv(s) && Enabled(s, Attempt(t, Acked)) && s.now > PcOf(s, t).entered
    ensures ClosedAgain(Next(s, Attempt(t, Acked)), more, |s.landed|, |s.landed| + 1)
  {
    var p, s1 := PcOf(s, t), Next(s, Attempt(t, Acked));
    Released(s, t, Acked);
    var due := p.entered + TTL;
    var secs := if due > s.now then due - s.now else 0.0;
    ClosesLater(s1, t, p.symbol, secs);
    more := [Wait(secs)] + Close(t, p.symbol);
  }

  /** One close, start to acknowledged end. */
  function Close(t: nat, symbol: string): seq<Action> {
    [Enter(t, symbol)] + [CheckTtl(t)] + [CheckPosition(t, true)] + [Attempt(t, Acked)]
  }

  /** A close of a free symbol past its TTL goes through at once. */
  lemma ClosesNow(s: State, t: nat, symbol: string)
    requires PcOf(s, t) == Outside && (forall u :: !Holds(s, u, symbol))
    requires symbol in s.recent ==> s.now - s.recent[symbol] >= TTL
    ensures LegalFrom(s, Close(t, symbol)) && NoneLost(Close(t, symbol))
    ensures From(s, Close(t, symbol)).landed == s.landed + [Landing(symbol, s.now, s.now, true)]
  {
    var e := Enter(t, symbol);
    FromOne(s, e);
    FromSnoc(s, [e], CheckTtl(t));
    var two := [e] + [CheckTtl(t)];
    assert From(s, two).pc[t] == Fresh(symbol, s.now);
    FromSnoc(s, two, CheckPosition(t, true));
    FromSnoc(s, two + [CheckPosition(t, true)], Attempt(t, Acked));
  }

  lemma {:induction false} FromJoins(s: State, a: seq<Action>, b: seq<Action>)
    ensures From(s, a + b) == From(From(s, a), b)
    ensures LegalFrom(s, a + b) <==> LegalFrom(s, a) && LegalFrom(From(s, a), b)
  {
    if b == [] {
      assert a + b == a;
    } else {
      var init, last := b[..|b| - 1], b[|b| - 1];
      FromJoins(s, a, init);
      assert a + b == a + init + [last] && b == init + [last];
      FromSnoc(s, a + init, last);
      FromSnoc(From(s, a), init, last);
    }
  }

  /** In any run, an acknowledged order can be followed by another of its symbol less than 30
      seconds later exactly when some time passed between its call entering the lock and it. */
  lemma ClosesSoonWhen(actions: seq<Action>, t: nat)
    requires Legal(actions) && Enabled(After(actions), Attempt(t, Acked))
    ensures var s := After(actions);
            (exists more, j :: ClosedAgain(Next(s, Attempt(t, Acked)), more, |s.landed|, j)) <==> s.now > PcOf(s, t).entered
  {
    var s := After(actions);
    InvHolds(actions);
    InvKept(s, Attempt(t, Acked));
    var s1 := Next(s, Attempt(t, Acked));
    if s.now > PcOf(s, t).entered {
      var more := ClosesAgain(s, t);
    } else {
      forall more, j | LegalFrom(s1, more) && |s.landed| < j < |From(s1, more).landed|
        ensures !ClosedAgain(s1, more, |s.landed|, j)
      {
        InvStays(s1, more);
        assert From(s1, more).landed[|s.landed|] == s1.landed[|s.landed|];
      }
    }
  }

  /** The first call takes the whole TTL from entering the lock to its order. */
  const SLOW_CLOSE: seq<Action> :=
    [Enter(0, "X")] + [CheckTtl(0)] + [CheckPosition(0, true)] + [Wait(30.0)] + [Attempt(0, Acked)]

  lemma SlowCloseLands()
    ensures Legal(SLOW_CLOSE) && NoneLost(SLOW_CLOSE)
    ensures var s := After(SLOW_CLOSE);
            s.now == 30.0 && s.recent == map["X" := 0.0] && s.landed == [Landing("X", 0.0, 30.0, true)] && s.pc == map[0 := Outside]
  {
    FromOne(INIT, Enter(0, "X"));
    var one := [Enter(0, "X")];
    FromSnoc(INIT, one, CheckTtl(0));
    var two := one + [CheckTtl(0)];
    FromSnoc(INIT, two, CheckPosition(0, true));
    var three := two + [CheckPosition(0, true)];
    FromSnoc(INIT, three, Wait(30.0));
    FromSnoc(INIT, three + [Wait(30.0)], Attempt(0, Acked));
  }

  /** Two closes of one symbol acknowledged at the same instant. */
  lemma ClosedTogether()
    ensures Legal(SLOW_CLOSE + Close(1, "X")) && NoneLost(SLOW_CLOSE + Close(1, "X"))
    ensures After(SLOW_CLOSE + Close(1, "X")).landed == [Landing("X", 0.0, 30.0, true), Landing("X", 30.0, 30.0, true)]
  {
    SlowCloseLands();
    ClosesNow(After(SLOW_CLOSE), 1, "X");
    FromJoins(INIT, SLOW_CLOSE, Close(1, "X"));
  }

  // ---- The position check ----

  predicate OfThread(a: Action, t: nat) {
    !a.Wait? && a.thread == t
  }

  /** Thread `t` entered the lock for this symbol at step `e` and has since only passed its checks and
      made attempts; `c` is where its position check said open, with every attempt behind it. */
  ghost predicate CallFrom(actions: seq<Action>, t: nat, symbol: string, entered: real, e: nat, c: Option<nat>) {
    && e < |actions| && actions[e] == Enter(t, symbol) && entered == After(actions[..e]).now
    && match c
       case None => forall k :: e < k < |actions| && OfThread(actions[k], t) ==> actions[k].CheckTtl?
       case Some(at) =>
         && e < at < |actions| && actions[at] == CheckPosition(t, true)
         && (forall k :: e < k < at && OfThread(actions[k], t) ==> actions[k].CheckTtl?)
         && (forall k :: at < k < |actions| && OfThread(actions[k], t) ==> actions[k].Attempt?)
  }

  lemma CallGoesOn(actions: seq<Action>, a: Action, t: nat, symbol: string, entered: real, e: nat, c: Option<nat>)
    requires CallFrom(actions, t, symbol, entered, e, c)
    requires OfThread(a, t) ==> if c.Some? then a.Attempt? else a.CheckTtl?
    ensures CallFrom(actions + [a], t, symbol, entered, e, c)
  {
    assert (actions + [a])[..e] == actions[..e];
  }

  lemma CallChecked(actions: seq<Action>, t: nat, symbol: string, entered: real, e: nat)
    requires CallFrom(actions, t, symbol, entered, e, None)
    ensures CallFrom(actions + [CheckPosition(t, true)], t, symbol, entered, e, Some(|actions|))
  {
    assert (actions + [CheckPosition(t, true)])[..e] == actions[..e];
  }

  lemma CallStarts(actions: seq<Action>, t: nat, symbol: string)
    ensures CallFrom(actions + [Enter(t, symbol)], t, symbol, After(actions).now, |actions|, None)
  {
    assert (actions + [Enter(t, symbol)])[..|actions|] == actions;
  }

  /** A thread inside the call has come this way, and one about to send has been told open. */
  lemma {:induction false} CallOf(actions: seq<Action>, t: nat) returns (e: nat, c: Option<nat>)
    requires Legal(actions) && !PcOf(After(actions), t).Outside?
    ensures var p := PcOf(After(actions), t);
            CallFrom(actions, t, p.symbol, p.entered, e, c) && (p.Open? <==> c.Some?)
  {
    var init, a := actions[..|actions| - 1], actions[|actions| - 1];
    var p := PcOf(After(init), t);
    assert actions == init + [a];
    if OfThread(a, t) && a.Enter? {
      CallStarts(init, t, a.symbol);
      e, c := |init|, None;
    } else {
      e, c := CallOf(init, t);
      if OfThread(a, t) && a.CheckPosition? {
        CallChecked(init, t, p.symbol, p.entered, e);
        c := Some(|init|);
      } else {
        CallGoesOn(init, a, t, p.symbol, p.entered, e, c);
      }
    }
  }

  lemma {:induction false} LegalPrefix(s: State, actions: seq<Action>, n: nat)
    requires LegalFrom(s, actions) && n <= |actions|
    ensures LegalFrom(s, actions[..n])
    ensures n < |actions| ==> Enabled(From(s, actions[..n]), actions[n])
  {
    if n < |actions| {
      var init := actions[..|actions| - 1];
      if n < |init| {
        LegalPrefix(s, init, n);
        assert init[..n] == actions[..n];
      }
    } else {
      assert actions[..n] == actions;
    }
  }

  /** Every attempt of every run is made by a call that entered the lock, checked the position and was
      told open, in this order and nothing else between. */
  lemma SentAfterOpen(actions: seq<Action>, n: nat) returns (e: nat, c: nat)
    requires Legal(actions) && n < |actions| && actions[n].Attempt?
    ensures var t := actions[n].thread; var p := PcOf(After(actions[..n]), t);
            p.Open? && CallFrom(actions[..n], t, p.symbol, p.entered, e, Some(c))
  {
    LegalPrefix(INIT, actions, n);
    var at;
    e, at := CallOf(actions[..n], actions[n].thread);
    c := at.value;
  }

  /** The attempt that brought an order to the broker. */
  ghost predicate Brought(actions: seq<Action>, l: Landing, n: nat) {
    && n < |actions| && actions[n].Attempt? && actions[n].reply.Lands()
    && var s := After(actions[..n]); var p := PcOf(s, actions[n].thread);
       p.Open? && l == Landing(p.symbol, p.entered, s.now, actions[n].reply.Acked?)
  }

  lemma {:induction false} BroughtBy(actions: seq<Action>, i: nat) returns (n: nat)
    requires Legal(actions) && i < |After(actions).landed|
    ensures Brought(actions, After(actions).landed[i], n)
  {
    var init := actions[..|actions| - 1];
    if i < |After(init).landed| {
      n := BroughtBy(init, i);
      assert init[..n] == actions[..n];
    } else {
      n := |init|;
    }
  }

  /** So does every order that reaches the broker. */
  lemma LandedAfterOpen(actions: seq<Action>, i: nat) returns (t: nat, e: nat, c: nat, n: nat)
    requires Legal(actions) && i < |After(actions).landed|
    ensures var l := After(actions).landed[i];
            Brought(actions, l, n) && actions[n].thread == t && CallFrom(actions[..n], t, l.symbol, l.entered, e, Some(c))
  {
    n := BroughtBy(actions, i);
    t := actions[n].thread;
    e, c := SentAfterOpen(actions, n);
  }

  /** A call told "flat" sends nothing: its thread sends again only after entering the lock again. */
  lemma FlatSendsNothing(actions: seq<Action>, c: nat, n: nat) returns (e: nat)
    requires Legal(actions) && c < n < |actions|
    requires actions[c].CheckPosition? && !actions[c].isOpen && actions[n].Attempt? && actions[n].thread == actions[c].thread
    ensures c < e < n && actions[e].Enter? && actions[e].thread == actions[c].thread
  {
    var check;
    e, check := SentAfterOpen(actions, n);
    assert actions[..n][c] == actions[c] && OfThread(actions[c], actions[n].thread);
  }

  /** The symbol is barred to calls that enter before `entered` + 30 seconds, or before `from`. */
  ghost predicate Barred(s: State, symbol: string, entered: real, from: real) {
    && symbol in s.recent && s.recent[symbol] >= entered && s.now >= from
    && forall t :: Holds(s, t, symbol) ==> PcOf(s, t).entered >= from
  }

  ghost predicate AllLate(landed: seq<Landing>, since: nat, symbol: string, entered: real, from: real) {
    forall i :: since <= i < |landed| && landed[i].symbol == symbol ==> landed[i].entered >= from && landed[i].entered - entered >= TTL
  }

  lemma {:induction false} BarStays(s: State, more: seq<Action>, symbol: string, entered: real, from: real)
    requires Inv(s) && Barred(s, symbol, entered, from) && LegalFrom(s, more)
    ensures Barred(From(s, more), symbol, entered, from) && s.landed <= From(s, more).landed
    ensures AllLate(From(s, more).landed, |s.landed|, symbol, entered, from)
  {
    if more != [] {
      var init, a := more[..|more| - 1], more[|more| - 1];
      BarStays(s, init, symbol, entered, from);
      InvStays(s, init);
      BarKept(From(s, init), a, symbol, entered, from);
      var landed := From(s, init).landed;
      forall i | |s.landed| <= i < |From(s, more).landed| && From(s, more).landed[i].symbol == symbol
        ensures From(s, more).landed[i].entered >= from && From(s, more).landed[i].entered - entered >= TTL
      {
        if i < |landed| { assert From(s, more).landed[i] == landed[i]; }
      }
    }
  }

  lemma BarKept(s: State, a: Action, symbol: string, entered: real, from: real)
    requires Inv(s) && Barred(s, symbol, entered, from) && Enabled(s, a)
    ensures Barred(Next(s, a), symbol, entered, from)
    ensures a.Attempt? && PcOf(s, a.thread).symbol == symbol ==>
              PcOf(s, a.thread).entered >= from && PcOf(s, a.thread).entered - entered >= TTL
  {
    var s' := Next(s, a);
    forall t | Holds(s', t, symbol)
      ensures PcOf(s', t).entered >= from
    {
      assert Holds(s, t, symbol) || (a.Enter? && a.thread == t);
    }
    if a.Attempt? && PcOf(s, a.thread).symbol == symbol { assert Holds(s, a.thread, symbol); }
  }

  /** After these steps the symbol has an order from a call that entered `d` seconds after `entered`. */
  ghost predicate SendsAt(s: State, more: seq<Action>, i: nat, symbol: string, entered: real) {
    && LegalFrom(s, more) && |s.landed| <= i < |From(s, more).landed|
    && From(s, more).landed[i].symbol == symbol && From(s, more).landed[i].entered == entered
  }

  /** A call told "flat" keeps others from sending for its symbol too: in any run, one that entered
      the lock at a given moment after it can send exactly when that is 30 seconds or more after the
      flat call entered. */
  lemma FlatBarsUntil(actions: seq<Action>, t: nat, entered: real)
    requires Legal(actions) && Enabled(After(actions), CheckPosition(t, false))
    ensures var s := After(actions); var p := PcOf(s, t);
            (exists more, i :: SendsAt(Next(s, CheckPosition(t, false)), more, i, p.symbol, entered))
            <==> entered >= s.now && entered - p.entered >= TTL
  {
    var s := After(actions);
    var p, a := PcOf(s, t), CheckPosition(t, false);
    var s1 := Next(s, a);
    InvHolds(actions);
    InvKept(s, a);
    FlatReleases(s, t);
    forall more, i | SendsAt(s1, more, i, p.symbol, entered)
      ensures entered >= s.now && entered - p.entered >= TTL
    {
      BarStays(s1, more, p.symbol, p.entered, s.now);
    }
    if entered >= s.now && entered - p.entered >= TTL {
      ClosesLater(s1, t, p.symbol, entered - s.now);
      assert SendsAt(s1, [Wait(entered - s.now)] + Close(t, p.symbol), |s1.landed|, p.symbol, entered);
    }
  }

  /** A close of a free symbol some time from now, past its TTL by then. */
  lemma ClosesLater(s: State, t: nat, symbol: string, secs: real)
    requires PcOf(s, t) == Outside && (forall u :: !Holds(s, u, symbol)) && secs >= 0.0
    requires symbol in s.recent ==> s.now + secs - s.recent[symbol] >= TTL
    ensures var more := [Wait(secs)] + Close(t, symbol);
            && LegalFrom(s, more) && NoneLost(more)
            && From(s, more).landed == s.landed + [Landing(symbol, s.now + secs, s.now + secs, true)]
  {
    var wait := Wait(secs);
    FromOne(s, wait);
    var s1 := Next(s, wait);
    forall u: nat
      ensures !Holds(s1, u, symbol)
    {
      assert !Holds(s, u, symbol);
    }
    ClosesNow(s1, t, symbol);
    FromJoins(s, [wait], Close(t, symbol));
  }

  /** A call finds the position flat; thirty seconds later another finds it open and sends. */
  lemma FlatThenSent()
    ensures var a := [Enter(0, "X")] + [CheckTtl(0)] + [CheckPosition(0, false)] + ([Wait(30.0)] + Close(0, "X"));
            Legal(a) && NoneLost(a) && After(a).landed == [Landing("X", 30.0, 30.0, true)]
  {
    FromOne(INIT, Enter(0, "X"));
    var one := [Enter(0, "X")];
    FromSnoc(INIT, one, CheckTtl(0));
    FromSnoc(INIT, one + [CheckTtl(0)], CheckPosition(0, false));
    var flat := one + [CheckTtl(0)] + [CheckPosition(0, false)];
    assert After(flat) == State(0.0, map[0 := Outside], map["X" := 0.0], []);
    ClosesLater(After(flat), 0, "X", 30.0);
    FromJoins(INIT, flat, [Wait(30.0)] + Close(0, "X"));
  }

  lemma FlatReleases(s: State, t: nat)
    requires Inv(s) && PcOf(s, t).Fresh?
    ensures var s1, p := Next(s, CheckPosition(t, false)), PcOf(s, t);
            && PcOf(s1, t) == Outside && s1.landed == s.landed && s1.now == s.now
            && (forall u :: !Holds(s1, u, p.symbol)) && Barred(s1, p.symbol, p.entered, s.now)
  {
    var s1, p := Next(s, CheckPosition(t, false)), PcOf(s, t);
    assert Holds(s, t, p.symbol);
    forall u: nat
      ensures !Holds(s1, u, p.symbol)
    {
      if u != t { assert !Holds(s, u, p.symbol); }
    }
  }

  // ---- All orders that reach the broker ----

  ghost predicate FarApart(landed: seq<Landing>) {
    forall i, j :: 0 <= i < j < |landed| && landed[i].symbol == landed[j].symbol
                   ==> landed[j].entered - landed[i].entered >= TTL
  }

  /** No close of this order's symbol can come too soon after it: it is remembered, or its time is
      over and whoever is inside entered late enough. */
  ghost predicate Covered(s: State, l: Landing) {
    || InRecent(s, l)
    || (s.now - l.entered >= TTL && forall t :: Holds(s, t, l.symbol) ==> PcOf(s, t).entered - l.entered >= TTL)
  }

  ghost predicate Safe(s: State) {
    Inv(s) && FarApart(s.landed) && forall i :: 0 <= i < |s.landed| ==> Covered(s, s.landed[i])
  }

  lemma CoveredKept(s: State, a: Action, l: Landing)
    requires Inv(s) && Enabled(s, a) && Covered(s, l)
    ensures Covered(Next(s, a), l)
  {
    var s' := Next(s, a);
    if InRecent(s, l) {
      if l.symbol in s'.recent && s'.recent[l.symbol] != s.recent[l.symbol] {
        assert !PcOf(s, a.thread).Outside?;
      }
    } else {
      forall t | Holds(s', t, l.symbol)
        ensures PcOf(s', t).entered - l.entered >= TTL
      {
        assert Holds(s, t, l.symbol) || (a.Enter? && a.thread == t);
      }
    }
  }

  /** An order sent past the checks is far from every covered one of its symbol. */
  lemma SentFarFromCovered(s: State, t: nat, l: Landing)
    requires Inv(s) && PcOf(s, t).Open? && Covered(s, l) && l.symbol == PcOf(s, t).symbol
    ensures PcOf(s, t).entered - l.entered >= TTL
  {
    assert Holds(s, t, l.symbol);
  }

  lemma StepFarApart(s: State, a: Action)
    requires Safe(s) && Enabled(s, a)
    ensures FarApart(Next(s, a).landed)
  {
    var s' := Next(s, a);
    forall i, j | 0 <= i < j < |s'.landed| && s'.landed[i].symbol == s'.landed[j].symbol
      ensures s'.landed[j].entered - s'.landed[i].entered >= TTL
    {
      assert s'.landed[i] == s.landed[i];
      if j < |s.landed| {
        assert s'.landed[j] == s.landed[j];
      } else {
        SentFarFromCovered(s, a.thread, s.landed[i]);
      }
    }
  }

  lemma SafeKept(s: State, a: Action)
    requires Safe(s) && Enabled(s, a) && !Loses(a)
    ensures Safe(Next(s, a))
  {
    var s' := Next(s, a);
    InvKept(s, a);
    StepFarApart(s, a);
    forall i | 0 <= i < |s'.landed|
      ensures Covered(s', s'.landed[i])
    {
      if i < |s.landed| {
        assert s'.landed[i] == s.landed[i];
        CoveredKept(s, a, s.landed[i]);
      } else {
        assert InRecent(s', s'.landed[i]);
      }
    }
  }

  lemma {:induction false} SafeStays(s: State, actions: seq<Action>)
    requires Safe(s) && LegalFrom(s, actions) && NoneLost(actions)
    ensures Safe(From(s, actions))
  {
    if actions != [] {
      var init := actions[..|actions| - 1];
      assert forall i :: 0 <= i < |init| ==> init[i] == actions[i];
      SafeStays(s, init);
      SafeKept(From(s, init), actions[|actions| - 1]);
    }
  }

  /** In every interleaving in which no attempt lands unacknowledged, any two orders that reach the
      broker for one symbol come from calls that entered the lock at least 30 seconds apart. */
  lemma LandedFarApart(actions: seq<Action>)
    requires Legal(actions) && NoneLost(actions)
    ensures FarApart(After(actions).landed)
  {
    SafeStays(INIT, actions);
  }

  // ---- One lost acknowledgement ----

  /** From this state a run without a further loss brings a duplicate. */
  ghost predicate Doubles(s: State, more: seq<Action>) {
    LegalFrom(s, more) && NoneLost(more) && !FarApart(From(s, more).landed)
  }

  /** The call that lost the acknowledgement tries again, or is over before the TTL is. */
  predicate Exposed(s: State, t: nat, r: Reply)
    requires PcOf(s, t).Open?
  {
    Retries(PcOf(s, t), r) || s.now - PcOf(s, t).entered < TTL
  }

  lemma FromOne(s: State, a: Action)
    ensures From(s, [a]) == Next(s, a) && (LegalFrom(s, [a]) <==> Enabled(s, a))
  {
    assert [a][..0] == [];
  }

  lemma FromSnoc(s: State, actions: seq<Action>, a: Action)
    ensures From(s, actions + [a]) == Next(From(s, actions), a)
    ensures LegalFrom(s, actions + [a]) <==> LegalFrom(s, actions) && Enabled(From(s, actions), a)
  {
    assert (actions + [a])[..|actions|] == actions;
  }

  lemma TwoTooClose(landed: seq<Landing>, i: nat, j: nat)
    requires i < j < |landed| && landed[i].symbol == landed[j].symbol && landed[j].entered - landed[i].entered < TTL
    ensures !FarApart(landed)
  {
  }

  /** The retry of a lost attempt lands next to it. */
  lemma RetryDoubles(s: State, t: nat) returns (more: seq<Action>)
    requires Safe(s) && PcOf(s, t).Open? && PcOf(s, t).resumes <= s.now && PcOf(s, t).attempt < MAX_RETRIES
    ensures Doubles(Next(s, Attempt(t, LandedButRaised(true))), more)
  {
    var p, s1 := PcOf(s, t), Next(s, Attempt(t, LandedButRaised(true)));
    Throttle.DelayAtLeastBase(p.attempt);
    var wait, again := Wait(Throttle.Delay(p.attempt)), Attempt(t, Acked);
    FromOne(s1, wait);
    FromSnoc(s1, [wait], again);
    more := [wait] + [again];
    var end := From(s1, more);
    assert end.landed[|s.landed|] == Landing(p.symbol, p.entered, s.now, false) && end.landed[|s.landed| + 1].entered == p.entered;
    TwoTooClose(end.landed, |s.landed|, |s.landed| + 1);
  }

  /** A call that ends leaves its symbol's lock free. */
  lemma Released(s: State, t: nat, r: Reply)
    requires MutualExclusion(s) && PcOf(s, t).Open? && !Retries(PcOf(s, t), r)
    ensures PcOf(Next(s, Attempt(t, r)), t) == Outside
    ensures forall u :: !Holds(Next(s, Attempt(t, r)), u, PcOf(s, t).symbol)
  {
    var s1, symbol := Next(s, Attempt(t, r)), PcOf(s, t).symbol;
    assert Holds(s, t, symbol);
    forall u: nat
      ensures !Holds(s1, u, symbol)
    {
      if u != t {
        assert PcOf(s1, u) == PcOf(s, u);
        assert !Holds(s, u, symbol);
      }
    }
  }

  /** After a call that gave up, the next close of the symbol passes every check and lands too. */
  lemma NextCallDoubles(s: State, t: nat, r: Reply) returns (more: seq<Action>)
    requires Safe(s) && PcOf(s, t).Open? && PcOf(s, t).resumes <= s.now
    requires r.LandedButRaised? && !Retries(PcOf(s, t), r) && s.now - PcOf(s, t).entered < TTL
    ensures Doubles(Next(s, Attempt(t, r)), more)
  {
    var p, s1 := PcOf(s, t), Next(s, Attempt(t, r));
    Released(s, t, r);
    ClosesNow(s1, t, p.symbol);
    more := Close(t, p.symbol);
    var end := From(s1, more);
    assert end.landed[|s.landed|] == Landing(p.symbol, p.entered, s.now, false) && end.landed[|s.landed| + 1] == Landing(p.symbol, s.now, s.now, true);
    TwoTooClose(end.landed, |s.landed|, |s.landed| + 1);
  }

  /** Otherwise the state stays safe. */
  lemma LateLossIsSafe(s: State, t: nat, r: Reply)
    requires Safe(s) && Enabled(s, Attempt(t, r)) && r.LandedButRaised? && !Exposed(s, t, r)
    ensures Safe(Next(s, Attempt(t, r)))
  {
    var p, a := PcOf(s, t), Attempt(t, r);
    var s' := Next(s, a);
    InvKept(s, a);
    StepFarApart(s, a);
    forall i | 0 <= i < |s'.landed|
      ensures Covered(s', s'.landed[i])
    {
      if i < |s.landed| {
        assert s'.landed[i] == s.landed[i];
        CoveredKept(s, a, s.landed[i]);
      } else {
        Released(s, t, r);
      }
    }
  }

  /** One lost acknowledgement in an otherwise clean run, every later answer being acknowledged or
      refused: it can bring a duplicate exactly when the call that lost it still retries, or gives
      up within the 30 seconds. */
  lemma OneLossDoublesWhen(actions: seq<Action>, t: nat, r: Reply)
    requires Legal(actions) && NoneLost(actions) && Enabled(After(actions), Attempt(t, r)) && r.LandedButRaised?
    ensures (exists more :: Doubles(Next(After(actions), Attempt(t, r)), more)) <==> Exposed(After(actions), t, r)
  {
    var s := After(actions);
    SafeStays(INIT, actions);
    var s1 := Next(s, Attempt(t, r));
    if Exposed(s, t, r) {
      var more: seq<Action>;
      if Retries(PcOf(s, t), r) {
        assert r == LandedButRaised(true);
        more := RetryDoubles(s, t);
      } else {
        more := NextCallDoubles(s, t, r);
      }
      assert Doubles(s1, more);
    } else {
      LateLossIsSafe(s, t, r);
      forall more | LegalFrom(s1, more) && NoneLost(more)
        ensures FarApart(From(s1, more).landed)
      {
        SafeStays(s1, more);
      }
    }
  }

  // ---- Which brokers the guard is enough for ----

  /** A run against a broker that never loses an acknowledgement, or against one that may. */
  ghost predicate Possible(actions: seq<Action>, mayLose: bool) {
    Legal(actions) && (mayLose || NoneLost(actions))
  }

  /** One thread, one close: its first attempt lands behind a network error and is sent again. */
  const SENT_TWICE: seq<Action> := [
    Enter(0, "X"), CheckTtl(0), CheckPosition(0, true), Attempt(0, LandedButRaised(true)), Wait(1.0), Attempt(0, Acked)
  ]

  lemma SentTwice()
    ensures Legal(SENT_TWICE) && After(SENT_TWICE).landed == [Landing("X", 0.0, 0.0, false), Landing("X", 0.0, 1.0, true)]
    ensures !FarApart(After(SENT_TWICE).landed)
  {
    var a := SENT_TWICE;
    FromOne(INIT, a[0]);
    assert a[..1] == [a[0]] && a[..2] == a[..1] + [a[1]] && a[..3] == a[..2] + [a[2]];
    assert a[..4] == a[..3] + [a[3]] && a[..5] == a[..4] + [a[4]] && a == a[..5] + [a[5]];
    FromSnoc(INIT, a[..1], a[1]);
    FromSnoc(INIT, a[..2], a[2]);
    FromSnoc(INIT, a[..3], a[3]);
    FromSnoc(INIT, a[..4], a[4]);
    FromSnoc(INIT, a[..5], a[5]);
    assert Throttle.Pow2(0) == 1;
    assert PcOf(From(INIT, a[..4]), 0) == Open("X", 0.0, 1, 1.0);
    TwoTooClose(After(a).landed, 0, 1);
  }

  /** The 30 seconds hold between all orders that reach the broker, in every run, exactly when no
      attempt can land unacknowledged. */
  lemma BoundHoldsWhen(mayLose: bool)
    ensures (forall actions :: Possible(actions, mayLose) ==> FarApart(After(actions).landed)) <==> !mayLose
  {
    if mayLose {
      SentTwice();
      assert Possible(SENT_TWICE, true);
    } else {
      forall actions | Possible(actions, false)
        ensures FarApart(After(actions).landed)
      {
        LandedFarApart(actions);
      }
    }
  }
}
