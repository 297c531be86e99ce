/** Whole runs of the recorder: traded volume is conserved from the tick stream to the
    bars in memory and the bars handed to storage, and the incremental bars agree with
    a plain journal of ticks. */
module Conservation {
  import opened Nums
  import opened Sums
  import opened OrderFlow
  import opened FootprintBars

  // ---- A volume meter for one token, fed by the trace alone ----

  /** Whether the token is being tracked, its last cumulative volume, and the sum of
      its non-negative increments so far. */
  datatype Meter = Meter(tracked: bool, last: Option<real>, total: real)

  function MeterTick(m: Meter, t: Tick, token: int): Meter {
    if m.tracked && t.token == Some(token) && t.ltp.Some? && t.ltp.value > 0.0 then
      Meter(true, if t.volume.Some? then t.volume else m.last, m.total + Max(0.0, Increment(m.last, t)))
    else m
  }

  function MeterTicks(m: Meter, batch: seq<Tick>, token: int): Meter {
    if batch == [] then m
    else MeterTick(MeterTicks(m, batch[..|batch| - 1], token), batch[|batch| - 1], token)
  }

  function MeterStep(m: Meter, e: Event, token: int): Meter {
    match e
    case Ticks(batch, _) => MeterTicks(m, batch, token)
    case Flush(_, _) => m
    case Resolve(wanted) =>
      if token !in wanted then m.(tracked := false)
      else if m.tracked then m
      else m.(tracked := true, last := None)
  }

  function MeterRun(es: seq<Event>, token: int): Meter {
    if es == [] then Meter(false, None, 0.0)
    else MeterStep(MeterRun(es[..|es| - 1], token), es[|es| - 1], token)
  }

  // ---- Volume held in bars ----

  function VolumesOf(bars: map<Key, BarV>, token: int): map<Key, real> {
    map k | k in bars && k.token == token :: bars[k].Volume()
  }

  ghost function VolumeOf(bars: map<Key, BarV>, token: int): real {
    SumMap(VolumesOf(bars, token))
  }

  /** Volume of the token in all bars handed to storage during a run. */
  ghost function HandedVolume(es: seq<Event>, token: int): real {
    if es == [] then 0.0
    else
      var before := es[..|es| - 1];
      HandedVolume(before, token) + VolumeOf(Handed(Run(before), es[|es| - 1]), token)
  }

  ghost predicate Linked(s: RecState, m: Meter, token: int) {
    && (m.tracked <==> token in s.tracked)
    && (m.tracked ==> m.last == s.tracked[token].lastVolume)
  }

  ghost predicate AllBalanced(s: RecState) {
    forall k :: k in s.bars ==> Balanced(s.bars[k])
  }

  lemma BarReplaced(bars: map<Key, BarV>, k: Key, b: BarV, token: int)
    ensures VolumeOf(bars[k := b], token) - VolumeOf(bars, token) ==
            if k.token != token then 0.0
            else b.Volume() - (if k in bars then bars[k].Volume() else 0.0)
  {
    if k.token == token {
      assert VolumesOf(bars[k := b], token) == VolumesOf(bars, token)[k := b.Volume()];
      SumMapUpdate(VolumesOf(bars, token), k, b.Volume());
    } else {
      assert VolumesOf(bars[k := b], token) == VolumesOf(bars, token);
    }
  }

  /** An accepted tick changes one bar: it stays balanced and gains the traded quantity. */
  lemma TickFillsBar(s: RecState, t: Tick, configured: int)
    requires AllBalanced(s) && Accepted(s.tracked.Keys, t)
    ensures var k, s' := KeyOf(t, configured), FoldTick(s, t, configured);
            k in s'.bars && s'.bars == s.bars[k := s'.bars[k]] && Balanced(s'.bars[k]) &&
            s'.bars[k].Volume() == (if k in s.bars then s.bars[k].Volume() else 0.0)
                                   + Max(0.0, Increment(s.tracked[t.token.value].lastVolume, t))
  {
    var c := s.tracked[t.token.value];
    var k := KeyOf(t, configured);
    var bar := if k in s.bars then s.bars[k] else OpenBar(BarWidth(configured), c.rowSize, t.ltp.value);
    if k !in s.bars { OpenBarBalanced(BarWidth(configured), c.rowSize, t.ltp.value); }
    ApplyBalanced(bar, TouchOf(c, t));
  }

  lemma TickConserves(s: RecState, t: Tick, configured: int, m: Meter, token: int)
    requires Linked(s, m, token) && AllBalanced(s)
    ensures Linked(FoldTick(s, t, configured), MeterTick(m, t, token), token)
    ensures AllBalanced(FoldTick(s, t, configured))
    ensures VolumeOf(FoldTick(s, t, configured).bars, token) - VolumeOf(s.bars, token)
            == MeterTick(m, t, token).total - m.total
  {
    if Accepted(s.tracked.Keys, t) {
      TickFillsBar(s, t, configured);
      var k, s' := KeyOf(t, configured), FoldTick(s, t, configured);
      BarReplaced(s.bars, k, s'.bars[k], token);
    }
  }

  lemma {:induction false} TicksConserve(s: RecState, batch: seq<Tick>, configured: int, m: Meter, token: int)
    requires Linked(s, m, token) && AllBalanced(s)
    ensures var s', m' := FoldTicks(s, batch, configured), MeterTicks(m, batch, token);
            Linked(s', m', token) && AllBalanced(s') &&
            VolumeOf(s'.bars, token) - VolumeOf(s.bars, token) == m'.total - m.total
  {
    if batch != [] {
      var init := batch[..|batch| - 1];
      TicksConserve(s, init, configured, m, token);
      TickConserves(FoldTicks(s, init, configured), batch[|batch| - 1], configured, MeterTicks(m, init, token), token);
    }
  }

  /** What a flush hands over it takes out of memory, and it hands over nothing else. */
  lemma FlushSplits(s: RecState, force: bool, now: int, token: int)
    ensures VolumeOf(s.bars, token) ==
            VolumeOf(Step(s, Flush(force, now)).bars, token) + VolumeOf(Ready(s.bars, force, now), token)
  {
    var ready := Ready(s.bars, force, now);
    var kept := s.bars - ready.Keys;
    assert VolumesOf(s.bars, token) == VolumesOf(kept, token) + VolumesOf(ready, token);
    SumMapSplit(VolumesOf(s.bars, token), VolumesOf(kept, token), VolumesOf(ready, token));
  }

  /** Over every run of tick batches, flushes and re-resolves, the volume of a token in
      memory plus the volume handed to storage is what its meter counted in the trace. */
  lemma {:induction false} VolumeConserved(es: seq<Event>, token: int)
    ensures VolumeOf(Run(es).bars, token) + HandedVolume(es, token) == MeterRun(es, token).total
    ensures Linked(Run(es), MeterRun(es, token), token) && AllBalanced(Run(es))
  {
    if es == [] {
      SumMapZero(VolumesOf(map[], token));
    } else {
      var before, e := es[..|es| - 1], es[|es| - 1];
      VolumeConserved(before, token);
      match e {
        case Ticks(batch, configured) =>
          TicksConserve(Run(before), batch, configured, MeterRun(before, token), token);
          SumMapZero(VolumesOf(map[], token));
          assert Handed(Run(before), e) == map[];
        case Flush(force, now) =>
          FlushSplits(Run(before), force, now, token);
        case Resolve(wanted) =>
          SumMapZero(VolumesOf(map[], token));
          assert Handed(Run(before), e) == map[];
      }
    }
  }

  /** Every event keeps every bar in memory balanced. */
  lemma StepBalanced(s: RecState, e: Event)
    requires AllBalanced(s)
    ensures AllBalanced(Step(s, e))
  {
    if e.Ticks? {
      var m := if 0 in s.tracked then Meter(true, s.tracked[0].lastVolume, 0.0) else Meter(false, None, 0.0);
      TicksConserve(s, e.batch, e.configured, m, 0);
    }
  }

  // ---- What the meter says about the exchange's cumulative volume ----

  /** Every re-resolve wants the token, and the first event already does. */
  ghost predicate Steady(es: seq<Event>, token: int) {
    && es != [] && es[0].Resolve?
    && forall i :: 0 <= i < |es| && es[i].Resolve? ==> token in es[i].wanted
  }

  predicate Counts(t: Tick, token: int) {
    t.token == Some(token) && t.ltp.Some? && t.ltp.value > 0.0
  }

  ghost predicate AllHaveVolume(es: seq<Event>, token: int) {
    forall i, j :: 0 <= i < |es| && es[i].Ticks? && 0 <= j < |es[i].batch| && Counts(es[i].batch[j], token)
                   ==> es[i].batch[j].volume.Some?
  }

  /** The token's cumulative volume readings, in order of arrival. */
  function BatchReadings(batch: seq<Tick>, token: int): seq<real> {
    if batch == [] then []
    else
      var t := batch[|batch| - 1];
      BatchReadings(batch[..|batch| - 1], token) + (if Counts(t, token) && t.volume.Some? then [t.volume.value] else [])
  }

  function Readings(es: seq<Event>, token: int): seq<real> {
    if es == [] then []
    else
      Readings(es[..|es| - 1], token) +
      (if es[|es| - 1].Ticks? then BatchReadings(es[|es| - 1].batch, token) else [])
  }

  predicate NonDecreasing(vs: seq<real>) {
    forall i :: 0 < i < |vs| ==> vs[i - 1] <= vs[i]
  }

  /** The sum of the upward steps of a reading sequence. */
  function Ups(vs: seq<real>): real {
    if |vs| < 2 then 0.0 else Ups(vs[..|vs| - 1]) + Max(0.0, vs[|vs| - 1] - vs[|vs| - 2])
  }

  /** The upward steps add up to last minus first exactly when no reading falls. */
  lemma {:induction false} UpsTelescope(vs: seq<real>)
    requires vs != []
    ensures Ups(vs) >= vs[|vs| - 1] - vs[0]
    ensures Ups(vs) == vs[|vs| - 1] - vs[0] <==> NonDecreasing(vs)
  {
    if |vs| > 1 {
      var init := vs[..|vs| - 1];
      UpsTelescope(init);
      if NonDecreasing(init) && vs[|vs| - 2] <= vs[|vs| - 1] {
        forall i | 0 < i < |vs|
          ensures vs[i - 1] <= vs[i]
        {
          if i < |init| { assert init[i - 1] <= init[i]; }
        }
      }
    }
  }

  function LastOf(vs: seq<real>): Option<real> {
    if vs == [] then None else Some(vs[|vs| - 1])
  }

  lemma UpsSnoc(vs: seq<real>, v: real)
    ensures Ups(vs + [v]) == Ups(vs) + (if vs == [] then 0.0 else Max(0.0, v - vs[|vs| - 1]))
    ensures LastOf(vs + [v]) == Some(v)
  {
  }

  lemma {:induction false} MeterTicksReads(m: Meter, batch: seq<Tick>, token: int, vs: seq<real>)
    requires m.tracked && m.last == LastOf(vs) && m.total == Ups(vs)
    requires forall j :: 0 <= j < |batch| && Counts(batch[j], token) ==> batch[j].volume.Some?
    ensures var m', vs' := MeterTicks(m, batch, token), vs + BatchReadings(batch, token);
            m'.tracked && m'.last == LastOf(vs') && m'.total == Ups(vs')
  {
    if batch == [] {
      assert vs + [] == vs;
    } else {
      var init, t := batch[..|batch| - 1], batch[|batch| - 1];
      MeterTicksReads(m, init, token, vs);
      var us := vs + BatchReadings(init, token);
      if Counts(t, token) {
        assert vs + BatchReadings(batch, token) == us + [t.volume.value];
        UpsSnoc(us, t.volume.value);
      } else {
        assert vs + BatchReadings(batch, token) == us;
      }
    }
  }

  lemma {:induction false} MeterReads(es: seq<Event>, token: int)
    requires Steady(es, token) && AllHaveVolume(es, token)
    ensures MeterRun(es, token) == Meter(true, LastOf(Readings(es, token)), Ups(Readings(es, token)))
  {
    var before, e := es[..|es| - 1], es[|es| - 1];
    if |es| == 1 {
      assert MeterRun(before, token) == Meter(false, None, 0.0);
      assert Readings(es, token) == [];
    } else {
      assert before[0] == es[0];
      assert forall i :: 0 <= i < |before| ==> before[i] == es[i];
      MeterReads(before, token);
      match e {
        case Ticks(batch, _) =>
          MeterTicksReads(MeterRun(before, token), batch, token, Readings(before, token));
        case Flush(_, _) =>
          assert Readings(es, token) == Readings(before, token);
        case Resolve(wanted) =>
          assert token in wanted;
          assert Readings(es, token) == Readings(before, token);
      }
    }
  }

  /** For a token that stays tracked and always reports its volume, the bars hold exactly
      last minus first reading, if and only if the reported volume never falls. */
  lemma VolumeTelescopes(es: seq<Event>, token: int)
    requires Steady(es, token) && AllHaveVolume(es, token) && Readings(es, token) != []
    ensures var vs := Readings(es, token);
            VolumeOf(Run(es).bars, token) + HandedVolume(es, token) == vs[|vs| - 1] - vs[0] <==> NonDecreasing(vs)
  {
    VolumeConserved(es, token);
    MeterReads(es, token);
    UpsTelescope(Readings(es, token));
  }

  // ---- When a bar is in memory ----

  /** The `n`-th tick of the batch is accepted and falls into the bucket of `k`. */
  ghost predicate Opens(s: RecState, batch: seq<Tick>, configured: int, n: int, k: Key) {
    && 0 <= n < |batch| && Accepted(FoldTicks(s, batch[..n], configured).tracked.Keys, batch[n])
    && KeyOf(batch[n], configured) == k
  }

  /** Some tick of the `i`-th event of the run does. */
  ghost predicate Feeds(es: seq<Event>, i: int, k: Key) {
    0 <= i < |es| && es[i].Ticks? && exists n :: Opens(Run(es[..i]), es[i].batch, es[i].configured, n, k)
  }

  /** The `i`-th event of the run hands `k` over to storage. */
  ghost predicate HandsOver(es: seq<Event>, i: int, k: Key) {
    0 <= i < |es| && k in Handed(Run(es[..i]), es[i])
  }

  ghost predicate KeptSince(es: seq<Event>, i: int, k: Key) {
    forall j :: i <= j < |es| ==> !HandsOver(es, j, k)
  }

  lemma {:induction false} BatchOpens(s: RecState, batch: seq<Tick>, configured: int, k: Key)
    ensures k in FoldTicks(s, batch, configured).bars <==> k in s.bars || exists n :: Opens(s, batch, configured, n, k)
  {
    if batch != [] {
      var m := |batch| - 1;
      var init := batch[..m];
      BatchOpens(s, init, configured, k);
      forall n | 0 <= n < m
        ensures Opens(s, batch, configured, n, k) <==> Opens(s, init, configured, n, k)
      {
        assert batch[..n] == init[..n];
      }
      assert Opens(s, batch, configured, m, k)
             <==> Accepted(FoldTicks(s, init, configured).tracked.Keys, batch[m]) && KeyOf(batch[m], configured) == k;
      assert forall n :: Opens(s, batch, configured, n, k) ==> n == m || Opens(s, init, configured, n, k);
    }
  }

  lemma PrefixAlike(es: seq<Event>, m: nat, i: int, k: Key)
    requires 0 <= i < m <= |es|
    ensures Feeds(es, i, k) <==> Feeds(es[..m], i, k)
    ensures HandsOver(es, i, k) <==> HandsOver(es[..m], i, k)
  {
    assert es[..m][..i] == es[..i];
  }

  /** Over every run, a bar is in memory exactly when some accepted tick has fallen into its bucket
      and it has not been handed over since. */
  lemma {:induction false} InMemoryWhen(es: seq<Event>, k: Key)
    ensures k in Run(es).bars <==> exists i :: Feeds(es, i, k) && KeptSince(es, i, k)
  {
    if es != [] {
      var m := |es| - 1;
      var before, e := es[..m], es[m];
      InMemoryWhen(before, k);
      forall i | 0 <= i < m
        ensures Feeds(es, i, k) <==> Feeds(before, i, k)
        ensures KeptSince(es, i, k) <==> KeptSince(before, i, k) && !HandsOver(es, m, k)
      {
        PrefixAlike(es, m, i, k);
        forall j | 0 <= j < m
          ensures HandsOver(es, j, k) <==> HandsOver(before, j, k)
        {
          PrefixAlike(es, m, j, k);
        }
        assert KeptSince(es, i, k) ==> KeptSince(before, i, k) && !HandsOver(es, m, k);
      }
      if e.Ticks? { BatchOpens(Run(before), e.batch, e.configured, k); }
      assert KeptSince(es, m, k) <==> !HandsOver(es, m, k);
    }
  }

  /** So no bar leaves memory twice on the same ticks: between two handovers of a key lies an
      accepted tick of its bucket. */
  lemma HandedTwice(es: seq<Event>, i: nat, j: nat, k: Key)
    requires i < j && HandsOver(es, i, k) && HandsOver(es, j, k)
    ensures exists a :: i < a < j && Feeds(es, a, k)
  {
    InMemoryWhen(es[..j], k);
    var a :| Feeds(es[..j], a, k) && KeptSince(es[..j], a, k);
    PrefixAlike(es, j, a, k);
    PrefixAlike(es, j, i, k);
  }

  // ---- The bars against a plain journal ----

  /** A journal page: how the bar was opened and every tick routed to it since. */
  datatype Page = Page(barSeconds: int, rowSize: PosReal, touches: seq<Touch>)

  type Journal = map<Key, Page>

  function Enter(j: Journal, s: RecState, t: Tick, configured: int): Journal {
    if !Accepted(s.tracked.Keys, t) then j
    else
      var c := s.tracked[t.token.value];
      var k := KeyOf(t, configured);
      var page := if k in j then j[k] else Page(BarWidth(configured), c.rowSize, []);
      j[k := page.(touches := page.touches + [TouchOf(c, t)])]
  }

  function EnterAll(j: Journal, s: RecState, batch: seq<Tick>, configured: int): Journal {
    if batch == [] then j
    else
      var init := batch[..|batch| - 1];
      Enter(EnterAll(j, s, init, configured), FoldTicks(s, init, configured), batch[|batch| - 1], configured)
  }

  /** The journal of a run: append each accepted tick to its page; tear out what a flush takes. */
  function JournalOf(es: seq<Event>): Journal {
    if es == [] then map[]
    else
      var before := es[..|es| - 1];
      match es[|es| - 1]
      case Ticks(batch, configured) => EnterAll(JournalOf(before), Run(before), batch, configured)
      case Flush(force, now) => JournalOf(before) - Ready(Run(before).bars, force, now).Keys
      case Resolve(_) => JournalOf(before)
  }

  ghost predicate Matches(b: BarV, p: Page) {
    && p.touches != [] && AllValid(p.touches)
    && b == Replay(OpenBar(p.barSeconds, p.rowSize, p.touches[0].price), p.touches)
  }

  ghost predicate Agrees(bars: map<Key, BarV>, j: Journal) {
    bars.Keys == j.Keys && forall k :: k in bars ==> Matches(bars[k], j[k])
  }

  lemma EnterAgrees(j: Journal, s: RecState, t: Tick, configured: int)
    requires Agrees(s.bars, j)
    ensures Agrees(FoldTick(s, t, configured).bars, Enter(j, s, t, configured))
  {
    if Accepted(s.tracked.Keys, t) {
      var c := s.tracked[t.token.value];
      var k := KeyOf(t, configured);
      var touch := TouchOf(c, t);
      var page := if k in j then j[k] else Page(BarWidth(configured), c.rowSize, []);
      var ts := page.touches + [touch];
      assert ts[..|ts| - 1] == page.touches;
      var b := FoldTick(s, t, configured).bars[k];
      assert b == Replay(OpenBar(page.barSeconds, page.rowSize, ts[0].price), ts);
      assert Matches(b, page.(touches := ts));
    }
  }

  lemma {:induction false} EnterAllAgrees(j: Journal, s: RecState, batch: seq<Tick>, configured: int)
    requires Agrees(s.bars, j)
    ensures Agrees(FoldTicks(s, batch, configured).bars, EnterAll(j, s, batch, configured))
  {
    if batch != [] {
      var init := batch[..|batch| - 1];
      EnterAllAgrees(j, s, init, configured);
      EnterAgrees(EnterAll(j, s, init, configured), FoldTicks(s, init, configured), batch[|batch| - 1], configured);
    }
  }

  lemma {:induction false} RunAgrees(es: seq<Event>)
    ensures Agrees(Run(es).bars, JournalOf(es))
  {
    if es != [] {
      var before := es[..|es| - 1];
      RunAgrees(before);
      match es[|es| - 1] {
        case Ticks(batch, configured) => EnterAllAgrees(JournalOf(before), Run(before), batch, configured);
        case Flush(_, _) =>
        case Resolve(_) =>
      }
    }
  }

  /** At every point of every run, every bar in memory is the exact summary of the
      ticks journalled for it since it was opened. */
  lemma BarsSummariseJournal(es: seq<Event>, k: Key)
    requires k in Run(es).bars
    ensures k in JournalOf(es) && JournalOf(es)[k].touches != []
    ensures var b, ts := Run(es).bars[k], JournalOf(es)[k].touches;
            PricesSummarise(b, ts) && FlowsSummarise(b, ts) && RowsSummarise(b, ts) && Balanced(b)
  {
    RunAgrees(es);
    var p := JournalOf(es)[k];
    assert Matches(Run(es).bars[k], p);
    BarIsSummary(p.barSeconds, p.rowSize, p.touches);
  }
}
