/** Choosing the wing to buy (app/silverm_delta_hedge.py `_pick_wing`): an out-of-the-money
    option and a lot count that bring the book's delta inside the target. */
module WingSearch {
  import opened Nums
  import opened HedgeSizing

  /** A strike of the chain with what its quote says; `delta` is missing when unsolvable. */
  datatype Wing = Wing(strike: real, ltp: real, oi: int, delta: Option<real>)

  datatype Search = Search(
    isCall: bool, f: real, book: real, lotUnits: int,
    target: real, maxLots: int, minOi: int, minDelta: real, maxDelta: real)

  // ---- Candidates ----

  const RADIUS := 15

  predicate Otm(z: Search, w: Wing) {
    if z.isCall then w.strike > z.f else w.strike < z.f
  }

  function Distance(z: Search, w: Wing): real {
    Abs(w.strike - z.f)
  }

  /** Stable insertion by distance. */
  function InsertByDistance(z: Search, w: Wing, s: seq<Wing>): seq<Wing> {
    if s == [] then [w]
    else if Distance(z, w) < Distance(z, s[|s| - 1]) then InsertByDistance(z, w, s[..|s| - 1]) + [s[|s| - 1]]
    else s + [w]
  }

  function OtmByDistance(z: Search, rows: seq<Wing>): seq<Wing> {
    if rows == [] then []
    else
      var rest := OtmByDistance(z, rows[..|rows| - 1]);
      if Otm(z, rows[|rows| - 1]) then InsertByDistance(z, rows[|rows| - 1], rest) else rest
  }

  /** The nearest out-of-the-money strikes, at most fifteen. */
  function Candidates(z: Search, rows: seq<Wing>): seq<Wing> {
    var all := OtmByDistance(z, rows);
    if |all| > RADIUS then all[..RADIUS] else all
  }

  /** Each strike is no closer to the price than the one before it. */
  predicate Nearing(z: Search, s: seq<Wing>) {
    forall i, j :: 0 <= i < j < |s| ==> Abs(s[i].strike - z.f) <= Abs(s[j].strike - z.f)
  }

  lemma {:induction false} InsertWithin(z: Search, w: Wing, s: seq<Wing>, d: real)
    requires Distance(z, w) <= d && forall i :: 0 <= i < |s| ==> Distance(z, s[i]) <= d
    ensures forall i :: 0 <= i < |InsertByDistance(z, w, s)| ==> Distance(z, InsertByDistance(z, w, s)[i]) <= d
  {
    if s != [] && Distance(z, w) < Distance(z, s[|s| - 1]) {
      InsertWithin(z, w, s[..|s| - 1], d);
    }
  }

  lemma {:induction false} InsertKeeps(z: Search, w: Wing, s: seq<Wing>)
    ensures multiset(InsertByDistance(z, w, s)) == multiset(s) + multiset{w}
  {
    if s != [] && Distance(z, w) < Distance(z, s[|s| - 1]) {
      assert s == s[..|s| - 1] + [s[|s| - 1]];
      InsertKeeps(z, w, s[..|s| - 1]);
    }
  }

  lemma SameMembers(z: Search, w: Wing, s: seq<Wing>, x: Wing)
    ensures x in InsertByDistance(z, w, s) <==> x in s || x == w
  {
    InsertKeeps(z, w, s);
    assert x in InsertByDistance(z, w, s) <==> x in multiset(InsertByDistance(z, w, s));
  }

  lemma NearingSnoc(z: Search, s: seq<Wing>, w: Wing)
    requires Nearing(z, s) && forall i :: 0 <= i < |s| ==> Distance(z, s[i]) <= Distance(z, w)
    ensures Nearing(z, s + [w])
  {
  }

  lemma {:induction false} InsertNears(z: Search, w: Wing, s: seq<Wing>)
    requires Nearing(z, s)
    ensures Nearing(z, InsertByDistance(z, w, s))
  {
    if s == [] {
    } else if Distance(z, w) < Distance(z, s[|s| - 1]) {
      InsertNears(z, w, s[..|s| - 1]);
      InsertWithin(z, w, s[..|s| - 1], Distance(z, s[|s| - 1]));
      NearingSnoc(z, InsertByDistance(z, w, s[..|s| - 1]), s[|s| - 1]);
    } else {
      NearingSnoc(z, s, w);
    }
  }

  function OtmOnly(z: Search, rows: seq<Wing>): seq<Wing> {
    if rows == [] then []
    else OtmOnly(z, rows[..|rows| - 1]) + (if Otm(z, rows[|rows| - 1]) then [rows[|rows| - 1]] else [])
  }

  lemma {:induction false} OtmSorted(z: Search, rows: seq<Wing>)
    ensures Nearing(z, OtmByDistance(z, rows))
    ensures multiset(OtmByDistance(z, rows)) == multiset(OtmOnly(z, rows))
  {
    if rows != [] {
      var init, last := rows[..|rows| - 1], rows[|rows| - 1];
      OtmSorted(z, init);
      InsertKeeps(z, last, OtmByDistance(z, init));
      InsertNears(z, last, OtmByDistance(z, init));
    }
  }

  /** Out-of-the-money rows only, and all of them: calls above the price, puts below. */
  lemma {:induction false} OtmMembers(z: Search, rows: seq<Wing>, w: Wing)
    ensures w in OtmByDistance(z, rows) <==> w in rows && (if z.isCall then w.strike > z.f else w.strike < z.f)
  {
    if rows != [] {
      OtmMembers(z, rows[..|rows| - 1], w);
      SameMembers(z, rows[|rows| - 1], OtmByDistance(z, rows[..|rows| - 1]), w);
    }
  }

  /** The search looks at them nearest first, and leaves one out only when fifteen others are no
      further away. */
  lemma CandidatesNearest(z: Search, rows: seq<Wing>)
    ensures Nearing(z, OtmByDistance(z, rows))
    ensures multiset(OtmByDistance(z, rows)) == multiset(OtmOnly(z, rows))
    ensures Candidates(z, rows) <= OtmByDistance(z, rows)
    ensures |Candidates(z, rows)| == MinInt(RADIUS, |OtmOnly(z, rows)|)
  {
    OtmSorted(z, rows);
    SameSize(OtmByDistance(z, rows), OtmOnly(z, rows));
  }

  lemma SameSize(a: seq<Wing>, b: seq<Wing>)
    requires multiset(a) == multiset(b)
    ensures |a| == |b|
  {
    assert |a| == |multiset(a)| && |b| == |multiset(b)|;
  }

  // ---- Usable wings and lot counts ----

  /** Delta bought with one lot. */
  function Kg(z: Search, w: Wing): real {
    if w.delta.Some? then w.delta.value * z.lotUnits as real else 0.0
  }

  /** Traded, liquid, of the right sign and size, and pushing the book toward zero. */
  predicate Usable(z: Search, w: Wing) {
    && w.ltp > 0.0 && w.oi >= z.minOi && w.delta.Some?
    && (if z.isCall then w.delta.value > 0.0 else w.delta.value < 0.0)
    && z.minDelta <= Abs(w.delta.value) <= z.maxDelta
    && (if z.book > 0.0 then Kg(z, w) < 0.0 else Kg(z, w) > 0.0)
  }

  /** Calls are of use to a book that is short or flat, puts to one that is long; the option must be
      quoted, held by enough others, solved, and neither too far out nor too deep. */
  lemma UsableWhen(z: Search, w: Wing)
    requires z.lotUnits >= 1
    ensures Usable(z, w) <==>
              && w.ltp > 0.0 && w.oi >= z.minOi && w.delta.Some?
              && Abs(w.delta.value) >= z.minDelta && Abs(w.delta.value) <= z.maxDelta
              && (if z.isCall then w.delta.value > 0.0 && z.book <= 0.0 else w.delta.value < 0.0 && z.book > 0.0)
  {
    if w.delta.Some? {
      KeepsSign(w.delta.value, z.lotUnits as real);
    }
  }

  lemma KeepsSign(x: real, k: real)
    requires k > 0.0
    ensures x * k > 0.0 <==> x > 0.0
    ensures x * k < 0.0 <==> x < 0.0
  {
  }

  /** The book's delta after buying `lots` lots. */
  function Residue(z: Search, w: Wing, lots: int): real {
    z.book + Kg(z, w) * lots as real
  }

  predicate Hits(z: Search, w: Wing, lots: int) {
    Abs(Residue(z, w, lots)) <= z.target
  }

  predicate FirstHit(z: Search, w: Wing, lots: int) {
    1 <= lots <= z.maxLots && Hits(z, w, lots) && forall k :: 1 <= k < lots ==> !Hits(z, w, k)
  }

  /** The first lot count from `from` on that reaches the target. */
  function HitFrom(z: Search, w: Wing, from: int): Option<int>
    decreases z.maxLots - from
  {
    if from > z.maxLots then None
    else if Hits(z, w, from) then Some(from)
    else HitFrom(z, w, from + 1)
  }

  lemma {:induction false} HitFromIs(z: Search, w: Wing, from: int)
    requires 1 <= from && forall k :: 1 <= k < from ==> !Hits(z, w, k)
    ensures HitFrom(z, w, from) == None <==> forall k :: 1 <= k <= z.maxLots ==> !Hits(z, w, k)
    ensures HitFrom(z, w, from).Some? ==> FirstHit(z, w, HitFrom(z, w, from).value)
    decreases z.maxLots - from
  {
    if from <= z.maxLots && !Hits(z, w, from) {
      HitFromIs(z, w, from + 1);
    }
  }

  /** The `for lots in range(1, max_lots + 1)` loop. */
  method FindHit(z: Search, w: Wing) returns (lots: Option<int>)
    ensures lots == HitFrom(z, w, 1)
    ensures lots.Some? ==> FirstHit(z, w, lots.value)
    ensures lots == None ==> forall k :: 1 <= k <= z.maxLots ==> !Hits(z, w, k)
  {
    HitFromIs(z, w, 1);
    var k := 1;
    while k <= z.maxLots
      invariant 1 <= k && HitFrom(z, w, k) == HitFrom(z, w, 1)
      decreases z.maxLots - k
    {
      if Hits(z, w, k) {
        return Some(k);
      }
      k := k + 1;
    }
    lots := None;
  }

  // ---- Scoring ----

  /** A scored combination: the sort key and the candidate it belongs to. */
  datatype Entry = Entry(size: real, lots: int, bucket: int, at: nat)

  function EntryOf(z: Search, ws: seq<Wing>, at: nat, lots: int): Entry
    requires at < |ws|
  {
    Entry(Abs(Residue(z, ws[at], lots)), lots, -MinInt(ws[at].oi / 500, 20), at)
  }

  function Scored(z: Search, ws: seq<Wing>, n: nat): seq<Entry>
    requires n <= |ws|
  {
    if n == 0 then []
    else
      var hit := HitFrom(z, ws[n - 1], 1);
      Scored(z, ws, n - 1) + (if Usable(z, ws[n - 1]) && hit.Some? then [EntryOf(z, ws, n - 1, hit.value)] else [])
  }

  function Fallback(z: Search, ws: seq<Wing>, n: nat): seq<Entry>
    requires n <= |ws|
  {
    if n == 0 then []
    else Fallback(z, ws, n - 1) + (if Usable(z, ws[n - 1]) then [EntryOf(z, ws, n - 1, z.maxLots)] else [])
  }

  /** Every usable candidate that can reach the target is scored with its fewest lots. */
  lemma {:induction false} ScoredIs(z: Search, ws: seq<Wing>, n: nat, at: nat, lots: int)
    requires n <= |ws| && at < |ws|
    ensures EntryOf(z, ws, at, lots) in Scored(z, ws, n) <==> at < n && Usable(z, ws[at]) && FirstHit(z, ws[at], lots)
  {
    if n > 0 {
      ScoredIs(z, ws, n - 1, at, lots);
      HitFromIs(z, ws[n - 1], 1);
    }
  }

  lemma {:induction false} ScoredFrom(z: Search, ws: seq<Wing>, n: nat, e: Entry)
    requires n <= |ws| && e in Scored(z, ws, n)
    ensures e.at < n && e == EntryOf(z, ws, e.at, e.lots)
  {
    if e !in Scored(z, ws, n - 1) {
    } else {
      ScoredFrom(z, ws, n - 1, e);
    }
  }

  lemma {:induction false} FallbackIs(z: Search, ws: seq<Wing>, n: nat, at: nat)
    requires n <= |ws| && at < |ws|
    ensures EntryOf(z, ws, at, z.maxLots) in Fallback(z, ws, n) <==> at < n && Usable(z, ws[at])
  {
    if n > 0 { FallbackIs(z, ws, n - 1, at); }
  }

  lemma {:induction false} FallbackFrom(z: Search, ws: seq<Wing>, n: nat, e: Entry)
    requires n <= |ws| && e in Fallback(z, ws, n)
    ensures e.at < n && e == EntryOf(z, ws, e.at, z.maxLots)
  {
    if e !in Fallback(z, ws, n - 1) {
    } else {
      FallbackFrom(z, ws, n - 1, e);
    }
  }

  // ---- Sorting the scores ----

  predicate Before(a: Entry, b: Entry) {
    a.size < b.size || (a.size == b.size && (a.lots < b.lots || (a.lots == b.lots && a.bucket < b.bucket)))
  }

  predicate SameKey(a: Entry, b: Entry) {
    a.size == b.size && a.lots == b.lots && a.bucket == b.bucket
  }

  ghost predicate Tied(s: seq<Entry>) {
    exists i, j :: 0 <= i < j < |s| && SameKey(s[i], s[j])
  }

  predicate Ascends(s: seq<Entry>) {
    forall i, j :: 0 <= i < j < |s| ==> Before(s[i], s[j])
  }

  /** Tuples equal on their first three fields are told apart by comparing instruments, which
      raises. Neighbours of the sorted order are always compared, so that happens exactly when
      two keys are equal. */
  function Insert(e: Entry, s: seq<Entry>): Option<seq<Entry>> {
    if s == [] then Some([e])
    else if Before(e, s[0]) then Some([e] + s)
    else if SameKey(e, s[0]) then None
    else
      var t := Insert(e, s[1..]);
      if t.Some? then Some([s[0]] + t.value) else None
  }

  function Sort(s: seq<Entry>): Option<seq<Entry>> {
    if s == [] then Some([])
    else
      var t := Sort(s[..|s| - 1]);
      if t.Some? then Insert(s[|s| - 1], t.value) else None
  }

  lemma {:induction false} InsertIs(e: Entry, s: seq<Entry>)
    requires Ascends(s)
    ensures Insert(e, s) == None <==> exists i :: 0 <= i < |s| && SameKey(e, s[i])
    ensures Insert(e, s).Some? ==> Ascends(Insert(e, s).value) && |Insert(e, s).value| == |s| + 1
    ensures Insert(e, s).Some? ==> forall x :: x in Insert(e, s).value <==> x in s || x == e
  {
    if s != [] && !Before(e, s[0]) && !SameKey(e, s[0]) {
      InsertIs(e, s[1..]);
      assert s == [s[0]] + s[1..];
      assert forall i :: 0 <= i < |s[1..]| ==> s[1..][i] == s[i + 1];
      if Insert(e, s).Some? {
        var t := Insert(e, s[1..]).value;
        forall i | 0 <= i < |t|
          ensures Before(s[0], t[i])
        {
          assert t[i] in t;
        }
      }
    }
  }

  lemma {:induction false} SortIs(s: seq<Entry>)
    ensures Sort(s) == None <==> Tied(s)
    ensures Sort(s).Some? ==> Ascends(Sort(s).value) && |Sort(s).value| == |s| && forall x :: x in Sort(s).value <==> x in s
  {
    if s != [] {
      var init, last := s[..|s| - 1], s[|s| - 1];
      SortIs(init);
      assert s == init + [last];
      if Sort(init).Some? {
        var t := Sort(init).value;
        InsertIs(last, t);
        LastTies(init, last, t);
      } else {
        TieStays(init, last);
      }
    }
  }

  lemma TieStays(init: seq<Entry>, last: Entry)
    requires Tied(init)
    ensures Tied(init + [last])
  {
    var i, j :| 0 <= i < j < |init| && SameKey(init[i], init[j]);
    assert SameKey((init + [last])[i], (init + [last])[j]);
  }

  lemma LastTies(init: seq<Entry>, last: Entry, t: seq<Entry>)
    requires !Tied(init) && forall x :: x in t <==> x in init
    ensures Tied(init + [last]) <==> exists i :: 0 <= i < |t| && SameKey(last, t[i])
  {
    var s := init + [last];
    if i, j :| 0 <= i < j < |s| && SameKey(s[i], s[j]) {
      assert forall a, b :: 0 <= a < b < |init| ==> !SameKey(init[a], init[b]);
      assert j == |init|;
      assert s[i] in init;
      var k :| 0 <= k < |t| && t[k] == s[i];
      assert SameKey(last, t[k]);
    }
    if k :| 0 <= k < |t| && SameKey(last, t[k]) {
      assert t[k] in init;
      var i :| 0 <= i < |init| && init[i] == t[k];
      assert SameKey(s[i], s[|init|]);
    }
  }

  lemma {:induction false} ScoredInOrder(z: Search, ws: seq<Wing>, n: nat, i: nat, j: nat)
    requires n <= |ws| && i < j < |Scored(z, ws, n)|
    ensures Scored(z, ws, n)[i].at < Scored(z, ws, n)[j].at
  {
    var s := Scored(z, ws, n - 1);
    if j < |s| {
      ScoredInOrder(z, ws, n - 1, i, j);
    } else {
      ScoredFrom(z, ws, n - 1, s[i]);
    }
  }

  /** Two strikes' fewest-lot hits leave the same |residual| with the same lots and the same
      open-interest bucket. */
  ghost predicate HitsTie(z: Search, ws: seq<Wing>, i: nat, j: nat, lots: int) {
    && i < j < |ws| && Usable(z, ws[i]) && Usable(z, ws[j])
    && FirstHit(z, ws[i], lots) && FirstHit(z, ws[j], lots)
    && SameKey(EntryOf(z, ws, i, lots), EntryOf(z, ws, j, lots))
  }

  lemma TiedHits(z: Search, ws: seq<Wing>)
    ensures Tied(Scored(z, ws, |ws|)) <==> exists i, j, lots :: HitsTie(z, ws, i, j, lots)
  {
    var s := Scored(z, ws, |ws|);
    if a, b :| 0 <= a < b < |s| && SameKey(s[a], s[b]) {
      ScoredInOrder(z, ws, |ws|, a, b);
      ScoredFrom(z, ws, |ws|, s[a]);
      ScoredFrom(z, ws, |ws|, s[b]);
      ScoredIs(z, ws, |ws|, s[a].at, s[a].lots);
      ScoredIs(z, ws, |ws|, s[b].at, s[b].lots);
      assert HitsTie(z, ws, s[a].at, s[b].at, s[a].lots);
    }
    if i, j, lots :| HitsTie(z, ws, i, j, lots) {
      ScoredIs(z, ws, |ws|, i, lots);
      ScoredIs(z, ws, |ws|, j, lots);
      var e, e' := EntryOf(z, ws, i, lots), EntryOf(z, ws, j, lots);
      var a :| 0 <= a < |s| && s[a] == e;
      var b :| 0 <= b < |s| && s[b] == e';
      assert SameKey(s[a], s[b]) && SameKey(s[b], s[a]);
    }
  }

  // ---- The pick ----

  datatype Pick = NoWing | Raised | Picked(at: nat, lots: int, residual: real)

  /** A usable candidate can reach the target within the lot cap. */
  ghost predicate Reachable(z: Search, ws: seq<Wing>) {
    exists i, lots :: 0 <= i < |ws| && Usable(z, ws[i]) && FirstHit(z, ws[i], lots)
  }

  /** The winner reaches the target with the fewest lots for its strike, and beats every other
      strike's fewest-lot hit on |residual|, then lots, then open interest. */
  ghost predicate BestHit(z: Search, ws: seq<Wing>, at: nat, lots: int) {
    && at < |ws| && Usable(z, ws[at]) && FirstHit(z, ws[at], lots)
    && forall i, n :: 0 <= i < |ws| && i != at && Usable(z, ws[i]) && FirstHit(z, ws[i], n)
                      ==> Before(EntryOf(z, ws, at, lots), EntryOf(z, ws, i, n))
  }

  /** Which is to say: it leaves the least delta of all hits; among hits that leave as little it has the
      fewest lots; and among those the most open interest, counted in five-hundreds up to twenty. */
  lemma BestHitMeans(z: Search, ws: seq<Wing>, at: nat, lots: int, i: nat, n: int)
    requires BestHit(z, ws, at, lots) && i < |ws| && Usable(z, ws[i]) && FirstHit(z, ws[i], n)
    ensures Abs(Residue(z, ws[at], lots)) <= Abs(Residue(z, ws[i], n))
    ensures Abs(Residue(z, ws[at], lots)) == Abs(Residue(z, ws[i], n)) ==> lots <= n
    ensures Abs(Residue(z, ws[at], lots)) == Abs(Residue(z, ws[i], n)) && lots == n && i != at ==>
              ws[at].oi / 500 > ws[i].oi / 500 && ws[i].oi / 500 < 20
  {
    assert i != at ==> Before(EntryOf(z, ws, at, lots), EntryOf(z, ws, i, n));
  }

  /** The winner leaves the least delta of all usable strikes, each taken at the lot cap. */
  ghost predicate BestAtCap(z: Search, ws: seq<Wing>, at: nat) {
    && at < |ws| && Usable(z, ws[at])
    && forall i :: 0 <= i < |ws| && i != at && Usable(z, ws[i])
                   ==> Before(EntryOf(z, ws, at, z.maxLots), EntryOf(z, ws, i, z.maxLots))
  }

  ghost predicate NoneUsable(z: Search, ws: seq<Wing>) {
    forall i :: 0 <= i < |ws| ==> !Usable(z, ws[i])
  }

  lemma ScoredMeans(z: Search, ws: seq<Wing>)
    ensures Scored(z, ws, |ws|) == [] <==> !Reachable(z, ws)
  {
    var s := Scored(z, ws, |ws|);
    if s != [] {
      var e := s[0];
      ScoredFrom(z, ws, |ws|, e);
      ScoredIs(z, ws, |ws|, e.at, e.lots);
    }
    if i, lots :| 0 <= i < |ws| && Usable(z, ws[i]) && FirstHit(z, ws[i], lots) {
      ScoredIs(z, ws, |ws|, i, lots);
    }
  }

  lemma FallbackMeans(z: Search, ws: seq<Wing>)
    ensures Fallback(z, ws, |ws|) == [] <==> NoneUsable(z, ws)
  {
    var s := Fallback(z, ws, |ws|);
    if s != [] {
      FallbackFrom(z, ws, |ws|, s[0]);
      FallbackIs(z, ws, |ws|, s[0].at);
    }
    if !NoneUsable(z, ws) {
      var i :| 0 <= i < |ws| && Usable(z, ws[i]);
      FallbackIs(z, ws, |ws|, i);
    }
  }

  lemma HeadBeats(s: seq<Entry>, e: Entry)
    requires Sort(s).Some? && e in s
    ensures Sort(s).value != [] && (e == Sort(s).value[0] || Before(Sort(s).value[0], e)) && Sort(s).value[0] in s
  {
    SortIs(s);
    var t := Sort(s).value;
    assert e in t;
    var k :| 0 <= k < |t| && t[k] == e;
    assert t[0] in t;
  }

  lemma ScoredHeadBest(z: Search, ws: seq<Wing>)
    requires Scored(z, ws, |ws|) != [] && Sort(Scored(z, ws, |ws|)).Some?
    ensures var t := Sort(Scored(z, ws, |ws|)).value;
            t != [] && BestHit(z, ws, t[0].at, t[0].lots) && t[0] == EntryOf(z, ws, t[0].at, t[0].lots)
  {
    var s := Scored(z, ws, |ws|);
    HeadBeats(s, s[0]);
    var e := Sort(s).value[0];
    ScoredFrom(z, ws, |ws|, e);
    ScoredIs(z, ws, |ws|, e.at, e.lots);
    forall i, n | 0 <= i < |ws| && i != e.at && Usable(z, ws[i]) && FirstHit(z, ws[i], n)
      ensures Before(e, EntryOf(z, ws, i, n))
    {
      ScoredIs(z, ws, |ws|, i, n);
      HeadBeats(s, EntryOf(z, ws, i, n));
    }
  }

  lemma FallbackHeadBest(z: Search, ws: seq<Wing>)
    requires Fallback(z, ws, |ws|) != [] && Sort(Fallback(z, ws, |ws|)).Some?
    ensures var t := Sort(Fallback(z, ws, |ws|)).value;
            t != [] && BestAtCap(z, ws, t[0].at) && t[0] == EntryOf(z, ws, t[0].at, z.maxLots)
  {
    var s := Fallback(z, ws, |ws|);
    HeadBeats(s, s[0]);
    var e := Sort(s).value[0];
    FallbackFrom(z, ws, |ws|, e);
    FallbackIs(z, ws, |ws|, e.at);
    forall i | 0 <= i < |ws| && i != e.at && Usable(z, ws[i])
      ensures Before(e, EntryOf(z, ws, i, z.maxLots))
    {
      FallbackIs(z, ws, |ws|, i);
      HeadBeats(s, EntryOf(z, ws, i, z.maxLots));
    }
  }

  /** Score every usable candidate at its fewest lots that reach the target and take the best;
      when none reaches it, take the best at the lot cap. */
  method PickWing(z: Search, rows: seq<Wing>, quoted: bool) returns (r: Pick)
    ensures var ws := Candidates(z, rows);
            && (r.NoWing? <==> !quoted || NoneUsable(z, ws))
            && (r.Picked? && Reachable(z, ws) ==> BestHit(z, ws, r.at, r.lots))
            && (r.Picked? && !Reachable(z, ws) ==> r.lots == z.maxLots && BestAtCap(z, ws, r.at))
            && (r.Picked? ==> r.residual == Residue(z, ws[r.at], r.lots))
            && (r.Raised? <==> quoted && Tied(if Reachable(z, ws) then Scored(z, ws, |ws|) else Fallback(z, ws, |ws|)))
  {
    var ws := Candidates(z, rows);
    if ws == [] || !quoted {
      return NoWing;
    }
    var scored: seq<Entry> := [];
    for i := 0 to |ws|
      invariant scored == Scored(z, ws, i)
    {
      if Usable(z, ws[i]) {
        var lots := FindHit(z, ws[i]);
        if lots.Some? {
          scored := scored + [EntryOf(z, ws, i, lots.value)];
        }
      }
    }
    ScoredMeans(z, ws);
    FallbackMeans(z, ws);
    if scored == [] {
      r := PickAtCap(z, ws);
      return;
    }
    SortIs(scored);
    var sorted := Sort(scored);
    if sorted == None {
      return Raised;
    }
    ScoredHeadBest(z, ws);
    r := Picked(sorted.value[0].at, sorted.value[0].lots, Residue(z, ws[sorted.value[0].at], sorted.value[0].lots));
  }

  method PickAtCap(z: Search, ws: seq<Wing>) returns (r: Pick)
    ensures r.NoWing? <==> NoneUsable(z, ws)
    ensures r.Picked? ==> BestAtCap(z, ws, r.at) && r.lots == z.maxLots && r.residual == Residue(z, ws[r.at], r.lots)
    ensures r.Raised? <==> Tied(Fallback(z, ws, |ws|))
  {
    var fallback: seq<Entry> := [];
    for i := 0 to |ws|
      invariant fallback == Fallback(z, ws, i)
    {
      if Usable(z, ws[i]) {
        fallback := fallback + [EntryOf(z, ws, i, z.maxLots)];
      }
    }
    FallbackMeans(z, ws);
    if fallback == [] {
      return NoWing;
    }
    SortIs(fallback);
    var sorted := Sort(fallback);
    if sorted == None {
      return Raised;
    }
    FallbackHeadBest(z, ws);
    r := Picked(sorted.value[0].at, z.maxLots, Residue(z, ws[sorted.value[0].at], z.maxLots));
  }

  // ---- What the fallback misses ----

  lemma ResidueSize(z: Search, w: Wing, n: int)
    requires Usable(z, w) && z.book != 0.0
    ensures Abs(Residue(z, w, n)) == Abs(Abs(z.book) - Moved(n, Abs(Kg(z, w)))) && Abs(Kg(z, w)) > 0.0
    ensures n >= 0 ==> (if z.book > 0.0 then Residue(z, w, n) <= z.book else Residue(z, w, n) >= z.book)
  {
  }

  lemma MovedAdds(n: int, m: int, per: real)
    ensures Moved(n + m, per) == Moved(n, per) + Moved(m, per)
  {
  }

  lemma MovedGrows(n: int, m: int, per: real)
    requires n <= m && per >= 0.0
    ensures Moved(n, per) <= Moved(m, per)
  {
  }

  /** One lot fewer than the cap, if allowed, would not be nearer to flat. */
  predicate CapIsBest(z: Search, w: Wing) {
    z.maxLots == 1 || Moved(2 * z.maxLots - 1, Abs(Kg(z, w))) <= 2.0 * Abs(z.book)
  }

  /** For one strike, the lot cap is the best lot count exactly when it is the only one or one
      lot fewer would not be nearer to flat. */
  lemma CapIsBestWhen(z: Search, w: Wing)
    requires Usable(z, w) && z.book != 0.0 && z.maxLots >= 1
    ensures (forall n :: 1 <= n <= z.maxLots ==> Abs(Residue(z, w, z.maxLots)) <= Abs(Residue(z, w, n)))
            <==> CapIsBest(z, w)
  {
    var kg, cap := Abs(Kg(z, w)), z.maxLots;
    ResidueSize(z, w, cap);
    if cap > 1 {
      MovedAdds(cap, cap - 1, kg);
      MovedAdds(cap - 1, 1, kg);
      assert Moved(1, kg) == kg;
      ResidueSize(z, w, cap - 1);
      if Moved(2 * cap - 1, kg) <= 2.0 * Abs(z.book) {
        forall n | 1 <= n <= cap
          ensures Abs(Residue(z, w, cap)) <= Abs(Residue(z, w, n))
        {
          ResidueSize(z, w, n);
          if n < cap { MovedGrows(n, cap - 1, kg); }
        }
      } else {
        assert Abs(Residue(z, w, cap)) > Abs(Residue(z, w, cap - 1));
      }
    }
  }

  /** A wing bought at the lot cap leaves the book further from flat than doing nothing exactly
      when the cap buys more than twice the book's delta. */
  lemma CapWorsensWhen(z: Search, w: Wing)
    requires Usable(z, w) && z.book != 0.0 && z.maxLots >= 1
    ensures Abs(Residue(z, w, z.maxLots)) > Abs(z.book) <==> Moved(z.maxLots, Abs(Kg(z, w))) > 2.0 * Abs(z.book)
  {
  }

  /** Lots no coarser than the target window cannot step over it: a strike that never hits is
      still short of it after any number of lots. */
  lemma {:induction false} FineLotsFallShort(z: Search, w: Wing, n: int)
    requires Usable(z, w) && Abs(z.book) > z.target && Abs(Kg(z, w)) <= 2.0 * z.target && 0 <= n <= z.maxLots
    requires forall k :: 1 <= k <= z.maxLots ==> !Hits(z, w, k)
    ensures Moved(n, Abs(Kg(z, w))) < Abs(z.book) - z.target
  {
    assert Abs(Kg(z, w)) >= 0.0;
    if n == 0 {
      assert Moved(0, Abs(Kg(z, w))) == 0.0;
    } else {
      FineLotsFallShort(z, w, n - 1);
      MovedAdds(n - 1, 1, Abs(Kg(z, w)));
      assert Moved(1, Abs(Kg(z, w))) == Abs(Kg(z, w));
      ResidueSize(z, w, n);
      assert !Hits(z, w, n);
    }
  }

  lemma NoHitAnywhere(z: Search, ws: seq<Wing>, i: nat)
    requires i < |ws| && Usable(z, ws[i]) && !Reachable(z, ws)
    ensures forall k :: 1 <= k <= z.maxLots ==> !Hits(z, ws[i], k)
  {
    HitFromIs(z, ws[i], 1);
  }

  /** So its lot cap is its best lot count, and leaves the book on its own side. */
  lemma FineLotsCapBest(z: Search, w: Wing, n: int)
    requires Usable(z, w) && Abs(z.book) > z.target && Abs(Kg(z, w)) <= 2.0 * z.target && 1 <= n <= z.maxLots
    requires forall k :: 1 <= k <= z.maxLots ==> !Hits(z, w, k)
    ensures Abs(Residue(z, w, z.maxLots)) <= Abs(Residue(z, w, n))
    ensures if z.book > 0.0 then Residue(z, w, z.maxLots) > 0.0 else Residue(z, w, z.maxLots) < 0.0
  {
    FineLotsFallShort(z, w, z.maxLots);
    ResidueSize(z, w, z.maxLots);
    ResidueSize(z, w, n);
    MovedGrows(n, z.maxLots, Abs(Kg(z, w)));
    KeepsSide(z, w, z.maxLots);
  }

  lemma KeepsSide(z: Search, w: Wing, n: int)
    requires Usable(z, w) && z.book != 0.0 && n >= 0 && Moved(n, Abs(Kg(z, w))) < Abs(z.book)
    ensures if z.book > 0.0 then Residue(z, w, n) > 0.0 else Residue(z, w, n) < 0.0
  {
  }

  /** The lot count that takes this strike closest to flat, from the book and one lot's delta. */
  function NearestLots(z: Search, w: Wing): int
    requires Usable(z, w)
  {
    MaxInt(1, MinInt(Round(Abs(z.book) / Abs(Kg(z, w))), z.maxLots))
  }

  /** Of the counts allowed, the one nearest to a fractional count is its rounding, clamped. */
  lemma ClampedNearest(q: real, n: int, cap: int)
    requires 1 <= n <= cap
    ensures var c := MaxInt(1, MinInt(Round(q), cap)); 1 <= c <= cap && Abs(q - c as real) <= Abs(q - n as real)
  {
    RoundIsNearest(q, n);
  }

  /** Distance to flat after `n` lots, in lots and in delta. */
  lemma LotsAway(x: real, per: real, n: int)
    requires per > 0.0
    ensures Abs(x - Moved(n, per)) == DeltaOf(Abs(x / per - n as real), per)
  {
    var d := x / per - n as real;
    assert d * per == x - n as real * per;
  }

  /** The delta of a fractional number of lots. */
  function DeltaOf(lots: real, per: real): real {
    lots * per
  }

  lemma DeltaGrows(a: real, b: real, per: real)
    requires a <= b && per > 0.0
    ensures DeltaOf(a, per) <= DeltaOf(b, per)
  {
  }

  lemma NearestMoved(x: real, per: real, n: int, cap: int)
    requires per > 0.0 && 1 <= n <= cap
    ensures var c := MaxInt(1, MinInt(Round(x / per), cap)); Abs(x - Moved(c, per)) <= Abs(x - Moved(n, per))
  {
    var c := MaxInt(1, MinInt(Round(x / per), cap));
    ClampedNearest(x / per, n, cap);
    LotsAway(x, per, n);
    LotsAway(x, per, c);
    DeltaGrows(Abs(x / per - c as real), Abs(x / per - n as real), per);
  }

  lemma NearestIsBest(z: Search, w: Wing, n: int)
    requires Usable(z, w) && z.book != 0.0 && 1 <= n <= z.maxLots
    ensures 1 <= NearestLots(z, w) <= z.maxLots && Abs(Residue(z, w, NearestLots(z, w))) <= Abs(Residue(z, w, n))
  {
    ResidueSize(z, w, n);
    ResidueSize(z, w, NearestLots(z, w));
    NearestMoved(Abs(z.book), Abs(Kg(z, w)), n, z.maxLots);
  }

  /** No usable strike and no allowed lot count would leave the book closer to flat. */
  ghost predicate LeastOfAll(z: Search, ws: seq<Wing>, residual: real) {
    forall i, n :: 0 <= i < |ws| && Usable(z, ws[i]) && 1 <= n <= z.maxLots ==> Abs(residual) <= Abs(Residue(z, ws[i], n))
  }

  /** The fallback's choice is the best of every usable strike and every lot count exactly when
      no usable strike does better at the lot count nearest to flat. */
  lemma FallbackBestWhen(z: Search, ws: seq<Wing>, at: nat)
    requires z.book != 0.0 && z.maxLots >= 1 && BestAtCap(z, ws, at)
    ensures LeastOfAll(z, ws, Residue(z, ws[at], z.maxLots))
            <==> forall i :: 0 <= i < |ws| && Usable(z, ws[i])
                   ==> Abs(Residue(z, ws[at], z.maxLots)) <= Abs(Residue(z, ws[i], NearestLots(z, ws[i])))
  {
    var residual := Residue(z, ws[at], z.maxLots);
    if LeastOfAll(z, ws, residual) {
      forall i | 0 <= i < |ws| && Usable(z, ws[i])
        ensures Abs(residual) <= Abs(Residue(z, ws[i], NearestLots(z, ws[i])))
      {
        NearestIsBest(z, ws[i], 1);
      }
    } else {
      var i, n :| 0 <= i < |ws| && Usable(z, ws[i]) && 1 <= n <= z.maxLots && Abs(residual) > Abs(Residue(z, ws[i], n));
      NearestIsBest(z, ws[i], n);
    }
  }

  /** In particular when the lot cap is every usable strike's own best lot count. */
  lemma FallbackBest(z: Search, ws: seq<Wing>, at: nat)
    requires z.book != 0.0 && z.maxLots >= 1 && BestAtCap(z, ws, at)
    requires forall i :: 0 <= i < |ws| && Usable(z, ws[i]) ==> CapIsBest(z, ws[i])
    ensures LeastOfAll(z, ws, Residue(z, ws[at], z.maxLots))
  {
    forall i, n | 0 <= i < |ws| && Usable(z, ws[i]) && 1 <= n <= z.maxLots
      ensures Abs(Residue(z, ws[at], z.maxLots)) <= Abs(Residue(z, ws[i], n))
    {
      CapIsBestWhen(z, ws[i]);
      AtCapLeast(z, ws, at, i);
    }
  }

  /** When no strike's lot is coarser than the target window, the fallback's choice is the best
      of all, and the book keeps its sign. */
  lemma FineFallbackBest(z: Search, ws: seq<Wing>, at: nat)
    requires Abs(z.book) > z.target && z.maxLots >= 1 && !Reachable(z, ws) && BestAtCap(z, ws, at)
    requires forall j :: 0 <= j < |ws| && Usable(z, ws[j]) ==> Abs(Kg(z, ws[j])) <= 2.0 * z.target
    ensures LeastOfAll(z, ws, Residue(z, ws[at], z.maxLots))
    ensures if z.book > 0.0 then Residue(z, ws[at], z.maxLots) > 0.0 else Residue(z, ws[at], z.maxLots) < 0.0
  {
    NoHitAnywhere(z, ws, at);
    FineLotsCapBest(z, ws[at], z.maxLots);
    forall i, n | 0 <= i < |ws| && Usable(z, ws[i]) && 1 <= n <= z.maxLots
      ensures Abs(Residue(z, ws[at], z.maxLots)) <= Abs(Residue(z, ws[i], n))
    {
      NoHitAnywhere(z, ws, i);
      FineLotsCapBest(z, ws[i], n);
      AtCapLeast(z, ws, at, i);
    }
  }

  lemma AtCapLeast(z: Search, ws: seq<Wing>, at: nat, i: nat)
    requires BestAtCap(z, ws, at) && i < |ws| && Usable(z, ws[i])
    ensures Abs(Residue(z, ws[at], z.maxLots)) <= Abs(Residue(z, ws[i], z.maxLots))
  {
  }

  /** Without that the fallback can do worse than nothing: two kilos short of flat, strikes that
      carry three kilos a lot and a cap of two lots leave four. */
  lemma FallbackOvershoots()
    ensures var z := Search(false, 100.0, 2.0, 5, 0.5, 2, 0, 0.1, 0.9);
            var w := Wing(90.0, 1.0, 1000, Some(-0.6));
            && Usable(z, w) && !Reachable(z, [w]) && BestAtCap(z, [w], 0)
            && Abs(Residue(z, w, 2)) > Abs(z.book) && Abs(Residue(z, w, 1)) < Abs(z.book)
  {
  }

  /** A usable strike reaches the target first with `n` lots. */
  ghost predicate HitOf(z: Search, ws: seq<Wing>, i: int, n: int) {
    0 <= i < |ws| && Usable(z, ws[i]) && FirstHit(z, ws[i], n)
  }

  ghost predicate FewestLots(z: Search, ws: seq<Wing>, n: int) {
    forall k, m :: HitOf(z, ws, k, m) ==> n <= m
  }

  ghost predicate FewestAndClosest(z: Search, ws: seq<Wing>, i: int, n: int) {
    && HitOf(z, ws, i, n) && FewestLots(z, ws, n)
    && forall k, m :: HitOf(z, ws, k, m) ==> Abs(Residue(z, ws[i], n)) <= Abs(Residue(z, ws[k], m))
  }

  /** The pick has the fewest lots of all hits exactly when one hit is at once the fewest in lots
      and the closest to flat. */
  lemma FewestLotsWhen(z: Search, ws: seq<Wing>, at: nat, lots: int)
    requires BestHit(z, ws, at, lots)
    ensures FewestLots(z, ws, lots) <==> exists i, n :: FewestAndClosest(z, ws, i, n)
  {
    assert HitOf(z, ws, at, lots);
    forall k, m | HitOf(z, ws, k, m)
      ensures Abs(Residue(z, ws[at], lots)) <= Abs(Residue(z, ws[k], m))
      ensures Abs(Residue(z, ws[k], m)) <= Abs(Residue(z, ws[at], lots)) ==> lots <= m
    {
      assert k != at ==> Before(EntryOf(z, ws, at, lots), EntryOf(z, ws, k, m));
    }
    if FewestLots(z, ws, lots) {
      assert FewestAndClosest(z, ws, at, lots);
    }
  }

  /** A hit with fewer lots is passed over for one that lands closer. */
  lemma FewestLotsNotPreferred()
    ensures var z := Search(false, 100.0, 2.0, 5, 0.6, 2, 0, 0.1, 0.9);
            var ws := [Wing(95.0, 1.0, 1000, Some(-0.3)), Wing(90.0, 1.0, 1000, Some(-0.2))];
            FirstHit(z, ws[0], 1) && BestHit(z, ws, 1, 2)
  {
  }
}
