/** Live hedge thresholds: the flat "slug.key" override store (app/state.py), the registry's
    clamps and the control form (app/hedge_tunables.py, app/main.py), and the overrides file. */
module TunableStore {
  import opened Nums

  type Store = map<string, real>

  function Key(slug: string, key: string): string {
    slug + "." + key
  }

  function Lookup(s: Store, full: string): Option<real> {
    if full in s then Some(s[full]) else None
  }

  function Put(s: Store, slug: string, key: string, value: Option<real>): Store {
    if value.Some? then s[Key(slug, key) := value.value] else s - {Key(slug, key)}
  }

  predicate Under(slug: string, full: string) {
    slug + "." <= full
  }

  function Cleared(s: Store, slug: string): Store {
    map full | full in s && !Under(slug, full) :: s[full]
  }

  class Overrides {
    var store: Store

    constructor ()
      ensures store == map[]
    {
      store := map[];
    }

    method Get(slug: string, key: string, envDefault: real) returns (value: real)
      ensures value == (var o := Lookup(store, Key(slug, key)); if o.Some? then o.value else envDefault)
    {
      var full := Key(slug, key);
      value := if full in store then store[full] else envDefault;
    }

    method Set(slug: string, key: string, value: Option<real>)
      modifies this
      ensures store == Put(old(store), slug, key, value)
    {
      match value
      case None => store := store - {Key(slug, key)};
      case Some(v) => store := store[Key(slug, key) := v];
    }

    /** Delete these names one by one. */
    method Delete(names: set<string>)
      modifies this
      ensures store == old(store) - names
    {
      var left, gone := names, {};
      while left != {}
        invariant gone <= names && left == names - gone && store == old(store) - gone
        decreases |left|
      {
        var full :| full in left;
        store := store - {full};
        left, gone := left - {full}, gone + {full};
      }
      assert gone == names;
    }

    /** One engine's overrides, or everyone's. */
    method Clear(slug: Option<string>)
      modifies this
      ensures if slug == None then store == map[] else store == Cleared(old(store), slug.value) && ResetOnly(old(store), store, slug.value)
    {
      if slug == None {
        store := map[];
        return;
      }
      Delete(set full | full in store && Under(slug.value, full));
      assert store == Cleared(old(store), slug.value);
      ClearedResets(old(store), slug.value);
    }
  }

  /** The engine is left with no override, and every engine of a separate slug with all of its own. */
  ghost predicate ResetOnly(s: Store, t: Store, slug: string) {
    EngineOf(t, slug) == map[] && forall other :: Separate(slug, other) ==> EngineOf(t, other) == EngineOf(s, other)
  }

  lemma ClearedResets(s: Store, slug: string)
    ensures ResetOnly(s, Cleared(s, slug), slug)
  {
    ClearRefines(s, slug, slug);
    forall other | Separate(slug, other)
      ensures EngineOf(Cleared(s, slug), other) == EngineOf(s, other)
    {
      ClearRefines(s, slug, other);
    }
  }

  // ---- The flat store is a store per engine ----

  lemma KnobsDiffer(slug: string, s: Store)
    ensures forall f, f' :: f in s && f' in s && Under(slug, f) && Under(slug, f') && f[|slug| + 1..] == f'[|slug| + 1..] ==> f == f'
  {
  }

  /** One engine's overrides, by knob. */
  function EngineOf(s: Store, slug: string): map<string, real> {
    KnobsDiffer(slug, s);
    map full | full in s && Under(slug, full) :: full[|slug| + 1..] := s[full]
  }

  /** Neither dotted slug begins the other. */
  predicate Separate(a: string, b: string) {
    !(a + "." <= b + ".") && !(b + "." <= a + ".")
  }

  predicate DotFree(s: string) {
    '.' !in s
  }

  lemma UnderKey(slug: string, key: string)
    ensures Under(slug, Key(slug, key)) && Key(slug, key)[|slug| + 1..] == key
  {
  }

  lemma UnderIsKey(slug: string, full: string)
    requires Under(slug, full)
    ensures full == Key(slug, full[|slug| + 1..])
  {
  }

  /** Two full names under separate slugs never coincide: of two prefixes of one string, one
      begins the other. */
  lemma Apart(a: string, b: string, full: string)
    requires Separate(a, b) && Under(a, full)
    ensures !Under(b, full)
  {
  }

  /** Clearing one engine can touch another's knob exactly when the dotted slug of one begins
      the dotted slug of the other. */
  lemma ClearTouchesWhen(a: string, b: string)
    ensures (exists key: string :: Under(a, Key(b, key))) <==> !Separate(a, b)
  {
    if Separate(a, b) {
      forall key: string
        ensures !Under(a, Key(b, key))
      {
        UnderKey(b, key);
        Apart(b, a, Key(b, key));
      }
    } else if a + "." <= b + "." {
      assert Key(b, "")[..|a| + 1] == a + ".";
      assert Under(a, Key(b, ""));
    } else {
      var key := (a + ".")[|b| + 1..];
      assert Key(b, key) == a + ".";
      assert Under(a, Key(b, key));
    }
  }

  /** Different slugs without dots are separate, even when one begins the other. */
  lemma DotFreeSeparate(a: string, b: string)
    requires DotFree(a) && DotFree(b) && a != b
    ensures Separate(a, b)
  {
    if a + "." <= b + "." {
      NoDottedPrefix(a, b);
    }
    if b + "." <= a + "." {
      NoDottedPrefix(b, a);
    }
  }

  lemma NoDottedPrefix(a: string, b: string)
    requires DotFree(b) && a + "." <= b + "."
    ensures a == b
  {
    assert (b + ".")[|a|] == (a + ".")[|a|] == '.';
    assert (a + ".")[..|a|] == a && (b + ".")[..|b|] == b;
  }

  const ENGINES := ["ng", "ng_fmove", "crudeoilm_band", "crudeoilm_fmove", "banknifty", "goldm", "silverm"]

  lemma EnginesSeparate(i: nat, j: nat)
    requires i < |ENGINES| && j < |ENGINES| && i != j
    ensures Separate(ENGINES[i], ENGINES[j])
  {
    assert ENGINES[i] != ENGINES[j] by {
      assert |ENGINES[0]| == 2 && |ENGINES[1]| == 8 && |ENGINES[2]| == 14 && |ENGINES[3]| == 15 && |ENGINES[4]| == 9;
      assert |ENGINES[5]| == 5 && |ENGINES[6]| == 7;
    }
    DotFreeSeparate(ENGINES[i], ENGINES[j]);
  }

  lemma EngineHas(s: Store, slug: string, key: string)
    ensures key in EngineOf(s, slug) <==> Key(slug, key) in s
    ensures key in EngineOf(s, slug) ==> EngineOf(s, slug)[key] == s[Key(slug, key)]
  {
    UnderKey(slug, key);
    forall full | full in s && Under(slug, full) && full[|slug| + 1..] == key
      ensures full == Key(slug, key)
    {
      UnderIsKey(slug, full);
    }
  }

  lemma PutOwn(s: Store, slug: string, key: string, value: Option<real>)
    ensures EngineOf(Put(s, slug, key, value), slug) ==
            if value.Some? then EngineOf(s, slug)[key := value.value] else EngineOf(s, slug) - {key}
  {
    var t := Put(s, slug, key, value);
    UnderKey(slug, key);
    forall k: string
      ensures k in EngineOf(t, slug) <==> (if k == key then value.Some? else k in EngineOf(s, slug))
      ensures k in EngineOf(t, slug) ==> EngineOf(t, slug)[k] == if k == key then value.value else EngineOf(s, slug)[k]
    {
      EngineHas(t, slug, k);
      EngineHas(s, slug, k);
      UnderKey(slug, k);
    }
  }

  /** Editing a knob edits that engine's store only. */
  lemma PutRefines(s: Store, slug: string, key: string, value: Option<real>, other: string)
    ensures EngineOf(Put(s, slug, key, value), slug) ==
            if value.Some? then EngineOf(s, slug)[key := value.value] else EngineOf(s, slug) - {key}
    ensures Separate(slug, other) ==> EngineOf(Put(s, slug, key, value), other) == EngineOf(s, other)
  {
    PutOwn(s, slug, key, value);
    if Separate(slug, other) {
      UnderKey(slug, key);
      Apart(slug, other, Key(slug, key));
      SameElsewhere(s, Put(s, slug, key, value), other);
    }
  }

  lemma SameElsewhere(s: Store, t: Store, other: string)
    requires forall full :: Under(other, full) ==> Lookup(t, full) == Lookup(s, full)
    ensures EngineOf(t, other) == EngineOf(s, other)
  {
  }

  /** Resetting an engine empties its store and no other. */
  lemma ClearRefines(s: Store, slug: string, other: string)
    ensures EngineOf(Cleared(s, slug), slug) == map[]
    ensures Separate(slug, other) ==> EngineOf(Cleared(s, slug), other) == EngineOf(s, other)
  {
  }

  // ---- Clamping ----

  datatype Kind = Float | Int

  datatype Tunable = Tunable(kind: Kind, lo: real, hi: real) {
    ghost predicate Valid() { lo <= hi }
  }

  function Clamp(t: Tunable, raw: real): real {
    Max(t.lo, Min(t.hi, raw))
  }

  function Coerce(t: Tunable, raw: real): real {
    if t.kind == Int then Round(Clamp(t, raw)) as real else Clamp(t, raw)
  }

  /** Rounding an in-range value of an integer knob cannot leave the range. */
  predicate RoundsInside(t: Tunable) {
    t.kind == Int ==> t.lo <= Round(t.lo) as real && Round(t.hi) as real <= t.hi
  }

  predicate Bounded(t: Tunable, raw: real) {
    t.lo <= Coerce(t, raw) <= t.hi
  }

  /** Every value a knob takes is inside its bounds exactly when its bounds round inward, as
      whole-number bounds do. */
  lemma BoundedWhen(t: Tunable)
    requires t.Valid()
    ensures (forall raw :: Bounded(t, raw)) <==> RoundsInside(t)
    ensures t.lo == Round(t.lo) as real && t.hi == Round(t.hi) as real ==> RoundsInside(t)
  {
    if RoundsInside(t) {
      forall raw
        ensures Bounded(t, raw)
      {
        CoerceBounded(t, raw);
      }
    } else {
      assert Clamp(t, t.lo) == t.lo && Clamp(t, t.hi) == t.hi;
      assert !Bounded(t, t.lo) || !Bounded(t, t.hi);
    }
  }

  lemma CoerceBounded(t: Tunable, raw: real)
    requires t.Valid() && RoundsInside(t)
    ensures Bounded(t, raw)
  {
    RoundMonotone(t.lo, Clamp(t, raw));
    RoundMonotone(Clamp(t, raw), t.hi);
  }

  /** Clamping what is already clamped changes nothing, so stored and displayed values agree. */
  lemma CoerceTwice(t: Tunable, raw: real)
    requires t.Valid() && RoundsInside(t)
    ensures Coerce(t, Coerce(t, raw)) == Coerce(t, raw)
  {
    CoerceBounded(t, raw);
  }

  // ---- Whole histories of edits ----

  datatype Op = Assign(slug: string, key: string, value: Option<real>) | Reset(slug: string) | ResetAll

  function Apply(s: Store, op: Op): Store {
    match op
    case Assign(slug, key, value) => Put(s, slug, key, value)
    case Reset(slug) => Cleared(s, slug)
    case ResetAll => map[]
  }

  function After(ops: seq<Op>): Store {
    if ops == [] then map[] else Apply(After(ops[..|ops| - 1]), ops[|ops| - 1])
  }

  /** The last edit of a knob that no later reset of its engine undid. */
  function LastEdit(ops: seq<Op>, slug: string, key: string): Option<real> {
    if ops == [] then None
    else match ops[|ops| - 1]
      case Assign(s, k, value) => if s == slug && k == key then value else LastEdit(ops[..|ops| - 1], slug, key)
      case Reset(s) => if s == slug then None else LastEdit(ops[..|ops| - 1], slug, key)
      case ResetAll => None
  }

  predicate Uses(op: Op, slug: string) {
    op != ResetAll ==> op.slug == slug || Separate(op.slug, slug)
  }

  /** What any history of edits and resets leaves for a knob. */
  lemma {:induction false} StoreHoldsLastEdit(ops: seq<Op>, slug: string, key: string)
    requires forall i :: 0 <= i < |ops| ==> Uses(ops[i], slug)
    ensures Lookup(After(ops), Key(slug, key)) == LastEdit(ops, slug, key)
  {
    if ops != [] {
      var init, op := ops[..|ops| - 1], ops[|ops| - 1];
      StoreHoldsLastEdit(init, slug, key);
      assert Uses(op, slug);
      UnderKey(slug, key);
      match op
      case Assign(s, k, value) =>
        UnderKey(s, k);
        if s != slug { Apart(slug, s, Key(slug, key)); }
      case Reset(s) =>
        if s != slug { Apart(slug, s, Key(slug, key)); }
      case ResetAll =>
    }
  }

  function Effective(s: Store, t: Tunable, slug: string, key: string, envDefault: real): real {
    var o := Lookup(s, Key(slug, key));
    Coerce(t, if o.Some? then o.value else envDefault)
  }

  /** So every threshold an engine reads is the clamp of its last uncleared override, or else of
      its default, and is within its bounds. */
  lemma EffectiveIs(ops: seq<Op>, t: Tunable, slug: string, key: string, envDefault: real)
    requires t.Valid() && RoundsInside(t) && forall i :: 0 <= i < |ops| ==> Uses(ops[i], slug)
    ensures var o := LastEdit(ops, slug, key);
            Effective(After(ops), t, slug, key, envDefault) == Coerce(t, if o.Some? then o.value else envDefault)
    ensures t.lo <= Effective(After(ops), t, slug, key, envDefault) <= t.hi
  {
    StoreHoldsLastEdit(ops, slug, key);
    var o := Lookup(After(ops), Key(slug, key));
    CoerceBounded(t, if o.Some? then o.value else envDefault);
  }

  /** The control form: a value equal to the default clears the override instead of pinning it. */
  function Posted(s: Store, t: Tunable, slug: string, key: string, envDefault: real, raw: real): Store {
    var v := Coerce(t, raw);
    Put(s, slug, key, if v == Coerce(t, envDefault) then None else Some(v))
  }

  /** Either way the engine reads the posted value, clamped, and no other knob moves. */
  lemma PostTakesEffect(s: Store, t: Tunable, slug: string, key: string, envDefault: real, raw: real,
                        t': Tunable, slug': string, key': string, envDefault': real)
    requires t.Valid() && RoundsInside(t)
    ensures var s' := Posted(s, t, slug, key, envDefault, raw);
            && Effective(s', t, slug, key, envDefault) == Coerce(t, raw)
            && ((slug' == slug && key' != key) || Separate(slug, slug')
                ==> Effective(s', t', slug', key', envDefault') == Effective(s, t', slug', key', envDefault'))
  {
    CoerceTwice(t, raw);
    UnderKey(slug, key);
    UnderKey(slug', key');
    if Separate(slug, slug') { Apart(slug, slug', Key(slug, key)); }
  }
}
