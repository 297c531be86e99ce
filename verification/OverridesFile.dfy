/** Saving the runtime overrides and restoring them after a restart (app/state.py). */
module OverridesFile {
  datatype Name =
    | TradeMode | StockMode | PaperMode | MaxLots | MaxDailyLoss | SlPct | RrRatio | DailyProfitTarget
    | SellOptionsProfitPct | EntryWindowStart | EntryWindowEnd | NoEntryOnExpiryDay | TrailingSlEnabled
    | WindowStraddleEnabled | NgHedgeEnabled | CrudeHedgeEnabled | CrudeoilmFmoveHedgeEnabled
    | NgFmoveHedgeEnabled | SilvermHedgeEnabled | StraddleDefenseEnabled | StraddleDefenseMode
    | PartialBookingEnabled | EntryWingsEnabled | EmaAnalyzerEnabled | EmaAnalyzerUnderlyings
    | MaxTradesPerDay | MaxOpenPositions | CapitalPerTrade | ConsecutiveLossesLimit | AdxThreshold
    | OrderflowEnabled | OrderflowSymbols | HedgeTunables

  datatype Value = Null | Flag(b: bool) | Number(r: real) | Text(s: string) | Strings(xs: seq<string>) | Table(t: map<string, Value>)

  /** The fields written to the file. */
  const SAVED: set<Name> := {
    TradeMode, StockMode, PaperMode, MaxLots, MaxDailyLoss, SlPct, RrRatio, DailyProfitTarget,
    SellOptionsProfitPct, EntryWindowStart, EntryWindowEnd, NoEntryOnExpiryDay, TrailingSlEnabled,
    WindowStraddleEnabled, NgHedgeEnabled, CrudeHedgeEnabled, CrudeoilmFmoveHedgeEnabled,
    SilvermHedgeEnabled, StraddleDefenseEnabled, StraddleDefenseMode,
    PartialBookingEnabled, EntryWingsEnabled, EmaAnalyzerEnabled, EmaAnalyzerUnderlyings,
    MaxTradesPerDay, MaxOpenPositions, CapitalPerTrade, ConsecutiveLossesLimit, AdxThreshold,
    OrderflowEnabled, OrderflowSymbols, HedgeTunables
  }

  type Settings = Name -> Value

  function Save(s: Settings): map<Name, Value> {
    map n | n in SAVED :: s(n)
  }

  /** Only numbers survive in the threshold table. */
  function Numbers(t: map<string, Value>): map<string, Value> {
    map k | k in t && t[k].Number? :: t[k]
  }

  function Restored(n: Name, stored: Value, current: Value): Value {
    match n
    case TradeMode | StockMode => if stored.Text? && stored.s != "" then stored else current
    case OrderflowSymbols => if stored.Strings? then stored else current
    case HedgeTunables => if stored.Table? then Table(Numbers(stored.t)) else current
    case _ => stored
  }

  function Load(file: map<Name, Value>, current: Settings): Settings {
    (n: Name) => if n in file then Restored(n, file[n], current(n)) else current(n)
  }

  predicate Mode(v: Value) {
    v.Text? && |v.s| >= 1
  }

  /** Whatever the file holds: a name it lacks keeps its value, a mode stays a mode, the symbols stay a
      list, and of a threshold table exactly the numbers come through. */
  lemma LoadsSafely(file: map<Name, Value>, current: Settings, n: Name)
    ensures n !in file ==> Load(file, current)(n) == current(n)
    ensures n in {TradeMode, StockMode} ==>
              Load(file, current)(n) == if n in file && Mode(file[n]) then file[n] else current(n)
    ensures n == OrderflowSymbols && current(n).Strings? ==> Load(file, current)(n).Strings?
    ensures n == HedgeTunables && n in file && file[n].Table? ==>
              && Load(file, current)(n).Table?
              && forall k, v :: (k in Load(file, current)(n).t && Load(file, current)(n).t[k] == v) <==> k in file[n].t && file[n].t[k] == v && v.Number?
    ensures n == HedgeTunables && n in file && !file[n].Table? ==> Load(file, current)(n) == current(n)
    ensures n in file && n !in {TradeMode, StockMode, OrderflowSymbols, HedgeTunables} ==> Load(file, current)(n) == file[n]
  {
  }

  /** The values the setters can leave: modes are names, the symbol list a list or unset, the
      threshold table a table of numbers; unset lists are unset at start too. */
  ghost predicate Proper(s: Settings, start: Settings) {
    && s(TradeMode).Text? && s(TradeMode).s != ""
    && s(StockMode).Text? && s(StockMode).s != ""
    && (s(OrderflowSymbols).Strings? || s(OrderflowSymbols) == start(OrderflowSymbols))
    && s(HedgeTunables).Table? && (forall k :: k in s(HedgeTunables).t ==> s(HedgeTunables).t[k].Number?)
  }

  ghost predicate Survives(s: Settings, start: Settings, n: Name) {
    Load(Save(s), start)(n) == s(n)
  }

  lemma SavedUnless(n: Name)
    ensures n in SAVED <==> n != NgFmoveHedgeEnabled
  {
  }

  lemma AllButOneSurvive(s: Settings, start: Settings, n: Name)
    requires Proper(s, start) && n != NgFmoveHedgeEnabled
    ensures Survives(s, start, n)
  {
    SavedUnless(n);
    if n == HedgeTunables {
      assert Numbers(s(n).t) == s(n).t;
    }
  }

  /** A restart restores every override exactly when the NATURALGAS F-move switch was left as it
      starts: that one is read back but never written. */
  lemma RestartRestoresWhen(s: Settings, start: Settings)
    requires Proper(s, start)
    ensures (forall n :: Survives(s, start, n)) <==> s(NgFmoveHedgeEnabled) == start(NgFmoveHedgeEnabled)
  {
    assert NgFmoveHedgeEnabled !in SAVED;
    assert Survives(s, start, NgFmoveHedgeEnabled) <==> s(NgFmoveHedgeEnabled) == start(NgFmoveHedgeEnabled);
    forall n: Name | n != NgFmoveHedgeEnabled
      ensures Survives(s, start, n)
    {
      AllButOneSurvive(s, start, n);
    }
  }
}
