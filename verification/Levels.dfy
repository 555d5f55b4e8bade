/** Threshold resolution and level computation (src/alerts.rs:48-66, 129-176), against validation. */
module Levels {
  import opened Wrappers
  import opened Plugins
  import opened Configs

  datatype Level = Okay | Careful | Warning | Critical

  function Severity(l: Level): nat {
    match l
    case Okay => 0
    case Careful => 1
    case Warning => 2
    case Critical => 3
  }

  /** Whether `value` breaches one limit; an unset limit is never breached. */
  predicate Breached(value: real, limit: Option<Float>, dir: Direction) {
    limit.Some? && if dir == High then AtMost(limit.value, Finite(value)) else AtMost(Finite(value), limit.value)
  }

  function ComputeLevel(value: real, t: Thresholds, dir: Direction): Level {
    if Breached(value, t.critical, dir) then Critical
    else if Breached(value, t.warning, dir) then Warning
    else if Breached(value, t.careful, dir) then Careful
    else Okay
  }

  function EffectiveGlobal(c: Config, id: PluginId, field: string): Option<Thresholds> {
    var p := Section(c, id);
    if p.Some? && field in p.value.thresholds then Some(p.value.thresholds[field])
    else if c.useBuiltinDefaults then BuiltinThresholds(id, field)
    else None
  }

  /** The override configured for one item, if any. */
  function Override(c: Config, id: PluginId, item: Option<string>, field: string): Option<Thresholds> {
    var p := Section(c, id);
    if p.Some? && item.Some? && item.value in p.value.thresholdsByItem
       && field in p.value.thresholdsByItem[item.value]
    then Some(p.value.thresholdsByItem[item.value][field])
    else None
  }

  function Pick(specific: Option<Thresholds>, global: Option<Thresholds>,
                get: Thresholds -> Option<Float>): Option<Float> {
    if specific.Some? && get(specific.value).Some? then get(specific.value)
    else if global.Some? then get(global.value)
    else None
  }

  predicate NoLimit(t: Thresholds) {
    t.careful.None? && t.warning.None? && t.critical.None?
  }

  /** The limits in force for one field of one item; `None` when there is none. */
  function Resolve(c: Config, id: PluginId, item: Option<string>, field: string): (r: Option<Thresholds>)
    ensures r.Some? ==> !NoLimit(r.value)
  {
    var global := EffectiveGlobal(c, id, field);
    var specific := Override(c, id, item, field);
    var e := Thresholds(
               Pick(specific, global, (t: Thresholds) => t.careful),
               Pick(specific, global, (t: Thresholds) => t.warning),
               Pick(specific, global, (t: Thresholds) => t.critical));
    if NoLimit(e) then None else Some(e)
  }

  // ---------------------------------------------------------------------
  // Validation and resolution agree
  // ---------------------------------------------------------------------

  /** Every ladder that can ever be used at run time is finite and ordered. */
  ghost predicate EveryResolutionSound(c: Config) {
    forall id: PluginId, item: Option<string>, field: string ::
      Resolve(c, id, item, field).Some? ==> SoundLadder(Resolve(c, id, item, field).value)
  }

  lemma FoundIsOrdered(fs: seq<FieldInfo>, field: string)
    requires forall f <- fs :: OrderedDefaults(f)
    ensures Find(fs, field).Some? ==> OrderedDefaults(Find(fs, field).value)
  {
  }

  lemma BuiltinIsSound(id: PluginId, field: string)
    ensures BuiltinThresholds(id, field).Some? ==> SoundLadder(BuiltinThresholds(id, field).value)
  {
    TableIsSound(id);
    FoundIsOrdered(AlertFields(id), field);
  }

  /** What validation lays an override over is what resolution lays it over. */
  lemma SameGlobal(c: Config, id: PluginId, field: string)
    requires Name(id) in c.plugins
    ensures GlobalForSection(c, Name(id), field) == EffectiveGlobal(c, id, field)
  {
    ParseInvertsName(id, Name(id));
  }

  /** Resolution is the merge of validation, with an empty result reported as `None`. */
  lemma ResolveIsMerge(c: Config, id: PluginId, item: Option<string>, field: string)
    ensures var s, g := Override(c, id, item, field), EffectiveGlobal(c, id, field);
            var none := Thresholds(None, None, None);
            var e := Merge(if s.Some? then s.value else none, g);
            Resolve(c, id, item, field) == if NoLimit(e) then None else Some(e)
  {
  }

  lemma ResolutionSound(c: Config, id: PluginId, item: Option<string>, field: string)
    requires Name(id) in c.plugins ==> LaddersSound(c, Name(id))
    ensures Resolve(c, id, item, field).Some? ==> SoundLadder(Resolve(c, id, item, field).value)
  {
    ResolveIsMerge(c, id, item, field);
    BuiltinIsSound(id, field);
    if Override(c, id, item, field).Some? {
      SameGlobal(c, id, field);
      assert ItemSound(c, Name(id), item.value);
      assert OverrideSound(c, Name(id), item.value, field);
    }
  }

  /** A fault in an override alone is still a fault once it is merged. */
  lemma MergeKeepsFaults(specific: Thresholds, global: Option<Thresholds>)
    requires SoundLadder(Merge(specific, global))
    ensures SoundLadder(specific)
  {
  }

  /** If every resolution is sound then no section can be refused for its ladders. */
  lemma NoSpuriousRefusal(c: Config, id: PluginId)
    requires EveryResolutionSound(c) && Name(id) in c.plugins
    ensures LaddersSound(c, Name(id))
  {
    var name := Name(id);
    var p := c.plugins[name];
    forall field <- p.thresholds.Keys ensures SoundLadder(p.thresholds[field]) {
      ResolveIsMerge(c, id, None, field);
      assert Resolve(c, id, None, field).Some? ==> SoundLadder(Resolve(c, id, None, field).value);
    }
    forall item <- p.thresholdsByItem.Keys ensures ItemSound(c, name, item) {
      forall field <- p.thresholdsByItem[item].Keys ensures OverrideSound(c, name, item, field) {
        ResolveIsMerge(c, id, Some(item), field);
        SameGlobal(c, id, field);
        assert Resolve(c, id, Some(item), field).Some? ==> SoundLadder(Resolve(c, id, Some(item), field).value);
        MergeKeepsFaults(p.thresholdsByItem[item][field], GlobalForSection(c, name, field));
      }
    }
  }

  /**
   * Startup validation is exact about ladders: when every section is named after a
   * plugin, it finds no ladder fault exactly when every ladder that can be resolved
   * at run time, for any plugin, item and field, is finite and ordered.
   */
  lemma ValidationIsExact(c: Config)
    requires forall name <- c.plugins.Keys :: ParseName(name).Some?
    ensures (forall name <- c.plugins.Keys :: LaddersSound(c, name)) <==> EveryResolutionSound(c)
  {
    if forall name <- c.plugins.Keys :: LaddersSound(c, name) {
      forall id: PluginId, item: Option<string>, field: string
        ensures Resolve(c, id, item, field).Some? ==> SoundLadder(Resolve(c, id, item, field).value)
      {
        ResolutionSound(c, id, item, field);
      }
    }
    if EveryResolutionSound(c) {
      forall name <- c.plugins.Keys ensures LaddersSound(c, name) {
        ParseInvertsName(ParseName(name).value, name);
        NoSpuriousRefusal(c, ParseName(name).value);
      }
    }
  }

  /** An accepted configuration resolves to nothing or to finite, ordered limits. */
  lemma AcceptedResolvesSound(c: Config, regexOk: string -> bool, id: PluginId, item: Option<string>, field: string)
    requires Accepted(c, regexOk)
    ensures Resolve(c, id, item, field).Some? ==> SoundLadder(Resolve(c, id, item, field).value)
  {
    if Name(id) in c.plugins { assert SectionAccepted(c, Name(id), regexOk); }
    ResolutionSound(c, id, item, field);
  }

  // ---------------------------------------------------------------------
  // What a sound ladder means for levels
  // ---------------------------------------------------------------------

  /** Breaching a limit means breaching every milder limit that is set. */
  ghost predicate Nested(t: Thresholds, dir: Direction) {
    forall value: real ::
      && (Breached(value, t.critical, dir) && t.warning.Some? ==> Breached(value, t.warning, dir))
      && (Breached(value, t.critical, dir) && t.careful.Some? ==> Breached(value, t.careful, dir))
      && (Breached(value, t.warning, dir) && t.careful.Some? ==> Breached(value, t.careful, dir))
  }

  /** With finite limits, rising fields have nested breach sets exactly when the ladder is ordered. */
  lemma NestedExactlyWhenOrdered(t: Thresholds)
    requires FiniteLimit(t.careful) && FiniteLimit(t.warning) && FiniteLimit(t.critical)
    ensures Nested(t, High) <==> SoundLadder(t)
  {
    if Nested(t, High) {
      if t.critical.Some? { assert Breached(t.critical.value.value, t.critical, High); }
      if t.warning.Some? { assert Breached(t.warning.value.value, t.warning, High); }
    }
  }

  /** A rising value never lowers the level, whatever the limits. */
  lemma LevelIsMonotone(t: Thresholds, low: real, high: real)
    requires low <= high
    ensures Severity(ComputeLevel(low, t, High)) <= Severity(ComputeLevel(high, t, High))
  {
  }

  /** The level is the number of limits breached, when all three are set and ordered. */
  lemma LevelCountsBreaches(t: Thresholds, value: real)
    requires SoundLadder(t) && t.careful.Some? && t.warning.Some? && t.critical.Some?
    ensures Severity(ComputeLevel(value, t, High))
         == (if Breached(value, t.careful, High) then 1 else 0)
          + (if Breached(value, t.warning, High) then 1 else 0)
          + (if Breached(value, t.critical, High) then 1 else 0)
  {
  }

  /** In an accepted configuration, every watched field of every item reacts monotonically. */
  lemma AcceptedLevelsMonotone(c: Config, regexOk: string -> bool, id: PluginId, item: Option<string>,
                               f: FieldInfo, low: real, high: real)
    requires Accepted(c, regexOk) && f in AlertFields(id) && low <= high
    requires Resolve(c, id, item, f.field).Some?
    ensures var t := Resolve(c, id, item, f.field).value;
            && Nested(t, f.direction)
            && Severity(ComputeLevel(low, t, f.direction)) <= Severity(ComputeLevel(high, t, f.direction))
  {
    var t := Resolve(c, id, item, f.field).value;
    TableIsSound(id);
    AcceptedResolvesSound(c, regexOk, id, item, f.field);
    NestedExactlyWhenOrdered(t);
    LevelIsMonotone(t, low, high);
  }

  /** The limit of a ladder whose breach calls for a level. */
  function LimitOf(t: Thresholds, l: Level): Option<Float> {
    match l
    case Okay => None
    case Careful => t.careful
    case Warning => t.warning
    case Critical => t.critical
  }

  /** Among distinct fields, an entry is found under its own name. */
  lemma FoundByName(fs: seq<FieldInfo>, info: FieldInfo)
    requires DistinctFields(fs) && info in fs
    ensures Find(fs, info.field) == Some(info)
  {
    var found := Find(fs, info.field);
    var i :| 0 <= i < |fs| && fs[i] == info;
    var j :| 0 <= j < |fs| && fs[j] == found.value;
  }

  lemma BuiltinOf(id: PluginId, info: FieldInfo)
    requires info in AlertFields(id)
    ensures BuiltinThresholds(id, info.field) ==
            match info.defaults
            case None => None
            case Some(d) => Some(Thresholds(Some(Finite(d.0)), Some(Finite(d.1)), Some(Finite(d.2))))
  {
    TableIsSound(id);
    FoundByName(AlertFields(id), info);
  }

  function RungOf(t: Option<Thresholds>, l: Level): Option<Float> {
    if t.Some? then LimitOf(t.value, l) else None
  }

  lemma ResolvedRung(c: Config, id: PluginId, item: Option<string>, field: string, l: Level)
    ensures var own := RungOf(Override(c, id, item, field), l);
            RungOf(Resolve(c, id, item, field), l) ==
            if own.Some? then own else RungOf(EffectiveGlobal(c, id, field), l)
  {
  }

  /** The limit that the override of one item sets for `l`, if any. */
  function OverridingLimit(c: Config, id: PluginId, item: Option<string>, field: string, l: Level): Option<Float> {
    if item.Some? && Name(id) in c.plugins && item.value in c.plugins[Name(id)].thresholdsByItem
       && field in c.plugins[Name(id)].thresholdsByItem[item.value]
    then LimitOf(c.plugins[Name(id)].thresholdsByItem[item.value][field], l)
    else None
  }

  /**
   * The limit in force for a level of a watched field: what the item's override sets; without that, what the
   * plugin's own block says, be it nothing; and without a block, the built-in limit if those are turned on.
   */
  lemma LimitInForce(c: Config, id: PluginId, item: Option<string>, info: FieldInfo, l: Level)
    requires info in AlertFields(id)
    ensures var found, name, own := Resolve(c, id, item, info.field), Name(id),
                                    OverridingLimit(c, id, item, info.field, l);
            RungOf(found, l) ==
            if own.Some? then own
            else if name in c.plugins && info.field in c.plugins[name].thresholds then
              LimitOf(c.plugins[name].thresholds[info.field], l)
            else if c.useBuiltinDefaults && info.defaults.Some? then
              match l
              case Okay => None
              case Careful => Some(Finite(info.defaults.value.0))
              case Warning => Some(Finite(info.defaults.value.1))
              case Critical => Some(Finite(info.defaults.value.2))
            else None
  {
    ResolvedRung(c, id, item, info.field, l);
    BuiltinOf(id, info);
    assert RungOf(Override(c, id, item, info.field), l) == OverridingLimit(c, id, item, info.field, l);
  }

  /** A ladder is refused as not finite when a limit is infinite or no number, and otherwise for its order. */
  lemma FaultsOfLadder(t: Thresholds)
    ensures CheckThresholdOrder(t) == Some(NotFinite) <==>
            exists l: Level :: LimitOf(t, l).Some? && !LimitOf(t, l).value.Finite?
    ensures CheckThresholdOrder(t) == Some(OutOfOrder) <==>
            && (forall l: Level :: LimitOf(t, l).Some? ==> LimitOf(t, l).value.Finite?)
            && exists l: Level, m: Level :: Severity(l) < Severity(m) && Falls(LimitOf(t, l), LimitOf(t, m))
  {
    assert LimitOf(t, Careful) == t.careful && LimitOf(t, Warning) == t.warning && LimitOf(t, Critical) == t.critical;
  }

  /** Both limits are set, to numbers that fall. */
  predicate Falls(lower: Option<Float>, upper: Option<Float>) {
    && lower.Some? && upper.Some? && lower.value.Finite? && upper.value.Finite?
    && lower.value.value > upper.value.value
  }

  /**
   * In either direction and for any ladder, the level reported is the worst one whose limit is
   * breached, and `Okay` when none is.
   */
  lemma WorstBreachIsReported(t: Thresholds, value: real, dir: Direction, l: Level)
    ensures var reported := ComputeLevel(value, t, dir);
            && (reported != Okay ==> Breached(value, LimitOf(t, reported), dir))
            && (Breached(value, LimitOf(t, l), dir) ==> Severity(l) <= Severity(reported))
  {
  }

  /** The most severe level that has a limit. */
  function TopLevel(t: Thresholds): Level {
    if t.critical.Some? then Critical
    else if t.warning.Some? then Warning
    else if t.careful.Some? then Careful
    else Okay
  }

  /**
   * For a falling field a validated ladder reports one level only, that of its most severe limit: the
   * order that validation imposes makes it the first one crossed. No shipped field is a falling one.
   */
  lemma FallingLadderCollapses(t: Thresholds, value: real)
    requires SoundLadder(t)
    ensures ComputeLevel(value, t, Low) ==
            if Breached(value, LimitOf(t, TopLevel(t)), Low) then TopLevel(t) else Okay
  {
    assert LimitOf(t, Okay).None?;
  }

  /** Falling breach sets nest exactly when the finite limits fall, the reverse of what validation asks. */
  lemma FallingNestedExactlyWhenReversed(t: Thresholds)
    requires FiniteLimit(t.careful) && FiniteLimit(t.warning) && FiniteLimit(t.critical)
    ensures Nested(t, Low) <==> SoundLadder(Thresholds(t.critical, t.warning, t.careful))
  {
    if Nested(t, Low) {
      if t.critical.Some? { assert Breached(t.critical.value.value, t.critical, Low); }
      if t.warning.Some? { assert Breached(t.warning.value.value, t.warning, Low); }
    }
  }

  /** At the validated ladder 10, 20, 30, a falling value of 25 breaches `critical` and nothing milder. */
  lemma FallingNestingFails()
    ensures var t := Thresholds(Some(Finite(10.0)), Some(Finite(20.0)), Some(Finite(30.0)));
            && SoundLadder(t) && !Nested(t, Low)
            && Breached(25.0, t.critical, Low) && !Breached(25.0, t.warning, Low) && !Breached(25.0, t.careful, Low)
            && ComputeLevel(25.0, t, Low) == Critical
  {
    var t := Thresholds(Some(Finite(10.0)), Some(Finite(20.0)), Some(Finite(30.0)));
    FallingNestedExactlyWhenReversed(t);
  }
}
