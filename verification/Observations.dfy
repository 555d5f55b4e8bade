/** What one cycle computes from its payload: `_levels` and the readings (src/alerts.rs:254-354, 377-426). */
module Observations {
  import opened Wrappers
  import opened Plugins
  import opened Configs
  import opened Levels
  import opened Json
  import opened Engine
  import opened Rounding
  import Timestamp

  /** One computed level, with the raw value that an event would carry. */
  datatype Reading = Reading(item: Option<string>, info: FieldInfo, level: Level, raw: real)

  function EffectiveMinDuration(c: Config, id: PluginId): nat {
    var p := Section(c, id);
    Nanos(if p.Some? && p.value.minDuration.Some? then p.value.minDuration.value else c.minDuration)
  }

  function PolicyOf(c: Config, hostname: string): Policy {
    Policy(id => RefreshFor(c, id), id => EffectiveMinDuration(c, id), c.historySize, hostname, Timestamp.Iso8601)
  }

  /** The level of one field, or `None` when it has no value, no limit or no usable divisor. */
  function LevelFor(c: Config, id: PluginId, item: Option<string>, info: FieldInfo,
                    stats: Value): Option<(Level, real)> {
    var raw := GetNumber(stats, info.field);
    var limits := Resolve(c, id, item, info.field);
    if raw.None? || limits.None? then None
    else if info.normalizeBy.None? then
      Some((ComputeLevel(raw.value, limits.value, info.direction), raw.value))
    else
      var divisor := GetNumber(stats, info.normalizeBy.value);
      if divisor.None? || divisor.value == 0.0 then None
      else Some((ComputeLevel(raw.value / divisor.value, limits.value, info.direction), raw.value))
  }

  function LevelText(l: Level): string {
    match l
    case Okay => "ok"
    case Careful => "careful"
    case Warning => "warning"
    case Critical => "critical"
  }

  function LevelEntry(l: Level, prominent: bool): Value {
    Obj(map["level" := Str(LevelText(l)), "prominent" := Bool(prominent)])
  }

  /** The string form of a primary-key value. */
  function KeyText(v: Value): Option<string> {
    match v
    case Str(s) => Some(s)
    case Num(_, text) => Some(text)
    case _ => None
  }

  function ItemKey(item: Value, pk: string): Option<string> {
    match Get(item, pk)
    case Some(v) => KeyText(v)
    case None => None
  }

  function ItemsOf(payload: Value): seq<Value> {
    match Get(payload, "data")
    case Some(Arr(items)) => items
    case _ => []
  }

  // ---------------------------------------------------------------------
  // Specification
  // ---------------------------------------------------------------------

  function WithReading(rs: seq<Reading>, item: Option<string>, info: FieldInfo,
                       r: Option<(Level, real)>): seq<Reading> {
    if r.Some? then rs + [Reading(item, info, r.value.0, r.value.1)] else rs
  }

  function WithLevel(levels: map<string, Value>, info: FieldInfo, r: Option<(Level, real)>): map<string, Value> {
    if r.Some? then levels[info.field := LevelEntry(r.value.0, info.prominent)] else levels
  }

  function FieldReadings(c: Config, id: PluginId, item: Option<string>, fs: seq<FieldInfo>,
                         stats: Value): seq<Reading> {
    if fs == [] then []
    else
      var last := fs[|fs| - 1];
      WithReading(FieldReadings(c, id, item, fs[..|fs| - 1], stats), item, last, LevelFor(c, id, item, last, stats))
  }

  function FieldLevels(c: Config, id: PluginId, item: Option<string>, fs: seq<FieldInfo>,
                       stats: Value): map<string, Value> {
    if fs == [] then map[]
    else
      var last := fs[|fs| - 1];
      WithLevel(FieldLevels(c, id, item, fs[..|fs| - 1], stats), last, LevelFor(c, id, item, last, stats))
  }

  function LiveKeys(pk: string, items: seq<Value>): set<string> {
    set i | 0 <= i < |items| && ItemKey(items[i], pk).Some? :: ItemKey(items[i], pk).value
  }

  function CollectionReadings(c: Config, id: PluginId, pk: string, fs: seq<FieldInfo>,
                              items: seq<Value>): seq<Reading> {
    if items == [] then []
    else
      var last := items[|items| - 1];
      var key := ItemKey(last, pk);
      CollectionReadings(c, id, pk, fs, items[..|items| - 1])
      + if key.Some? then FieldReadings(c, id, key, fs, last) else []
  }

  /** An item without levels leaves no entry. */
  function WithItem(before: map<string, Value>, key: Option<string>, levels: map<string, Value>): map<string, Value> {
    if key.None? || levels == map[] then before else before[key.value := Obj(levels)]
  }

  function CollectionLevels(c: Config, id: PluginId, pk: string, fs: seq<FieldInfo>,
                            items: seq<Value>): map<string, Value> {
    if items == [] then map[]
    else
      var last := items[|items| - 1];
      var key := ItemKey(last, pk);
      WithItem(CollectionLevels(c, id, pk, fs, items[..|items| - 1]), key,
               if key.Some? then FieldLevels(c, id, key, fs, last) else map[])
  }

  /** The `_levels` of a payload: a function of the configuration and the payload alone. */
  function LevelsOf(c: Config, id: PluginId, fs: seq<FieldInfo>, payload: Value): map<string, Value> {
    match KeyField(id)
    case None => FieldLevels(c, id, None, fs, payload)
    case Some(pk) => CollectionLevels(c, id, pk, fs, ItemsOf(payload))
  }

  function ReadingsOf(c: Config, id: PluginId, fs: seq<FieldInfo>, payload: Value): seq<Reading> {
    match KeyField(id)
    case None => FieldReadings(c, id, None, fs, payload)
    case Some(pk) => CollectionReadings(c, id, pk, fs, ItemsOf(payload))
  }

  function LiveOf(id: PluginId, payload: Value): Option<set<string>> {
    match KeyField(id)
    case None => None
    case Some(pk) => Some(LiveKeys(pk, ItemsOf(payload)))
  }

  function ToSample(id: PluginId, r: Reading, now: int, wall: int): Micro {
    Sample(Key(id, r.item, r.info.field), r.level, r.raw, r.info.prominent, now, wall)
  }

  function Samples(id: PluginId, rs: seq<Reading>, now: int, wall: int): seq<Micro> {
    seq(|rs|, i requires 0 <= i < |rs| => ToSample(id, rs[i], now, wall))
  }

  /** One whole cycle of `observe`, past its early return. */
  function Cycle(c: Config, id: PluginId, fs: seq<FieldInfo>, payload: Value, now: int, wall: int): seq<Micro> {
    [Tick(id, now, LiveOf(id, payload))] + Samples(id, ReadingsOf(c, id, fs, payload), now, wall)
  }

  // ---------------------------------------------------------------------
  // The loops of the code
  // ---------------------------------------------------------------------

  /** What the next field adds to the readings. */
  lemma ReadingStep(c: Config, id: PluginId, item: Option<string>, fs: seq<FieldInfo>, stats: Value, i: nat)
    requires i < |fs|
    ensures FieldReadings(c, id, item, fs[..i + 1], stats) ==
            WithReading(FieldReadings(c, id, item, fs[..i], stats), item, fs[i], LevelFor(c, id, item, fs[i], stats))
  {
    assert fs[..i + 1][..i] == fs[..i];
  }

  /** What the next field adds to the levels. */
  lemma LevelStep(c: Config, id: PluginId, item: Option<string>, fs: seq<FieldInfo>, stats: Value, i: nat)
    requires i < |fs|
    ensures FieldLevels(c, id, item, fs[..i + 1], stats) ==
            WithLevel(FieldLevels(c, id, item, fs[..i], stats), fs[i], LevelFor(c, id, item, fs[i], stats))
  {
    assert fs[..i + 1][..i] == fs[..i];
  }

  /** What the next item adds. */
  lemma ItemStep(c: Config, id: PluginId, pk: string, fs: seq<FieldInfo>, items: seq<Value>, i: nat)
    requires i < |items|
    ensures var key := ItemKey(items[i], pk);
            && CollectionReadings(c, id, pk, fs, items[..i + 1])
               == CollectionReadings(c, id, pk, fs, items[..i])
                  + (if key.Some? then FieldReadings(c, id, key, fs, items[i]) else [])
            && CollectionLevels(c, id, pk, fs, items[..i + 1])
               == WithItem(CollectionLevels(c, id, pk, fs, items[..i]), key,
                           if key.Some? then FieldLevels(c, id, key, fs, items[i]) else map[])
  {
    var prefix := items[..i + 1];
    assert prefix[..|prefix| - 1] == items[..i] && prefix[|prefix| - 1] == items[i];
  }

  method ReadFields(c: Config, id: PluginId, item: Option<string>, fs: seq<FieldInfo>, stats: Value)
    returns (levels: map<string, Value>, readings: seq<Reading>)
    ensures levels == FieldLevels(c, id, item, fs, stats)
    ensures readings == FieldReadings(c, id, item, fs, stats)
  {
    levels, readings := map[], [];
    for i := 0 to |fs|
      invariant levels == FieldLevels(c, id, item, fs[..i], stats)
      invariant readings == FieldReadings(c, id, item, fs[..i], stats)
    {
      ReadingStep(c, id, item, fs, stats, i);
      LevelStep(c, id, item, fs, stats, i);
      var r := LevelFor(c, id, item, fs[i], stats);
      if r.Some? {
        levels := levels[fs[i].field := LevelEntry(r.value.0, fs[i].prominent)];
        readings := readings + [Reading(item, fs[i], r.value.0, r.value.1)];
      }
    }
    assert fs[..|fs|] == fs;
  }

  method ReadItems(c: Config, id: PluginId, pk: string, fs: seq<FieldInfo>, items: seq<Value>)
    returns (levels: map<string, Value>, readings: seq<Reading>, live: seq<string>)
    ensures levels == CollectionLevels(c, id, pk, fs, items)
    ensures readings == CollectionReadings(c, id, pk, fs, items)
    ensures (set k | k in live) == LiveKeys(pk, items)
  {
    levels, readings, live := map[], [], [];
    for i := 0 to |items|
      invariant levels == CollectionLevels(c, id, pk, fs, items[..i])
      invariant readings == CollectionReadings(c, id, pk, fs, items[..i])
      invariant (set k | k in live) == LiveKeys(pk, items[..i])
    {
      ItemStep(c, id, pk, fs, items, i);
      LiveKeysStep(pk, items, i);
      var key := ItemKey(items[i], pk);
      if key.Some? {
        live := live + [key.value];
        var fieldLevels, fieldReadings := ReadFields(c, id, key, fs, items[i]);
        readings := readings + fieldReadings;
        if fieldLevels != map[] { levels := levels[key.value := Obj(fieldLevels)]; }
      }
    }
    assert items[..|items|] == items;
  }

  method ReadPayload(c: Config, id: PluginId, fs: seq<FieldInfo>, payload: Value)
    returns (levels: map<string, Value>, readings: seq<Reading>, live: Option<seq<string>>)
    ensures levels == LevelsOf(c, id, fs, payload)
    ensures readings == ReadingsOf(c, id, fs, payload)
    ensures LiveOf(id, payload) == if live.Some? then Some(set k | k in live.value) else None
  {
    match KeyField(id)
    case None =>
      levels, readings := ReadFields(c, id, None, fs, payload);
      live := None;
    case Some(pk) =>
      var keys;
      levels, readings, keys := ReadItems(c, id, pk, fs, ItemsOf(payload));
      live := Some(keys);
  }

  lemma LiveKeysStep(pk: string, items: seq<Value>, i: nat)
    requires i < |items|
    ensures var key := ItemKey(items[i], pk);
            LiveKeys(pk, items[..i + 1]) == LiveKeys(pk, items[..i]) + if key.Some? then {key.value} else {}
  {
    var longer, shorter := items[..i + 1], items[..i];
    forall k | k in LiveKeys(pk, shorter) ensures k in LiveKeys(pk, longer) {
      var j :| 0 <= j < i && ItemKey(shorter[j], pk) == Some(k);
      assert ItemKey(longer[j], pk) == Some(k);
    }
    forall k | k in LiveKeys(pk, longer) && ItemKey(items[i], pk) != Some(k) ensures k in LiveKeys(pk, shorter) {
      var j :| 0 <= j <= i && ItemKey(longer[j], pk) == Some(k);
      assert ItemKey(shorter[j], pk) == Some(k);
    }
    assert longer[i] == items[i];
  }

  // ---------------------------------------------------------------------
  // What the levels mean
  // ---------------------------------------------------------------------

  /** A value, some limit and, where one is asked for, a divisor other than zero. */
  predicate Observes(c: Config, id: PluginId, item: Option<string>, info: FieldInfo, stats: Value) {
    && GetNumber(stats, info.field).Some? && Resolve(c, id, item, info.field).Some?
    && (info.normalizeBy.Some? ==>
          GetNumber(stats, info.normalizeBy.value).Some? && GetNumber(stats, info.normalizeBy.value) != Some(0.0))
  }

  lemma LevelMissingExactly(c: Config, id: PluginId, item: Option<string>, info: FieldInfo, stats: Value)
    ensures LevelFor(c, id, item, info, stats).Some? <==> Observes(c, id, item, info, stats)
  {
  }

  /** `value` breaches a limit that is set, taken `scale` times; a negative scale turns it round. */
  predicate Reaches(value: real, limit: Option<Float>, scale: real, dir: Direction) {
    && limit.Some?
    && if limit.value.Finite? then
         if (dir == High) == (scale > 0.0) then value >= limit.value.value * scale
         else value <= limit.value.value * scale
       else Breached(value, limit, dir)
  }

  lemma ReachesExactly(value: real, limit: Option<Float>, scale: real, dir: Direction)
    requires scale != 0.0
    ensures Breached(value / scale, limit, dir) <==> Reaches(value, limit, scale, dir)
  {
    if limit.Some? && limit.value.Finite? { QuotientCompares(value, scale, limit.value.value); }
  }

  /** The first level, from the worst down, whose limit is reached. */
  function FirstReached(raw: real, t: Thresholds, scale: real, dir: Direction): Level {
    if Reaches(raw, t.critical, scale, dir) then Critical
    else if Reaches(raw, t.warning, scale, dir) then Warning
    else if Reaches(raw, t.careful, scale, dir) then Careful
    else Okay
  }

  /**
   * A normalised field compares its raw value with the limits taken as many times as the divisor says
   * (cores, link capacity), and the raw value is what an event carries.
   */
  lemma NormalisedLevel(c: Config, id: PluginId, item: Option<string>, info: FieldInfo, stats: Value)
    requires info.normalizeBy.Some? && Observes(c, id, item, info, stats)
    ensures var raw, d := GetNumber(stats, info.field).value, GetNumber(stats, info.normalizeBy.value).value;
            var t, dir := Resolve(c, id, item, info.field).value, info.direction;
            LevelFor(c, id, item, info, stats) ==
            Some((FirstReached(raw, t, d, dir), raw))
  {
    var raw, d := GetNumber(stats, info.field).value, GetNumber(stats, info.normalizeBy.value).value;
    var t, dir := Resolve(c, id, item, info.field).value, info.direction;
    ReachesExactly(raw, t.critical, d, dir);
    ReachesExactly(raw, t.warning, d, dir);
    ReachesExactly(raw, t.careful, d, dir);
  }

  lemma ReachesUnscaled(value: real, limit: Option<Float>, dir: Direction)
    ensures Breached(value, limit, dir) <==> Reaches(value, limit, 1.0, dir)
  {
    if limit.Some? && limit.value.Finite? { assert limit.value.value * 1.0 == limit.value.value; }
  }

  /** A field without divisor compares its raw value with the limits as they are. */
  lemma PlainLevel(c: Config, id: PluginId, item: Option<string>, info: FieldInfo, stats: Value)
    requires info.normalizeBy.None? && Observes(c, id, item, info, stats)
    ensures var raw := GetNumber(stats, info.field).value;
            var t, dir := Resolve(c, id, item, info.field).value, info.direction;
            LevelFor(c, id, item, info, stats) ==
            Some((FirstReached(raw, t, 1.0, dir), raw))
  {
    var raw, t, dir := GetNumber(stats, info.field).value, Resolve(c, id, item, info.field).value, info.direction;
    ReachesUnscaled(raw, t.critical, dir);
    ReachesUnscaled(raw, t.warning, dir);
    ReachesUnscaled(raw, t.careful, dir);
  }

  /** How many times its limits a field is compared with: once, or as often as its divisor says. */
  function ScaleOf(info: FieldInfo, stats: Value): Option<real> {
    match info.normalizeBy
    case None => Some(1.0)
    case Some(divisor) => if GetNumber(stats, divisor) == Some(0.0) then None else GetNumber(stats, divisor)
  }

  /** `level` is the worst one whose limit `raw` reaches, and `Okay` when it reaches none. */
  predicate WorstReached(raw: real, t: Thresholds, scale: real, dir: Direction, level: Level) {
    && (level != Okay ==> Reaches(raw, LimitOf(t, level), scale, dir))
    && forall l: Level :: Reaches(raw, LimitOf(t, l), scale, dir) ==> Severity(l) <= Severity(level)
  }

  /** A field of `stats` has the number `raw`, which calls for `level`. */
  predicate Merits(c: Config, id: PluginId, item: Option<string>, info: FieldInfo, stats: Value, level: Level,
                   raw: real) {
    var t, scale := Resolve(c, id, item, info.field), ScaleOf(info, stats);
    GetNumber(stats, info.field) == Some(raw) && t.Some? && scale.Some?
    && WorstReached(raw, t.value, scale.value, info.direction, level)
  }

  lemma WorstIsFirst(raw: real, t: Thresholds, scale: real, dir: Direction, level: Level)
    ensures WorstReached(raw, t, scale, dir, level) <==> level == FirstReached(raw, t, scale, dir)
  {
    assert LimitOf(t, Critical) == t.critical && LimitOf(t, Warning) == t.warning && LimitOf(t, Careful) == t.careful;
    assert LimitOf(t, Okay).None?;
  }

  lemma ScaledLevel(c: Config, id: PluginId, item: Option<string>, info: FieldInfo, stats: Value)
    requires Observes(c, id, item, info, stats)
    ensures ScaleOf(info, stats).Some?
    ensures var raw, t := GetNumber(stats, info.field).value, Resolve(c, id, item, info.field).value;
            LevelFor(c, id, item, info, stats) ==
            Some((FirstReached(raw, t, ScaleOf(info, stats).value, info.direction), raw))
  {
    if info.normalizeBy.None? {
      PlainLevel(c, id, item, info, stats);
    } else {
      NormalisedLevel(c, id, item, info, stats);
    }
  }

  lemma MeritsObserved(c: Config, id: PluginId, item: Option<string>, info: FieldInfo, stats: Value, level: Level,
                       raw: real)
    ensures Merits(c, id, item, info, stats, level, raw) <==>
            && Observes(c, id, item, info, stats) && GetNumber(stats, info.field).value == raw
            && WorstReached(raw, Resolve(c, id, item, info.field).value, ScaleOf(info, stats).value, info.direction,
                            level)
  {
  }

  /** The level computed for a field is the worst one whose limit its raw value reaches, and no other. */
  lemma LevelIsMerited(c: Config, id: PluginId, item: Option<string>, info: FieldInfo, stats: Value, level: Level,
                       raw: real)
    ensures LevelFor(c, id, item, info, stats) == Some((level, raw)) <==> Merits(c, id, item, info, stats, level, raw)
  {
    MeritsObserved(c, id, item, info, stats, level, raw);
    if Observes(c, id, item, info, stats) {
      var value, t := GetNumber(stats, info.field).value, Resolve(c, id, item, info.field).value;
      ScaledLevel(c, id, item, info, stats);
      WorstIsFirst(value, t, ScaleOf(info, stats).value, info.direction, level);
    } else {
      LevelMissingExactly(c, id, item, info, stats);
    }
  }

  /** A watched field of `stats` has the level and the raw value that `r` tells. */
  predicate Shows(c: Config, id: PluginId, fs: seq<FieldInfo>, stats: Value, r: Reading) {
    r.info in fs && Merits(c, id, r.item, r.info, stats, r.level, r.raw)
  }

  lemma ShowsStep(c: Config, id: PluginId, fs: seq<FieldInfo>, stats: Value, r: Reading)
    requires fs != []
    ensures var n := |fs| - 1;
            Shows(c, id, fs, stats, r) <==>
            || Shows(c, id, fs[..n], stats, r)
            || (r.info == fs[n] && LevelFor(c, id, r.item, fs[n], stats) == Some((r.level, r.raw)))
  {
    assert fs == fs[..|fs| - 1] + [fs[|fs| - 1]];
    LevelIsMerited(c, id, r.item, r.info, stats, r.level, r.raw);
  }

  lemma {:induction false} FieldReadingsMeaning(c: Config, id: PluginId, item: Option<string>, fs: seq<FieldInfo>,
                                                stats: Value, r: Reading)
    ensures r in FieldReadings(c, id, item, fs, stats) <==> r.item == item && Shows(c, id, fs, stats, r)
    decreases |fs|
  {
    if fs != [] {
      var front, last := fs[..|fs| - 1], fs[|fs| - 1];
      FieldReadingsMeaning(c, id, item, front, stats, r);
      ShowsStep(c, id, fs, stats, r);
      LastReading(FieldReadings(c, id, item, front, stats), item, last, LevelFor(c, id, item, last, stats), r);
    }
  }

  lemma LastReading(rs: seq<Reading>, item: Option<string>, info: FieldInfo, found: Option<(Level, real)>, r: Reading)
    ensures r in WithReading(rs, item, info, found) <==>
            r in rs || (r.item == item && r.info == info && found == Some((r.level, r.raw)))
  {
  }

  /** The item has `key` under its primary key, as a text or as the text of a number. */
  predicate Named(item: Value, pk: string, key: string) {
    match Get(item, pk)
    case Some(Str(s)) => s == key
    case Some(Num(_, text)) => text == key
    case _ => false
  }

  lemma KeyIsName(item: Value, pk: string, key: string)
    ensures ItemKey(item, pk) == Some(key) <==> Named(item, pk, key)
  {
  }

  /** Item `i` of a collection supports `r`: it has the key of `r`, and shows it. */
  predicate ItemShows(c: Config, id: PluginId, pk: string, fs: seq<FieldInfo>, items: seq<Value>, i: nat, r: Reading)
    requires i < |items|
  {
    r.item.Some? && Named(items[i], pk, r.item.value) && Shows(c, id, fs, items[i], r)
  }

  lemma {:induction false} CollectionReadingsMeaning(c: Config, id: PluginId, pk: string, fs: seq<FieldInfo>,
                                                     items: seq<Value>, r: Reading)
    ensures r in CollectionReadings(c, id, pk, fs, items) <==>
            exists i :: 0 <= i < |items| && ItemShows(c, id, pk, fs, items, i, r)
    decreases |items|
  {
    if items != [] {
      var n := |items| - 1;
      var front := items[..n];
      CollectionReadingsMeaning(c, id, pk, fs, front, r);
      ItemStep(c, id, pk, fs, items, n);
      assert items[..n + 1] == items;
      FieldReadingsMeaning(c, id, ItemKey(items[n], pk), fs, items[n], r);
      if r.item.Some? { KeyIsName(items[n], pk, r.item.value); }
      ItemShowsStep(c, id, pk, fs, items, r);
    }
  }

  lemma ItemShowsStep(c: Config, id: PluginId, pk: string, fs: seq<FieldInfo>, items: seq<Value>, r: Reading)
    requires items != []
    ensures var n := |items| - 1;
            (exists i :: 0 <= i < |items| && ItemShows(c, id, pk, fs, items, i, r)) <==>
            (exists i :: 0 <= i < n && ItemShows(c, id, pk, fs, items[..n], i, r))
            || ItemShows(c, id, pk, fs, items, n, r)
  {
    var n := |items| - 1;
    forall i | 0 <= i < n
      ensures ItemShows(c, id, pk, fs, items, i, r) <==> ItemShows(c, id, pk, fs, items[..n], i, r)
    {
    }
  }

  /** The payload supports `r`: the whole payload of a scalar plugin, or an item with its key, shows it. */
  ghost predicate Supports(c: Config, id: PluginId, fs: seq<FieldInfo>, payload: Value, r: Reading) {
    match KeyField(id)
    case None => r.item.None? && Shows(c, id, fs, payload, r)
    case Some(pk) =>
      match Get(payload, "data")
      case Some(Arr(items)) => exists i :: 0 <= i < |items| && ItemShows(c, id, pk, fs, items, i, r)
      case _ => false
  }

  /** What a cycle reconciles is exactly what the payload supports. */
  lemma ReadingsMeaning(c: Config, id: PluginId, fs: seq<FieldInfo>, payload: Value, r: Reading)
    ensures r in ReadingsOf(c, id, fs, payload) <==> Supports(c, id, fs, payload, r)
  {
    match KeyField(id)
    case None => FieldReadingsMeaning(c, id, None, fs, payload, r);
    case Some(pk) => CollectionReadingsMeaning(c, id, pk, fs, ItemsOf(payload), r);
  }

  /** With distinct field names, a field has an entry exactly when it has a level, and it is that one. */
  lemma {:induction false} FieldLevelsMeaning(c: Config, id: PluginId, item: Option<string>, fs: seq<FieldInfo>,
                                              stats: Value, i: nat)
    requires DistinctFields(fs) && i < |fs|
    ensures var levels := FieldLevels(c, id, item, fs, stats);
            match LevelFor(c, id, item, fs[i], stats)
            case None => fs[i].field !in levels
            case Some((level, _)) => Get(Obj(levels), fs[i].field) == Some(LevelEntry(level, fs[i].prominent))
    decreases |fs|
  {
    var n := |fs| - 1;
    if i < n {
      FieldLevelsMeaning(c, id, item, fs[..n], stats, i);
    } else {
      FieldLevelsWithin(c, id, item, fs[..n], stats);
    }
  }

  lemma {:induction false} FieldLevelsWithin(c: Config, id: PluginId, item: Option<string>, fs: seq<FieldInfo>,
                                             stats: Value)
    ensures FieldLevels(c, id, item, fs, stats).Keys <= FieldNamesOf(fs)
    decreases |fs|
  {
    if fs != [] {
      var n := |fs| - 1;
      FieldLevelsWithin(c, id, item, fs[..n], stats);
      NamesOfPrefix(fs, n);
      assert fs[..n + 1] == fs;
    }
  }

  /** An item named `key` that has at least one level. */
  predicate Bears(c: Config, id: PluginId, pk: string, fs: seq<FieldInfo>, item: Value, key: string) {
    ItemKey(item, pk) == Some(key) && FieldLevels(c, id, Some(key), fs, item) != map[]
  }

  /** The last item that bears a level under `key`. */
  function LastBearer(c: Config, id: PluginId, pk: string, fs: seq<FieldInfo>, items: seq<Value>,
                      key: string): (r: Option<nat>)
    ensures r.Some? ==> r.value < |items|
  {
    if items == [] then None
    else if Bears(c, id, pk, fs, items[|items| - 1], key) then Some(|items| - 1)
    else LastBearer(c, id, pk, fs, items[..|items| - 1], key)
  }

  lemma {:induction false} LastBearerIsLast(c: Config, id: PluginId, pk: string, fs: seq<FieldInfo>, items: seq<Value>,
                                            key: string, j: nat)
    requires j < |items|
    ensures var r := LastBearer(c, id, pk, fs, items, key);
            && (r.Some? ==> Bears(c, id, pk, fs, items[r.value], key))
            && (r.None? || j > r.value ==> !Bears(c, id, pk, fs, items[j], key))
    decreases |items|
  {
    var n := |items| - 1;
    if !Bears(c, id, pk, fs, items[n], key) && n > 0 {
      LastBearerIsLast(c, id, pk, fs, items[..n], key, if j < n then j else 0);
    }
  }

  /** An item key has an entry exactly when some item of that key bears one; of duplicates the last decides. */
  lemma {:induction false} CollectionLevelsMeaning(c: Config, id: PluginId, pk: string, fs: seq<FieldInfo>,
                                                   items: seq<Value>, key: string)
    ensures Get(Obj(CollectionLevels(c, id, pk, fs, items)), key) ==
            match LastBearer(c, id, pk, fs, items, key)
            case None => None
            case Some(i) => Some(Obj(FieldLevels(c, id, Some(key), fs, items[i])))
    decreases |items|
  {
    if items != [] {
      CollectionLevelsMeaning(c, id, pk, fs, items[..|items| - 1], key);
      CollectionLevelsStep(c, id, pk, fs, items, key);
    }
  }

  lemma CollectionLevelsStep(c: Config, id: PluginId, pk: string, fs: seq<FieldInfo>, items: seq<Value>, key: string)
    requires items != []
    ensures var last := items[|items| - 1];
            Get(Obj(CollectionLevels(c, id, pk, fs, items)), key)
            == if Bears(c, id, pk, fs, last, key) then Some(Obj(FieldLevels(c, id, Some(key), fs, last)))
               else Get(Obj(CollectionLevels(c, id, pk, fs, items[..|items| - 1])), key)
  {
  }
}
