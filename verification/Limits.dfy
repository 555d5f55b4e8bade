/** The published limits view `GET /api/5/{plugin}/limits` (src/api/mod.rs:195-277). */
module Limits {
  import opened Wrappers
  import opened Plugins
  import opened Configs
  import opened Levels
  import opened Json

  /** `json!(x)` of a floating-point number: non-finite numbers become `null`. */
  function NumberJson(x: Float, text: real -> string): Value {
    if x.Finite? then Num(x.value, text(x.value)) else Null
  }

  function Member(name: string, x: Option<Float>, text: real -> string): map<string, Value> {
    if x.Some? then map[name := NumberJson(x.value, text)] else map[]
  }

  /** Only the limits that are set, or `None` when none is. */
  function ThresholdsJson(t: Thresholds, text: real -> string): Option<Value> {
    var m := Member("careful", t.careful, text) + Member("warning", t.warning, text)
             + Member("critical", t.critical, text);
    if m == map[] then None else Some(Obj(m))
  }

  function ConfiguredThresholds(c: Config, id: PluginId, field: string, text: real -> string): Option<Value> {
    match EffectiveGlobal(c, id, field)
    case Some(t) => ThresholdsJson(t, text)
    case None => None
  }

  /** The per-field limits of one item, as declared, for the watched fields of `fs`. */
  ghost function ItemView(fs: seq<FieldInfo>, byField: map<string, Thresholds>,
                          text: real -> string): map<string, Value> {
    map f | f in byField && Find(fs, f).Some? && ThresholdsJson(byField[f], text).Some?
      :: ThresholdsJson(byField[f], text).value
  }

  /** The entries of the items in `items`; an item without limits has none. */
  ghost function ItemsView(fs: seq<FieldInfo>, byItem: map<string, map<string, Thresholds>>, items: set<string>,
                           text: real -> string): map<string, Value> {
    map item | item in items && item in byItem && ItemView(fs, byItem[item], text) != map[]
      :: Obj(ItemView(fs, byItem[item], text))
  }

  ghost function PerItemView(fs: seq<FieldInfo>, byItem: map<string, map<string, Thresholds>>,
                             text: real -> string): map<string, Value> {
    ItemsView(fs, byItem, byItem.Keys, text)
  }

  ghost function GlobalView(c: Config, id: PluginId, fs: seq<FieldInfo>, text: real -> string): map<string, Value> {
    map f | f in FieldNamesOf(fs) && ConfiguredThresholds(c, id, f, text).Some?
      :: ConfiguredThresholds(c, id, f, text).value
  }

  const PER_ITEM := "_per_item"

  ghost function PerItem(c: Config, id: PluginId, fs: seq<FieldInfo>, text: real -> string): map<string, Value> {
    var p := Section(c, id);
    if p.Some? then PerItemView(fs, p.value.thresholdsByItem, text) else map[]
  }

  ghost function LimitsView(c: Config, id: PluginId, fs: seq<FieldInfo>, text: real -> string): map<string, Value> {
    var globals, perItem := GlobalView(c, id, fs, text), PerItem(c, id, fs, text);
    if perItem == map[] then globals else globals[PER_ITEM := Obj(perItem)]
  }

  lemma FindIsMembership(fs: seq<FieldInfo>, f: string)
    ensures Find(fs, f).Some? <==> f in FieldNamesOf(fs)
  {
    if Find(fs, f).Some? {
      var i :| 0 <= i < |fs| && fs[i] == Find(fs, f).value;
    }
  }

  method FieldLimits(fs: seq<FieldInfo>, byField: map<string, Thresholds>, text: real -> string)
    returns (out: map<string, Value>)
    ensures out == ItemView(fs, byField, text)
  {
    out := map[];
    for i := 0 to |fs|
      invariant out == map f | f in byField && f in FieldNamesOf(fs[..i]) && ThresholdsJson(byField[f], text).Some?
                         :: ThresholdsJson(byField[f], text).value
    {
      assert FieldNamesOf(fs[..i + 1]) == FieldNamesOf(fs[..i]) + {fs[i].field} by { NamesOfPrefix(fs, i); }
      if fs[i].field in byField {
        var t := ThresholdsJson(byField[fs[i].field], text);
        if t.Some? { out := out[fs[i].field := t.value]; }
      }
    }
    assert fs[..|fs|] == fs;
    forall f ensures Find(fs, f).Some? <==> f in FieldNamesOf(fs) { FindIsMembership(fs, f); }
  }

  method ItemLimits(fs: seq<FieldInfo>, byItem: map<string, map<string, Thresholds>>, text: real -> string)
    returns (out: map<string, Value>)
    ensures out == PerItemView(fs, byItem, text)
  {
    out := map[];
    var left := byItem.Keys;
    while left != {}
      invariant left <= byItem.Keys
      invariant out == ItemsView(fs, byItem, byItem.Keys - left, text)
      decreases left
    {
      var item :| item in left;
      ItemsViewStep(fs, byItem, byItem.Keys - left, item, text);
      assert byItem.Keys - left + {item} == byItem.Keys - (left - {item});
      var fields := FieldLimits(fs, byItem[item], text);
      if fields != map[] { out := out[item := Obj(fields)]; }
      left := left - {item};
    }
    assert byItem.Keys - left == byItem.Keys;
  }

  lemma ItemsViewStep(fs: seq<FieldInfo>, byItem: map<string, map<string, Thresholds>>, items: set<string>,
                      item: string, text: real -> string)
    requires item in byItem && item !in items
    ensures var before, fields := ItemsView(fs, byItem, items, text), ItemView(fs, byItem[item], text);
            ItemsView(fs, byItem, items + {item}, text) ==
            if fields != map[] then before[item := Obj(fields)] else before
  {
  }

  method GlobalLimits(c: Config, id: PluginId, fs: seq<FieldInfo>, text: real -> string)
    returns (out: map<string, Value>)
    ensures out == GlobalView(c, id, fs, text)
  {
    out := map[];
    for i := 0 to |fs|
      invariant out == GlobalView(c, id, fs[..i], text)
    {
      NamesOfPrefix(fs, i);
      GlobalViewStep(c, id, fs, i, text);
      var t := ConfiguredThresholds(c, id, fs[i].field, text);
      if t.Some? { out := out[fs[i].field := t.value]; }
    }
    assert fs[..|fs|] == fs;
  }

  lemma GlobalViewStep(c: Config, id: PluginId, fs: seq<FieldInfo>, i: nat, text: real -> string)
    requires i < |fs|
    ensures var t, before := ConfiguredThresholds(c, id, fs[i].field, text), GlobalView(c, id, fs[..i], text);
            GlobalView(c, id, fs[..i + 1], text) == if t.Some? then before[fs[i].field := t.value] else before
  {
    NamesOfPrefix(fs, i);
  }

  method PerItemLimits(c: Config, id: PluginId, fs: seq<FieldInfo>, text: real -> string)
    returns (out: map<string, Value>)
    ensures out == PerItem(c, id, fs, text)
  {
    out := map[];
    if Name(id) in c.plugins {
      out := ItemLimits(fs, c.plugins[Name(id)].thresholdsByItem, text);
    }
  }

  /** `limits_for`, over the watched fields `fs` of the plugin. */
  method LimitsFor(c: Config, id: PluginId, fs: seq<FieldInfo>, text: real -> string)
    returns (out: map<string, Value>)
    ensures out == LimitsView(c, id, fs, text)
  {
    out := GlobalLimits(c, id, fs, text);
    var perItem := PerItemLimits(c, id, fs, text);
    if perItem != map[] { out := out[PER_ITEM := Obj(perItem)]; }
  }

  // ---------------------------------------------------------------------
  // What a client reads off the view
  // ---------------------------------------------------------------------

  /** One limit of an object of limits. */
  function ReadLimit(limits: Option<Value>, name: string): Option<Float> {
    match limits
    case None => None
    case Some(v) =>
      match GetNumber(v, name)
      case Some(x) => Some(Finite(x))
      case None => None
  }

  function GlobalEntry(view: map<string, Value>, field: string): Option<Value> {
    Get(Obj(view), field)
  }

  /** Reading two levels of an object of objects. */
  function EntryWithin(items: Option<Value>, item: string, field: string): Option<Value> {
    match items
    case None => None
    case Some(v) =>
      match Get(v, item)
      case None => None
      case Some(fields) => Get(fields, field)
  }

  function ItemEntry(view: map<string, Value>, item: string, field: string): Option<Value> {
    EntryWithin(Get(Obj(view), PER_ITEM), item, field)
  }

  /** An item's entry, if one is asked for, laid over the global one, limit by limit. */
  function PublishedLimit(view: map<string, Value>, item: Option<string>, field: string, name: string): Option<Float> {
    var specific := ReadLimit(SpecificEntry(view, item, field), name);
    if specific.Some? then specific else ReadLimit(GlobalEntry(view, field), name)
  }

  function SpecificEntry(view: map<string, Value>, item: Option<string>, field: string): Option<Value> {
    if item.Some? then ItemEntry(view, item.value, field) else None
  }

  /** What a client reads off the view for one field, of one item or of a plugin without items. */
  function PublishedLimits(view: map<string, Value>, item: Option<string>, field: string): Option<Thresholds> {
    var t := Thresholds(
      PublishedLimit(view, item, field, "careful"),
      PublishedLimit(view, item, field, "warning"),
      PublishedLimit(view, item, field, "critical"));
    if NoLimit(t) then None else Some(t)
  }

  lemma LimitNames()
    ensures "careful" != "warning" && "careful" != "critical" && "warning" != "critical"
  {
    assert "careful"[1] == 'a' && "critical"[1] == 'r' && "warning"[0] == 'w';
  }

  /** A ladder of finite limits is read back unchanged from its JSON. */
  lemma LadderRoundTrip(t: Thresholds, text: real -> string)
    requires FiniteLimit(t.careful) && FiniteLimit(t.warning) && FiniteLimit(t.critical)
    ensures ReadLimit(ThresholdsJson(t, text), "careful") == t.careful
    ensures ReadLimit(ThresholdsJson(t, text), "warning") == t.warning
    ensures ReadLimit(ThresholdsJson(t, text), "critical") == t.critical
  {
    LimitNames();
    if t.careful.Some? || t.warning.Some? || t.critical.Some? {
      assert "careful" in Member("careful", t.careful, text) || "warning" in Member("warning", t.warning, text)
             || "critical" in Member("critical", t.critical, text);
    }
  }

  lemma WatchedFieldNames(id: PluginId)
    ensures PER_ITEM !in FieldNamesOf(AlertFields(id))
  {
    forall i | 0 <= i < |AlertFields(id)| ensures AlertFields(id)[i].field[0] != '_' {
      assert AlertFields(id)[i].field != "";
    }
  }

  /** The global entry of the view is the global ladder of the configuration. */
  lemma GlobalEntryOf(c: Config, id: PluginId, fs: seq<FieldInfo>, field: string, text: real -> string)
    requires field in FieldNamesOf(fs) && PER_ITEM !in FieldNamesOf(fs)
    ensures GlobalEntry(LimitsView(c, id, fs, text), field) == ConfiguredThresholds(c, id, field, text)
  {
  }

  /** Inside `_per_item`, an item's entry for a watched field is its declared block. */
  lemma PerItemEntry(fs: seq<FieldInfo>, byItem: map<string, map<string, Thresholds>>, item: string, field: string,
                     text: real -> string)
    requires Find(fs, field).Some?
    ensures var block := if item in byItem && field in byItem[item] then ThresholdsJson(byItem[item][field], text)
      else None;
            var perItem := PerItemView(fs, byItem, text);
            && (item in perItem && Get(perItem[item], field).Some? ==> Get(perItem[item], field) == block)
            && (block.Some? ==> item in perItem && Get(perItem[item], field) == block)
  {
    if item in byItem {
      var fields := ItemView(fs, byItem[item], text);
      if field in byItem[item] && ThresholdsJson(byItem[item][field], text).Some? {
        assert field in fields;
      }
    }
  }

  lemma NestedPerItem(fs: seq<FieldInfo>, byItem: map<string, map<string, Thresholds>>, item: string, field: string,
                      text: real -> string)
    requires Find(fs, field).Some?
    ensures var perItem := PerItemView(fs, byItem, text);
            EntryWithin(if perItem == map[] then None else Some(Obj(perItem)), item, field) ==
            if item in byItem && field in byItem[item] then ThresholdsJson(byItem[item][field], text) else None
  {
    PerItemEntry(fs, byItem, item, field, text);
  }

  /** The entry under `_per_item` is the override of the configuration. */
  lemma ItemEntryOf(c: Config, id: PluginId, fs: seq<FieldInfo>, item: string, field: string, text: real -> string)
    requires field in FieldNamesOf(fs) && PER_ITEM !in FieldNamesOf(fs)
    ensures ItemEntry(LimitsView(c, id, fs, text), item, field) == OverrideJson(c, id, Some(item), field, text)
  {
    FindIsMembership(fs, field);
    PerItemOfView(c, id, fs, text);
    if Name(id) in c.plugins {
      NestedPerItem(fs, c.plugins[Name(id)].thresholdsByItem, item, field, text);
    }
  }

  lemma PerItemOfView(c: Config, id: PluginId, fs: seq<FieldInfo>, text: real -> string)
    requires PER_ITEM !in FieldNamesOf(fs)
    ensures var perItem := PerItem(c, id, fs, text);
            Get(Obj(LimitsView(c, id, fs, text)), PER_ITEM) == if perItem == map[] then None else Some(Obj(perItem))
  {
  }

  function OverrideJson(c: Config, id: PluginId, item: Option<string>, field: string,
                        text: real -> string): Option<Value> {
    match Override(c, id, item, field)
    case Some(t) => ThresholdsJson(t, text)
    case None => None
  }

  /** What a client reads of one pair of entries is their merge. */
  lemma PublishedIsMerge(view: map<string, Value>, item: Option<string>, field: string, s: Option<Thresholds>,
                         g: Option<Thresholds>, text: real -> string)
    requires s.Some? ==> SoundLadder(s.value)
    requires g.Some? ==> SoundLadder(g.value)
    requires SpecificEntry(view, item, field) == if s.Some? then ThresholdsJson(s.value, text) else None
    requires GlobalEntry(view, field) == if g.Some? then ThresholdsJson(g.value, text) else None
    ensures var e := Thresholds(Pick(s, g, (t: Thresholds) => t.careful), Pick(s, g, (t: Thresholds) => t.warning),
                                Pick(s, g, (t: Thresholds) => t.critical));
            PublishedLimits(view, item, field) == if NoLimit(e) then None else Some(e)
  {
    if s.Some? { LadderRoundTrip(s.value, text); }
    if g.Some? { LadderRoundTrip(g.value, text); }
  }

  /**
   * Published limits are the enforced ones: reading the limits of a watched field off the view, for an
   * item or for a plugin without items, gives exactly what the alert engine resolves.
   */
  lemma PublishedIsEnforced(c: Config, regexOk: string -> bool, id: PluginId, item: Option<string>, f: FieldInfo,
                            text: real -> string)
    requires Accepted(c, regexOk) && f in AlertFields(id)
    ensures PublishedLimits(LimitsView(c, id, AlertFields(id), text), item, f.field) == Resolve(c, id, item, f.field)
  {
    var fs, s, g := AlertFields(id), Override(c, id, item, f.field), EffectiveGlobal(c, id, f.field);
    WatchedFieldNames(id);
    GlobalEntryOf(c, id, fs, f.field, text);
    if item.Some? { ItemEntryOf(c, id, fs, item.value, f.field, text); }
    if s.Some? { AcceptedOverrideFinite(c, regexOk, id, item, f.field); }
    if g.Some? { AcceptedGlobalFinite(c, regexOk, id, f.field); }
    PublishedIsMerge(LimitsView(c, id, fs, text), item, f.field, s, g, text);
  }

  lemma AcceptedOverrideFinite(c: Config, regexOk: string -> bool, id: PluginId, item: Option<string>, field: string)
    requires Accepted(c, regexOk) && Override(c, id, item, field).Some?
    ensures SoundLadder(Override(c, id, item, field).value)
  {
    assert SectionAccepted(c, Name(id), regexOk);
    assert ItemSound(c, Name(id), item.value);
    assert OverrideSound(c, Name(id), item.value, field);
  }

  lemma AcceptedGlobalFinite(c: Config, regexOk: string -> bool, id: PluginId, field: string)
    requires Accepted(c, regexOk) && EffectiveGlobal(c, id, field).Some?
    ensures SoundLadder(EffectiveGlobal(c, id, field).value)
  {
    BuiltinIsSound(id, field);
    if Name(id) in c.plugins { assert SectionAccepted(c, Name(id), regexOk); }
  }

  // ---------------------------------------------------------------------
  // Nothing else is published
  // ---------------------------------------------------------------------

  lemma JsonIfLimited(t: Thresholds, text: real -> string)
    ensures ThresholdsJson(t, text).Some? <==> !NoLimit(t)
  {
    if t.careful.Some? { assert "careful" in Member("careful", t.careful, text); }
    if t.warning.Some? { assert "warning" in Member("warning", t.warning, text); }
    if t.critical.Some? { assert "critical" in Member("critical", t.critical, text); }
  }

  lemma GlobalIfLimited(c: Config, id: PluginId, field: string, text: real -> string)
    ensures ConfiguredThresholds(c, id, field, text).Some? <==> Resolve(c, id, None, field).Some?
  {
    var g := EffectiveGlobal(c, id, field);
    if g.Some? { JsonIfLimited(g.value, text); }
  }

  /** Some override of an item sets a limit for a watched field. */
  ghost predicate SomeOverride(c: Config, id: PluginId, fs: seq<FieldInfo>) {
    exists item, field :: Overrides(c, id, fs, item, field)
  }

  predicate Overrides(c: Config, id: PluginId, fs: seq<FieldInfo>, item: string, field: string) {
    && Find(fs, field).Some?
    && Override(c, id, Some(item), field).Some? && !NoLimit(Override(c, id, Some(item), field).value)
  }

  lemma ItemViewEntry(c: Config, id: PluginId, fs: seq<FieldInfo>, item: string, field: string, text: real -> string)
    requires Name(id) in c.plugins && item in c.plugins[Name(id)].thresholdsByItem
    ensures field in ItemView(fs, c.plugins[Name(id)].thresholdsByItem[item], text) <==>
            Overrides(c, id, fs, item, field)
  {
    var byField := c.plugins[Name(id)].thresholdsByItem[item];
    if field in byField { JsonIfLimited(byField[field], text); }
  }

  lemma PerItemExactly(c: Config, id: PluginId, fs: seq<FieldInfo>, text: real -> string)
    ensures PerItem(c, id, fs, text) != map[] <==> SomeOverride(c, id, fs)
  {
    var perItem := PerItem(c, id, fs, text);
    if item :| item in perItem {
      var fields := ItemView(fs, c.plugins[Name(id)].thresholdsByItem[item], text);
      var field :| field in fields;
      ItemViewEntry(c, id, fs, item, field, text);
    }
    if item, field :| Overrides(c, id, fs, item, field) {
      ItemViewEntry(c, id, fs, item, field, text);
      assert item in perItem;
    }
  }

  /**
   * The exact keys of the view: the watched fields with a global limit in force, and `_per_item` when some
   * item overrides a limit of a watched field.
   */
  lemma ViewKeysExactly(c: Config, id: PluginId, fs: seq<FieldInfo>, text: real -> string, key: string)
    ensures key in LimitsView(c, id, fs, text) <==>
            || (Find(fs, key).Some? && Resolve(c, id, None, key).Some?)
            || (key == "_per_item" && SomeOverride(c, id, fs))
  {
    FindIsMembership(fs, key);
    GlobalIfLimited(c, id, key, text);
    PerItemExactly(c, id, fs, text);
  }

  /** And an item is listed under `_per_item` exactly when it overrides a limit of some watched field. */
  lemma PerItemKeysExactly(c: Config, id: PluginId, fs: seq<FieldInfo>, text: real -> string, item: string)
    ensures item in PerItem(c, id, fs, text) <==> exists field :: Overrides(c, id, fs, item, field)
  {
    if Name(id) in c.plugins && item in c.plugins[Name(id)].thresholdsByItem {
      var fields := ItemView(fs, c.plugins[Name(id)].thresholdsByItem[item], text);
      if field :| field in fields { ItemViewEntry(c, id, fs, item, field, text); }
      if field :| Overrides(c, id, fs, item, field) { ItemViewEntry(c, id, fs, item, field, text); }
    }
  }
}
