/**
 * What a cycle writes into `_levels` and what it hands to the debounce machine, said of the configuration
 * and the payload alone (src/alerts.rs:308-345, 392-417).
 */
module LevelsView {
  import opened Wrappers
  import opened Plugins
  import opened Configs
  import opened Levels
  import opened Json
  import opened Observations

  // ---------------------------------------------------------------------
  // `_levels`
  // ---------------------------------------------------------------------

  /** The object that spells out a level. */
  predicate Spells(entry: Option<Value>, level: Level, prominent: bool) {
    && entry.Some? && entry.value.Obj? && entry.value.members.Keys == {"level", "prominent"}
    && Get(entry.value, "prominent") == Some(Bool(prominent))
    && match level
       case Okay => Get(entry.value, "level") == Some(Str("ok"))
       case Careful => Get(entry.value, "level") == Some(Str("careful"))
       case Warning => Get(entry.value, "level") == Some(Str("warning"))
       case Critical => Get(entry.value, "level") == Some(Str("critical"))
  }

  lemma EntrySpells(level: Level, prominent: bool)
    ensures Spells(Some(LevelEntry(level, prominent)), level, prominent)
  {
    assert |"level"| == 5 && |"prominent"| == 9;
  }

  /** The entry of a watched field: there exactly when the field is observed, and spelling the level it merits. */
  ghost predicate FieldEntry(c: Config, id: PluginId, item: Option<string>, info: FieldInfo, stats: Value,
                             entry: Option<Value>) {
    && (entry.Some? <==> Observes(c, id, item, info, stats))
    && forall level: Level, raw: real :: Merits(c, id, item, info, stats, level, raw) ==>
         Spells(entry, level, info.prominent)
  }

  lemma EachFieldEntry(c: Config, id: PluginId, item: Option<string>, fs: seq<FieldInfo>, stats: Value, i: nat)
    requires DistinctFields(fs) && i < |fs|
    ensures FieldEntry(c, id, item, fs[i], stats, Get(Obj(FieldLevels(c, id, item, fs, stats)), fs[i].field))
  {
    FieldLevelsMeaning(c, id, item, fs, stats, i);
    LevelMissingExactly(c, id, item, fs[i], stats);
    forall level: Level, raw: real | Merits(c, id, item, fs[i], stats, level, raw)
      ensures Spells(Get(Obj(FieldLevels(c, id, item, fs, stats)), fs[i].field), level, fs[i].prominent)
    {
      LevelIsMerited(c, id, item, fs[i], stats, level, raw);
      EntrySpells(level, fs[i].prominent);
    }
  }

  /**
   * In the `_levels` of a plugin without items, a watched field has an entry exactly when the payload has a
   * number for it, a limit is set and its divisor, if any, is usable; the entry spells out the worst level
   * whose limit the number reaches.
   */
  lemma ScalarLevelsExactly(c: Config, id: PluginId, payload: Value, info: FieldInfo)
    requires KeyField(id).None? && info in AlertFields(id)
    ensures var levels := Obj(LevelsOf(c, id, AlertFields(id), payload));
            FieldEntry(c, id, None, info, payload, Get(levels, info.field))
  {
    TableIsSound(id);
    var i :| 0 <= i < |AlertFields(id)| && AlertFields(id)[i] == info;
    EachFieldEntry(c, id, None, AlertFields(id), payload, i);
  }

  /** An item called `key` in which some watched field is observed. */
  ghost predicate Counts(c: Config, id: PluginId, pk: string, item: Value, key: string) {
    Named(item, pk, key) && exists info :: info in AlertFields(id) && Observes(c, id, Some(key), info, item)
  }

  /** The levels of an item are not empty exactly when some watched field is observed in it. */
  lemma SomeLevelExactly(c: Config, id: PluginId, item: Option<string>, stats: Value)
    ensures FieldLevels(c, id, item, AlertFields(id), stats) != map[] <==>
            exists info :: info in AlertFields(id) && Observes(c, id, item, info, stats)
  {
    var fs, levels := AlertFields(id), FieldLevels(c, id, item, AlertFields(id), stats);
    TableIsSound(id);
    forall i | 0 <= i < |fs| ensures fs[i].field in levels <==> Observes(c, id, item, fs[i], stats) {
      EachFieldEntry(c, id, item, fs, stats, i);
    }
    FieldLevelsWithin(c, id, item, fs, stats);
    if levels != map[] {
      var field :| field in levels;
      assert field in FieldNamesOf(fs);
    }
  }

  lemma BearsIfCounts(c: Config, id: PluginId, pk: string, item: Value, key: string)
    ensures Bears(c, id, pk, AlertFields(id), item, key) <==> Counts(c, id, pk, item, key)
  {
    KeyIsName(item, pk, key);
    SomeLevelExactly(c, id, Some(key), item);
  }

  lemma ScalarKeys(c: Config, id: PluginId, payload: Value, key: string)
    requires KeyField(id).None?
    ensures key in LevelsOf(c, id, AlertFields(id), payload) <==>
            exists info :: info in AlertFields(id) && info.field == key && Observes(c, id, None, info, payload)
  {
    var fs, levels := AlertFields(id), LevelsOf(c, id, AlertFields(id), payload);
    TableIsSound(id);
    forall i | 0 <= i < |fs| ensures fs[i].field in levels <==> Observes(c, id, None, fs[i], payload) {
      EachFieldEntry(c, id, None, fs, payload, i);
    }
    FieldLevelsWithin(c, id, None, fs, payload);
    if key in levels {
      var i :| 0 <= i < |fs| && fs[i].field == key;
      assert fs[i] in fs;
    }
  }

  lemma CollectionKeys(c: Config, id: PluginId, pk: string, items: seq<Value>, key: string)
    ensures key in CollectionLevels(c, id, pk, AlertFields(id), items) <==>
            exists i :: 0 <= i < |items| && Counts(c, id, pk, items[i], key)
  {
    var fs := AlertFields(id);
    var last := LastBearer(c, id, pk, fs, items, key);
    CollectionLevelsMeaning(c, id, pk, fs, items, key);
    forall i | 0 <= i < |items|
      ensures last.None? ==> !Counts(c, id, pk, items[i], key)
      ensures last == Some(i) ==> Counts(c, id, pk, items[i], key)
    {
      LastBearerIsLast(c, id, pk, fs, items, key, i);
      BearsIfCounts(c, id, pk, items[i], key);
    }
  }

  /**
   * The exact keys of `_levels`: for a plugin without items the watched fields that are observed in the
   * payload, for one with items the keys that some item counts under.
   */
  lemma LevelKeysExactly(c: Config, id: PluginId, payload: Value, key: string)
    ensures key in LevelsOf(c, id, AlertFields(id), payload) <==>
            match KeyField(id)
            case None =>
              exists info :: info in AlertFields(id) && info.field == key && Observes(c, id, None, info, payload)
            case Some(pk) =>
              match Get(payload, "data")
              case Some(Arr(items)) => exists i :: 0 <= i < |items| && Counts(c, id, pk, items[i], key)
              case _ => false
  {
    match KeyField(id)
    case None => ScalarKeys(c, id, payload, key);
    case Some(pk) => CollectionKeys(c, id, pk, ItemsOf(payload), key);
  }

  /** Item `i` is the last one that counts under `key`. */
  ghost predicate Decides(c: Config, id: PluginId, pk: string, items: seq<Value>, i: nat, key: string)
    requires i < |items|
  {
    Counts(c, id, pk, items[i], key) && forall j :: i < j < |items| ==> !Counts(c, id, pk, items[j], key)
  }

  lemma DecidingBearer(c: Config, id: PluginId, pk: string, items: seq<Value>, i: nat, key: string)
    requires i < |items| && Decides(c, id, pk, items, i, key)
    ensures LastBearer(c, id, pk, AlertFields(id), items, key) == Some(i)
  {
    var last := LastBearer(c, id, pk, AlertFields(id), items, key);
    LastBearerIsLast(c, id, pk, AlertFields(id), items, key, i);
    BearsIfCounts(c, id, pk, items[i], key);
    if last.Some? { BearsIfCounts(c, id, pk, items[last.value], key); }
  }

  /**
   * In the `_levels` of a plugin with items, the last item that counts under a key decides the entry of that
   * key, for every watched field.
   */
  lemma CollectionLevelsExactly(c: Config, id: PluginId, pk: string, payload: Value, items: seq<Value>, i: nat,
                                key: string, info: FieldInfo)
    requires KeyField(id) == Some(pk) && Get(payload, "data") == Some(Arr(items)) && i < |items|
    requires Decides(c, id, pk, items, i, key) && info in AlertFields(id)
    ensures var levels := LevelsOf(c, id, AlertFields(id), payload);
            key in levels && FieldEntry(c, id, Some(key), info, items[i], Get(levels[key], info.field))
  {
    var fs := AlertFields(id);
    DecidingBearer(c, id, pk, items, i, key);
    CollectionLevelsMeaning(c, id, pk, fs, items, key);
    TableIsSound(id);
    var k :| 0 <= k < |fs| && fs[k] == info;
    EachFieldEntry(c, id, Some(key), fs, items[i], k);
  }

  // ---------------------------------------------------------------------
  // The readings, in order
  // ---------------------------------------------------------------------

  /** Where a reading is taken: the position of the item in the payload and of the field in the table. */
  datatype Slot = Slot(item: nat, field: nat)

  /** Reading `r` is taken at `slot`; a payload without items counts as one item. */
  predicate SlotShows(c: Config, id: PluginId, fs: seq<FieldInfo>, payload: Value, slot: Slot, r: Reading) {
    && slot.field < |fs| && r.info == fs[slot.field]
    && match KeyField(id)
       case None =>
         slot.item == 0 && r.item.None? && Merits(c, id, None, r.info, payload, r.level, r.raw)
       case Some(pk) =>
         match Get(payload, "data")
         case Some(Arr(items)) =>
           && slot.item < |items| && r.item.Some? && Named(items[slot.item], pk, r.item.value)
           && Merits(c, id, r.item, r.info, items[slot.item], r.level, r.raw)
         case _ => false
  }

  predicate Before(a: Slot, b: Slot) {
    a.item < b.item || (a.item == b.item && a.field < b.field)
  }

  ghost predicate Rising(slots: seq<Slot>) {
    forall i, j :: 0 <= i < j < |slots| ==> Before(slots[i], slots[j])
  }

  /** Reading `k` is that of slot `k`, and the slots rise. */
  ghost predicate Listing(rs: seq<Reading>, slots: seq<Slot>, tells: (Slot, Reading) -> bool) {
    |slots| == |rs| && Rising(slots) && forall k :: 0 <= k < |rs| ==> tells(slots[k], rs[k])
  }

  lemma ListingAppend(rs: seq<Reading>, slots: seq<Slot>, rs': seq<Reading>, slots': seq<Slot>,
                      tells: (Slot, Reading) -> bool)
    requires Listing(rs, slots, tells) && Listing(rs', slots', tells)
    requires forall i, j :: 0 <= i < |slots| && 0 <= j < |slots'| ==> Before(slots[i], slots'[j])
    ensures Listing(rs + rs', slots + slots', tells)
  {
  }

  /** `tells` holds of what field `j` shows of an item at position `at`. */
  ghost predicate TellsOf(c: Config, id: PluginId, item: Option<string>, fs: seq<FieldInfo>, stats: Value, at: nat,
                          tells: (Slot, Reading) -> bool, j: nat)
    requires j < |fs|
  {
    forall level: Level, raw: real :: Merits(c, id, item, fs[j], stats, level, raw) ==>
      tells(Slot(at, j), Reading(item, fs[j], level, raw))
  }

  lemma OneSlot(c: Config, id: PluginId, item: Option<string>, fs: seq<FieldInfo>, stats: Value, at: nat, j: nat,
                tells: (Slot, Reading) -> bool)
    requires j < |fs| && TellsOf(c, id, item, fs, stats, at, tells, j)
    ensures var found := LevelFor(c, id, item, fs[j], stats);
            && (found.Some? <==> Observes(c, id, item, fs[j], stats))
            && (found.Some? ==> tells(Slot(at, j), Reading(item, fs[j], found.value.0, found.value.1)))
  {
    var found := LevelFor(c, id, item, fs[j], stats);
    LevelMissingExactly(c, id, item, fs[j], stats);
    if found.Some? { LevelIsMerited(c, id, item, fs[j], stats, found.value.0, found.value.1); }
  }

  /** The slots of the first `n` fields of an item, all that are observed and no others. */
  ghost predicate SlotsUpTo(c: Config, id: PluginId, item: Option<string>, fs: seq<FieldInfo>, stats: Value, at: nat,
                            n: nat, slots: seq<Slot>)
    requires n <= |fs|
  {
    && (forall k :: 0 <= k < |slots| ==> slots[k].item == at && slots[k].field < n)
    && forall j :: 0 <= j < n && Observes(c, id, item, fs[j], stats) ==> Slot(at, j) in slots
  }

  lemma NextSlot(c: Config, id: PluginId, item: Option<string>, fs: seq<FieldInfo>, stats: Value, at: nat, n: nat,
                 slots: seq<Slot>)
    requires n < |fs| && SlotsUpTo(c, id, item, fs, stats, at, n, slots)
    ensures SlotsUpTo(c, id, item, fs, stats, at, n + 1, slots + [Slot(at, n)])
    ensures !Observes(c, id, item, fs[n], stats) ==> SlotsUpTo(c, id, item, fs, stats, at, n + 1, slots)
  {
    forall j | 0 <= j < n && Observes(c, id, item, fs[j], stats) ensures Slot(at, j) in slots + [Slot(at, n)] {
      assert Slot(at, j) in slots;
    }
  }

  lemma {:induction false} FieldSlots(c: Config, id: PluginId, item: Option<string>, fs: seq<FieldInfo>, stats: Value,
                                      at: nat, n: nat, tells: (Slot, Reading) -> bool)
    returns (slots: seq<Slot>)
    requires n <= |fs| && forall j :: 0 <= j < |fs| ==> TellsOf(c, id, item, fs, stats, at, tells, j)
    ensures Listing(FieldReadings(c, id, item, fs[..n], stats), slots, tells)
    ensures SlotsUpTo(c, id, item, fs, stats, at, n, slots)
    decreases n
  {
    if n == 0 { return []; }
    var m := n - 1;
    slots := FieldSlots(c, id, item, fs, stats, at, m, tells);
    ReadingStep(c, id, item, fs, stats, m);
    OneSlot(c, id, item, fs, stats, at, m, tells);
    NextSlot(c, id, item, fs, stats, at, m, slots);
    var found := LevelFor(c, id, item, fs[m], stats);
    if found.Some? {
      ListingAppend(FieldReadings(c, id, item, fs[..m], stats), slots,
                    [Reading(item, fs[m], found.value.0, found.value.1)], [Slot(at, m)], tells);
      slots := slots + [Slot(at, m)];
    }
  }

  /** Some field of an item is observed at `slot`. */
  predicate ItemSlot(c: Config, id: PluginId, pk: string, fs: seq<FieldInfo>, items: seq<Value>, slot: Slot) {
    && slot.item < |items| && slot.field < |fs| && ItemKey(items[slot.item], pk).Some?
    && Observes(c, id, ItemKey(items[slot.item], pk), fs[slot.field], items[slot.item])
  }

  lemma {:induction false} ItemSlots(c: Config, id: PluginId, pk: string, fs: seq<FieldInfo>, items: seq<Value>, n: nat,
                                     tells: (Slot, Reading) -> bool)
    returns (slots: seq<Slot>)
    requires n <= |items|
    requires forall i, j :: 0 <= i < |items| && 0 <= j < |fs| && ItemKey(items[i], pk).Some? ==>
      TellsOf(c, id, ItemKey(items[i], pk), fs, items[i], i, tells, j)
    ensures Listing(CollectionReadings(c, id, pk, fs, items[..n]), slots, tells)
    ensures forall k :: 0 <= k < |slots| ==> slots[k].item < n
    ensures forall slot: Slot :: slot.item < n && ItemSlot(c, id, pk, fs, items, slot) ==> slot in slots
    decreases n
  {
    if n == 0 { return []; }
    var rest := ItemSlots(c, id, pk, fs, items, n - 1, tells);
    var key := ItemKey(items[n - 1], pk);
    ItemStep(c, id, pk, fs, items, n - 1);
    if key.None? { return rest; }
    var more := FieldSlots(c, id, key, fs, items[n - 1], n - 1, |fs|, tells);
    assert fs[..|fs|] == fs;
    ListingAppend(CollectionReadings(c, id, pk, fs, items[..n - 1]), rest, FieldReadings(c, id, key, fs, items[n - 1]),
                  more, tells);
    slots := rest + more;
    forall slot: Slot | slot.item < n && ItemSlot(c, id, pk, fs, items, slot) ensures slot in slots {
      if slot.item == n - 1 { assert slot == Slot(n - 1, slot.field); }
    }
  }

  function SlotBy(c: Config, id: PluginId, fs: seq<FieldInfo>, payload: Value): (Slot, Reading) -> bool {
    (slot: Slot, r: Reading) => SlotShows(c, id, fs, payload, slot, r)
  }

  /** Every slot that shows a reading is among `slots`. */
  ghost predicate Complete(c: Config, id: PluginId, fs: seq<FieldInfo>, payload: Value, slots: seq<Slot>) {
    forall slot, r :: SlotShows(c, id, fs, payload, slot, r) ==> slot in slots
  }

  lemma ScalarInOrder(c: Config, id: PluginId, fs: seq<FieldInfo>, payload: Value) returns (slots: seq<Slot>)
    requires KeyField(id).None?
    ensures Listing(ReadingsOf(c, id, fs, payload), slots, SlotBy(c, id, fs, payload))
    ensures Complete(c, id, fs, payload, slots)
  {
    slots := FieldSlots(c, id, None, fs, payload, 0, |fs|, SlotBy(c, id, fs, payload));
    assert fs[..|fs|] == fs;
    forall slot, r | SlotShows(c, id, fs, payload, slot, r) ensures slot in slots {
      MeritsObserved(c, id, None, r.info, payload, r.level, r.raw);
      assert slot == Slot(0, slot.field);
    }
  }

  lemma CollectionInOrder(c: Config, id: PluginId, fs: seq<FieldInfo>, payload: Value, pk: string, items: seq<Value>)
    returns (slots: seq<Slot>)
    requires KeyField(id) == Some(pk) && Get(payload, "data") == Some(Arr(items))
    ensures Listing(ReadingsOf(c, id, fs, payload), slots, SlotBy(c, id, fs, payload))
    ensures Complete(c, id, fs, payload, slots)
  {
    var tells := SlotBy(c, id, fs, payload);
    forall i, j | 0 <= i < |items| && 0 <= j < |fs| && ItemKey(items[i], pk).Some?
      ensures TellsOf(c, id, ItemKey(items[i], pk), fs, items[i], i, tells, j)
    {
      KeyIsName(items[i], pk, ItemKey(items[i], pk).value);
    }
    slots := ItemSlots(c, id, pk, fs, items, |items|, tells);
    assert items[..|items|] == items;
    forall slot, r | SlotShows(c, id, fs, payload, slot, r) ensures slot in slots {
      KeyIsName(items[slot.item], pk, r.item.value);
      MeritsObserved(c, id, r.item, r.info, items[slot.item], r.level, r.raw);
      assert ItemSlot(c, id, pk, fs, items, slot);
    }
  }

  /**
   * A cycle reconciles its readings in the order of the payload: item by item, and within an item in the
   * order of the table, each exactly once and none left out.
   */
  lemma ReadingsInOrder(c: Config, id: PluginId, fs: seq<FieldInfo>, payload: Value) returns (slots: seq<Slot>)
    ensures var rs := ReadingsOf(c, id, fs, payload);
            && |slots| == |rs|
            && (forall k :: 0 <= k < |rs| ==> SlotShows(c, id, fs, payload, slots[k], rs[k]))
            && (forall i, j :: 0 <= i < j < |slots| ==> Before(slots[i], slots[j]))
            && (forall slot, r :: SlotShows(c, id, fs, payload, slot, r) ==> slot in slots)
  {
    match KeyField(id)
    case None => slots := ScalarInOrder(c, id, fs, payload);
    case Some(pk) =>
      match Get(payload, "data")
      case Some(Arr(items)) => slots := CollectionInOrder(c, id, fs, payload, pk, items);
      case _ => slots := [];
  }
}
