/** What holds of any sequence of `observe` calls under one configuration (src/alerts.rs:254-369). */
module AlertRuns {
  import opened Wrappers
  import opened Plugins
  import opened Configs
  import opened Levels
  import opened Json
  import opened Hysteresis
  import opened Engine
  import opened Observations
  import opened Alerts

  datatype Call = Call(id: PluginId, payload: Value, now: int, wall: int)

  function CycleOf(c: Config, call: Call): seq<Micro> {
    Cycle(c, call.id, AlertFields(call.id), call.payload, call.now, call.wall)
  }

  predicate SkipsCall(c: Config, call: Call) {
    Skips(c, call.id, AlertFields(call.id))
  }

  /** The engine after a sequence of calls, each taking its early return when it can. */
  function ObserveAll(c: Config, calls: seq<Call>, p: Policy): State {
    if calls == [] then START
    else
      var last := calls[|calls| - 1];
      Observed(ObserveAll(c, calls[..|calls| - 1], p), c, last.id, AlertFields(last.id), last.payload, last.now,
               last.wall, p)
  }

  function StepsOfCall(c: Config, call: Call): seq<Micro> {
    if SkipsCall(c, call) then [] else CycleOf(c, call)
  }

  function StepsBy(c: Config): Call -> seq<Micro> {
    (call: Call) => StepsOfCall(c, call)
  }

  function StepsVia(calls: seq<Call>, steps: Call -> seq<Micro>): seq<Micro> {
    if calls == [] then [] else StepsVia(calls[..|calls| - 1], steps) + steps(calls[|calls| - 1])
  }

  /** The steps those calls make. */
  function StepsOf(c: Config, calls: seq<Call>): seq<Micro> {
    StepsVia(calls, StepsBy(c))
  }

  /** Every sequence of calls is a run of the engine, so the run theorems hold of it. */
  lemma {:induction false} CallsAreARun(c: Config, calls: seq<Call>, p: Policy)
    ensures ObserveAll(c, calls, p) == Run(StepsOf(c, calls), p)
    decreases |calls|
  {
    if calls != [] {
      var last, before := calls[|calls| - 1], calls[..|calls| - 1];
      CallsAreARun(c, before, p);
      if SkipsCall(c, last) {
        assert StepsOf(c, calls) == StepsOf(c, before);
      } else {
        RunFromAppend(START, StepsOf(c, before), CycleOf(c, last), p);
      }
    }
  }

  // ---------------------------------------------------------------------
  // The early return is a sound fast path
  // ---------------------------------------------------------------------

  lemma NothingResolves(c: Config, id: PluginId, item: Option<string>, fs: seq<FieldInfo>, i: nat)
    requires Skips(c, id, fs) && i < |fs| && DistinctFields(fs)
    requires fs == AlertFields(id)
    ensures Resolve(c, id, item, fs[i].field).None?
  {
    ResolveIsMerge(c, id, item, fs[i].field);
    var found := Find(fs, fs[i].field);
    assert found.Some? ==> found.value in fs;
  }

  lemma {:induction false} NoFieldReadings(c: Config, id: PluginId, item: Option<string>, fs: seq<FieldInfo>,
                                           stats: Value)
    requires forall i :: 0 <= i < |fs| ==> Resolve(c, id, item, fs[i].field).None?
    ensures FieldReadings(c, id, item, fs, stats) == [] && FieldLevels(c, id, item, fs, stats) == map[]
    decreases |fs|
  {
    if fs != [] { NoFieldReadings(c, id, item, fs[..|fs| - 1], stats); }
  }

  lemma {:induction false} NoCollectionReadings(c: Config, id: PluginId, pk: string, fs: seq<FieldInfo>,
                                                items: seq<Value>)
    requires forall item, i :: 0 <= i < |fs| ==> Resolve(c, id, item, fs[i].field).None?
    ensures CollectionReadings(c, id, pk, fs, items) == [] && CollectionLevels(c, id, pk, fs, items) == map[]
    decreases |items|
  {
    if items != [] {
      var last := items[|items| - 1];
      NoCollectionReadings(c, id, pk, fs, items[..|items| - 1]);
      NoFieldReadings(c, id, ItemKey(last, pk), fs, last);
    }
  }

  /** When the early return fires, nothing resolves and the full path would find no level. */
  lemma SkippedReadsNothing(c: Config, id: PluginId, payload: Value)
    requires Skips(c, id, AlertFields(id))
    ensures forall item: Option<string>, f: FieldInfo :: f in AlertFields(id) ==> Resolve(c, id, item, f.field).None?
    ensures LevelsOf(c, id, AlertFields(id), payload) == map[]
    ensures ReadingsOf(c, id, AlertFields(id), payload) == []
  {
    var fs := AlertFields(id);
    TableIsSound(id);
    forall item: Option<string>, i | 0 <= i < |fs| ensures Resolve(c, id, item, fs[i].field).None? {
      NothingResolves(c, id, item, fs, i);
    }
    NoFieldReadings(c, id, None, fs, payload);
    match KeyField(id)
    case None =>
    case Some(pk) => NoCollectionReadings(c, id, pk, fs, ItemsOf(payload));
  }

  /** No limit is written down for the plugin, for all its items or for one. */
  predicate NothingWritten(c: Config, id: PluginId) {
    Name(id) in c.plugins ==>
      c.plugins[Name(id)].thresholds == map[] && c.plugins[Name(id)].thresholdsByItem == map[]
  }

  lemma BuiltinResolves(c: Config, id: PluginId, info: FieldInfo)
    requires NothingWritten(c, id) && info in AlertFields(id)
    ensures c.useBuiltinDefaults && info.defaults.Some? ==> Resolve(c, id, None, info.field).Some?
  {
    LimitInForce(c, id, None, info, Critical);
  }

  /**
   * The early return fires exactly when the plugin watches nothing, or when nothing is written down for it
   * and so no limit is in force for any field of any item.
   */
  lemma SkipsExactly(c: Config, id: PluginId, payload: Value)
    ensures Skips(c, id, AlertFields(id)) <==>
            || AlertFields(id) == []
            || (NothingWritten(c, id)
                && forall item: Option<string>, f: FieldInfo :: f in AlertFields(id) ==>
                     Resolve(c, id, item, f.field).None?)
  {
    if Skips(c, id, AlertFields(id)) { SkippedReadsNothing(c, id, payload); }
    if NothingWritten(c, id) {
      forall f <- AlertFields(id)
        ensures c.useBuiltinDefaults && f.defaults.Some? ==> Resolve(c, id, None, f.field).Some?
      {
        BuiltinResolves(c, id, f);
      }
    }
  }

  /** The payload that the full path gives back. */
  function Decorated(c: Config, id: PluginId, payload: Value): Value
    requires payload.Obj?
  {
    Obj(payload.members["_levels" := Obj(LevelsOf(c, id, AlertFields(id), payload))])
  }

  /** The early return gives back the full path's payload exactly when `_levels` came in empty, as plugins make it. */
  lemma SkippedPayloadExactly(c: Config, id: PluginId, payload: Value)
    requires Skips(c, id, AlertFields(id)) && payload.Obj?
    ensures Decorated(c, id, payload) == payload <==> Get(payload, "_levels") == Some(Obj(map[]))
  {
    SkippedReadsNothing(c, id, payload);
    var full := payload.members["_levels" := Obj(map[])];
    if Get(payload, "_levels") == Some(Obj(map[])) {
      assert full == payload.members;
    } else {
      assert "_levels" in full && full["_levels"] == Obj(map[]);
    }
  }

  /** The engine after the same calls, had `observe` no early return. */
  function ObserveAllFully(c: Config, calls: seq<Call>, p: Policy): State {
    if calls == [] then START
    else RunFrom(ObserveAllFully(c, calls[..|calls| - 1], p), CycleOf(c, calls[|calls| - 1]), p)
  }

  /** Equal but for when skipped plugins were last seen. */
  ghost predicate SameBut(c: Config, s: State, t: State) {
    && s.cells == t.cells && s.history == t.history
    && forall id: PluginId :: !Skips(c, id, AlertFields(id)) ==> Lookup(s.lastSeen, id) == Lookup(t.lastSeen, id)
  }

  ghost predicate NoSkippedEntries(c: Config, s: State) {
    forall k :: k in s.cells ==> !Skips(c, k.plugin, AlertFields(k.plugin))
  }

  function PluginOf(m: Micro): PluginId {
    if m.Tick? then m.plugin else m.key.plugin
  }

  lemma SameStep(c: Config, s: State, t: State, m: Micro, p: Policy)
    requires SameBut(c, s, t) && NoSkippedEntries(c, s) && !Skips(c, PluginOf(m), AlertFields(PluginOf(m)))
    ensures SameBut(c, Step(s, m, p), Step(t, m, p)) && NoSkippedEntries(c, Step(s, m, p))
  {
  }

  lemma {:induction false} SameRun(c: Config, s: State, t: State, ms: seq<Micro>, p: Policy)
    requires SameBut(c, s, t) && NoSkippedEntries(c, s)
    requires forall i :: 0 <= i < |ms| ==> !Skips(c, PluginOf(ms[i]), AlertFields(PluginOf(ms[i])))
    ensures SameBut(c, RunFrom(s, ms, p), RunFrom(t, ms, p)) && NoSkippedEntries(c, RunFrom(s, ms, p))
    decreases |ms|
  {
    if ms != [] {
      var n := |ms| - 1;
      SameRun(c, s, t, ms[..n], p);
      SameStep(c, RunFrom(s, ms[..n], p), RunFrom(t, ms[..n], p), ms[n], p);
    }
  }

  lemma SkippedTick(c: Config, s: State, t: State, m: Micro, p: Policy)
    requires SameBut(c, s, t) && NoSkippedEntries(c, s) && m.Tick? && Skips(c, m.plugin, AlertFields(m.plugin))
    ensures SameBut(c, s, Step(t, m, p))
  {
    assert Step(t, m, p).cells == t.cells;
  }

  /**
   * The early return changes nothing observable over whole runs: the same entries, the same
   * journal, and the same clock for every plugin that has thresholds.
   */
  lemma {:induction false} FastPathRefines(c: Config, calls: seq<Call>, p: Policy)
    ensures SameBut(c, ObserveAll(c, calls, p), ObserveAllFully(c, calls, p))
    ensures NoSkippedEntries(c, ObserveAll(c, calls, p))
    decreases |calls|
  {
    if calls != [] {
      var last, before := calls[|calls| - 1], calls[..|calls| - 1];
      var s, t := ObserveAll(c, before, p), ObserveAllFully(c, before, p);
      FastPathRefines(c, before, p);
      var ms := CycleOf(c, last);
      if SkipsCall(c, last) {
        SkippedReadsNothing(c, last.id, last.payload);
        var tick := Tick(last.id, last.now, LiveOf(last.id, last.payload));
        assert ms == [tick] + [];
        RunFromCons(t, tick, [], p);
        SkippedTick(c, s, t, tick, p);
      } else {
        SameRun(c, s, t, ms, p);
      }
    }
  }

  // ---------------------------------------------------------------------
  // Entries stay within the current payload
  // ---------------------------------------------------------------------

  /** The payload has the item of `k`; a plugin without items has nothing to miss. */
  ghost predicate Present(k: Key, payload: Value) {
    match KeyField(k.plugin)
    case None => true
    case Some(pk) =>
      match Get(payload, "data")
      case Some(Arr(items)) =>
        k.item.Some? && exists i :: 0 <= i < |items| && Named(items[i], pk, k.item.value)
      case _ => false
  }

  lemma PresentIsLive(k: Key, payload: Value)
    requires Tabled(k)
    ensures var live := LiveOf(k.plugin, payload);
            Present(k, payload) <==> (live.Some? ==> k.item.Some? && k.item.value in live.value)
  {
    if KeyField(k.plugin).Some? {
      var pk, items := KeyField(k.plugin).value, ItemsOf(payload);
      forall i | 0 <= i < |items|
        ensures ItemKey(items[i], pk) == k.item <==> Named(items[i], pk, k.item.value)
      {
        KeyIsName(items[i], pk, k.item.value);
      }
    }
  }

  /** Some reading of `k` is taken from the payload. */
  ghost predicate Read(c: Config, k: Key, payload: Value) {
    exists r :: Supports(c, k.plugin, AlertFields(k.plugin), payload, r) && r.item == k.item && r.info.field == k.field
  }

  /** An entry names a watched field, and an item where the plugin has items. */
  ghost predicate Tabled(k: Key) {
    k.field in FieldNamesOf(AlertFields(k.plugin)) && (KeyField(k.plugin).Some? ==> k.item.Some?)
  }

  lemma SupportedIsPresent(c: Config, id: PluginId, payload: Value, r: Reading)
    requires Supports(c, id, AlertFields(id), payload, r)
    ensures Tabled(Key(id, r.item, r.info.field)) && Present(Key(id, r.item, r.info.field), payload)
  {
    var i :| 0 <= i < |AlertFields(id)| && AlertFields(id)[i] == r.info;
  }

  /** Samples make an entry for each key they name, and take none away. */
  lemma {:induction false} SamplesAddTheirKeys(s: State, ms: seq<Micro>, p: Policy, k: Key)
    requires forall m <- ms :: m.Sample?
    ensures k in RunFrom(s, ms, p).cells <==> k in s.cells || exists m <- ms :: m.key == k
    decreases |ms|
  {
    if ms != [] {
      var n := |ms| - 1;
      SamplesAddTheirKeys(s, ms[..n], p, k);
      assert ms[n] in ms && forall m <- ms :: m in ms[..n] || m == ms[n];
    }
  }

  lemma SampledExactly(c: Config, call: Call, k: Key)
    requires k.plugin == call.id
    ensures var rs := ReadingsOf(c, call.id, AlertFields(call.id), call.payload);
            (exists m <- Samples(call.id, rs, call.now, call.wall) :: m.key == k) <==> Read(c, k, call.payload)
  {
    var fs := AlertFields(call.id);
    var rs := ReadingsOf(c, call.id, fs, call.payload);
    var samples := Samples(call.id, rs, call.now, call.wall);
    if Read(c, k, call.payload) {
      var r :| Supports(c, call.id, fs, call.payload, r) && r.item == k.item && r.info.field == k.field;
      ReadingsMeaning(c, call.id, fs, call.payload, r);
      var i :| 0 <= i < |rs| && rs[i] == r;
      assert samples[i] in samples && samples[i].key == k;
    }
    if m :| m in samples && m.key == k {
      var i :| 0 <= i < |samples| && samples[i] == m;
      ReadingsMeaning(c, call.id, fs, call.payload, rs[i]);
    }
  }

  /** A tick keeps the entries of its plugin whose items are present. */
  lemma TickKeepsPresent(s: State, call: Call, p: Policy, k: Key)
    requires k.plugin == call.id && Tabled(k)
    ensures k in Step(s, Tick(call.id, call.now, LiveOf(call.id, call.payload)), p).cells <==>
            k in s.cells && Present(k, call.payload)
  {
    PresentIsLive(k, call.payload);
  }

  lemma ReadIsTabled(c: Config, k: Key, payload: Value)
    requires Read(c, k, payload)
    ensures Tabled(k) && Present(k, payload)
  {
    var r :| Supports(c, k.plugin, AlertFields(k.plugin), payload, r) && r.item == k.item && r.info.field == k.field;
    SupportedIsPresent(c, k.plugin, payload, r);
  }

  /** Which entries of its plugin a full cycle leaves. */
  lemma CycleEntries(c: Config, s: State, call: Call, p: Policy, k: Key)
    requires k.plugin == call.id && (k in s.cells ==> Tabled(k))
    ensures k in RunFrom(s, CycleOf(c, call), p).cells <==>
            Tabled(k) && Present(k, call.payload) && (k in s.cells || Read(c, k, call.payload))
  {
    var tick := Tick(call.id, call.now, LiveOf(call.id, call.payload));
    var samples := Samples(call.id, ReadingsOf(c, call.id, AlertFields(call.id), call.payload), call.now, call.wall);
    RunFromCons(s, tick, samples, p);
    SamplesAddTheirKeys(Step(s, tick, p), samples, p, k);
    SampledExactly(c, call, k);
    if Tabled(k) { TickKeepsPresent(s, call, p, k); }
    if Read(c, k, call.payload) { ReadIsTabled(c, k, call.payload); }
  }

  lemma StepElsewhere(s: State, m: Micro, p: Policy, k: Key)
    requires PluginOf(m) != k.plugin
    ensures k in Step(s, m, p).cells <==> k in s.cells
    ensures CellAt(Step(s, m, p), k) == CellAt(s, k)
  {
  }

  /** A cycle touches no entry of any other plugin. */
  lemma {:induction false} OtherPluginsUntouched(s: State, ms: seq<Micro>, p: Policy, k: Key)
    requires forall m <- ms :: PluginOf(m) != k.plugin
    ensures k in RunFrom(s, ms, p).cells <==> k in s.cells
    ensures CellAt(RunFrom(s, ms, p), k) == CellAt(s, k)
    decreases |ms|
  {
    if ms != [] {
      var n := |ms| - 1;
      assert ms[n] in ms && forall m <- ms[..n] :: m in ms;
      OtherPluginsUntouched(s, ms[..n], p, k);
      StepElsewhere(RunFrom(s, ms[..n], p), ms[n], p, k);
    }
  }

  lemma CycleIsOfItsPlugin(c: Config, call: Call)
    ensures forall m <- CycleOf(c, call) :: PluginOf(m) == call.id
  {
  }

  /** Entries always name a watched field, and an item where the plugin has items. */
  lemma {:induction false} EntriesTabled(c: Config, calls: seq<Call>, p: Policy, k: Key)
    requires k in ObserveAll(c, calls, p).cells
    ensures Tabled(k)
    decreases |calls|
  {
    var last, before := calls[|calls| - 1], calls[..|calls| - 1];
    var s := ObserveAll(c, before, p);
    if k in s.cells {
      EntriesTabled(c, before, p, k);
    } else if k.plugin == last.id {
      CycleEntries(c, s, last, p, k);
    } else {
      CycleIsOfItsPlugin(c, last);
      OtherPluginsUntouched(s, CycleOf(c, last), p, k);
    }
  }

  /**
   * After any sequence of calls ending in a full cycle of a plugin, its entries are those of watched fields
   * whose item the payload has, and which were there before or are read now. No other plugin's entry changes.
   */
  lemma EntriesWithinPayload(c: Config, calls: seq<Call>, p: Policy, k: Key)
    requires calls != [] && !SkipsCall(c, calls[|calls| - 1])
    ensures var last := calls[|calls| - 1];
            var s, t := ObserveAll(c, calls[..|calls| - 1], p), ObserveAll(c, calls, p);
            if k.plugin == last.id then
              k in t.cells <==> Tabled(k) && Present(k, last.payload) && (k in s.cells || Read(c, k, last.payload))
            else (k in t.cells <==> k in s.cells) && CellAt(t, k) == CellAt(s, k)
  {
    var last, before := calls[|calls| - 1], calls[..|calls| - 1];
    var s := ObserveAll(c, before, p);
    if k.plugin == last.id {
      if k in s.cells { EntriesTabled(c, before, p, k); }
      CycleEntries(c, s, last, p, k);
    } else {
      CycleIsOfItsPlugin(c, last);
      OtherPluginsUntouched(s, CycleOf(c, last), p, k);
    }
  }

  // ---------------------------------------------------------------------
  // Every event is about a payload, and every supported reading is judged
  // ---------------------------------------------------------------------

  /** Every event of the unbounded journal was emitted by some sample. */
  lemma {:induction false} LogIsEmitted(ms: seq<Micro>, p: Policy, e: Event) returns (i: nat)
    requires e in Log(ms, p)
    ensures i < |ms| && EmittedAt(ms, i, p) == Some(e)
    decreases |ms|
  {
    var n := |ms| - 1;
    if EmittedAt(ms, n, p) == Some(e) { return n; }
    i := LogIsEmitted(ms[..n], p, e);
    assert ms[..n][..i] == ms[..i];
  }

  lemma {:induction false} CallOfStep(calls: seq<Call>, steps: Call -> seq<Micro>, m: Micro) returns (j: nat)
    requires m in StepsVia(calls, steps)
    ensures j < |calls| && m in steps(calls[j])
    decreases |calls|
  {
    var n := |calls| - 1;
    if m in steps(calls[n]) { return n; }
    j := CallOfStep(calls[..n], steps, m);
  }

  lemma {:induction false} PlaceOfStep(calls: seq<Call>, steps: Call -> seq<Micro>, j: nat, k: nat) returns (i: nat)
    requires j < |calls| && k < |steps(calls[j])|
    ensures i < |StepsVia(calls, steps)| && StepsVia(calls, steps)[i] == steps(calls[j])[k]
    decreases |calls|
  {
    var n := |calls| - 1;
    if j == n { return |StepsVia(calls[..n], steps)| + k; }
    i := PlaceOfStep(calls[..n], steps, j, k);
  }

  lemma SampleOfReading(id: PluginId, rs: seq<Reading>, now: int, wall: int, live: Option<set<string>>, m: Micro)
    returns (r: Reading)
    requires m.Sample? && m in [Tick(id, now, live)] + Samples(id, rs, now, wall)
    ensures r in rs && m == ToSample(id, r, now, wall)
  {
    var i :| 0 <= i < |rs| && Samples(id, rs, now, wall)[i] == m;
    r := rs[i];
  }

  lemma SampleOfCall(c: Config, call: Call, m: Micro) returns (r: Reading)
    requires m in StepsOfCall(c, call) && m.Sample?
    ensures !SkipsCall(c, call) && Supports(c, call.id, AlertFields(call.id), call.payload, r)
    ensures m == ToSample(call.id, r, call.now, call.wall)
  {
    var fs := AlertFields(call.id);
    r := SampleOfReading(call.id, ReadingsOf(c, call.id, fs, call.payload), call.now, call.wall,
                         LiveOf(call.id, call.payload), m);
    ReadingsMeaning(c, call.id, fs, call.payload, r);
  }

  /** Where a sample of some calls comes from. */
  lemma SampleOfCalls(c: Config, calls: seq<Call>, m: Micro) returns (call: Call, r: Reading)
    requires m in StepsOf(c, calls) && m.Sample?
    ensures call in calls && !SkipsCall(c, call)
    ensures Supports(c, call.id, AlertFields(call.id), call.payload, r)
    ensures m == ToSample(call.id, r, call.now, call.wall)
  {
    var j := CallOfStep(calls, StepsBy(c), m);
    call := calls[j];
    r := SampleOfCall(c, call, m);
  }

  /** What an event tells of a reading taken in a call. */
  predicate Tells(e: Event, call: Call, r: Reading, p: Policy) {
    && e.key == Key(call.id, r.item, r.info.field) && e.level == r.level && e.value == r.raw
    && e.prominent == r.info.prominent && e.ts == p.stamp(call.wall) && e.hostname == p.hostname
  }

  lemma EmittedTells(ms: seq<Micro>, i: nat, p: Policy, call: Call, r: Reading)
    requires i < |ms| && ms[i] == ToSample(call.id, r, call.now, call.wall) && EmittedAt(ms, i, p).Some?
    ensures Tells(EmittedAt(ms, i, p).value, call, r, p)
  {
    EventsMeetSpec(ms, i, p);
  }

  /**
   * Over any sequence of calls, each event ever journalled tells the level and the raw value that a
   * watched field shows in the payload of one of the calls.
   */
  lemma EventsComeFromPayloads(c: Config, calls: seq<Call>, p: Policy, e: Event) returns (call: Call, r: Reading)
    requires e in Log(StepsOf(c, calls), p)
    ensures call in calls && !SkipsCall(c, call)
    ensures Supports(c, call.id, AlertFields(call.id), call.payload, r) && Tells(e, call, r, p)
  {
    var ms := StepsOf(c, calls);
    var i := LogIsEmitted(ms, p, e);
    call, r := SampleOfCalls(c, calls, ms[i]);
    EmittedTells(ms, i, p, call, r);
  }

  lemma SampleOfCycle(c: Config, call: Call, n: nat)
    requires n < |ReadingsOf(c, call.id, AlertFields(call.id), call.payload)|
    ensures n + 1 < |CycleOf(c, call)|
    ensures var rs := ReadingsOf(c, call.id, AlertFields(call.id), call.payload);
            CycleOf(c, call)[n + 1] == ToSample(call.id, rs[n], call.now, call.wall)
  {
  }

  /** Whatever a payload supports is sampled. */
  lemma SupportedIsSampled(c: Config, calls: seq<Call>, j: nat, r: Reading) returns (i: nat)
    requires j < |calls| && !SkipsCall(c, calls[j])
    requires Supports(c, calls[j].id, AlertFields(calls[j].id), calls[j].payload, r)
    ensures i < |StepsOf(c, calls)|
    ensures StepsOf(c, calls)[i] == ToSample(calls[j].id, r, calls[j].now, calls[j].wall)
  {
    var call, fs := calls[j], AlertFields(calls[j].id);
    var rs := ReadingsOf(c, call.id, fs, call.payload);
    ReadingsMeaning(c, call.id, fs, call.payload, r);
    var k :| 0 <= k < |rs| && rs[k] == r;
    SampleOfCycle(c, call, k);
    i := PlaceOfStep(calls, StepsBy(c), j, k + 1);
  }

  lemma SampleIsJudged(ms: seq<Micro>, i: nat, p: Policy, call: Call, r: Reading)
    requires i < |ms| && ms[i] == ToSample(call.id, r, call.now, call.wall)
    ensures Judged(ms, i, p, call, r)
  {
    EventsMeetSpec(ms, i, p);
  }

  /** Step `i` journals `r` exactly when its level is new to its triple and has persisted. */
  ghost predicate Judged(ms: seq<Micro>, i: nat, p: Policy, call: Call, r: Reading)
    requires i < |ms|
  {
    var key, e := Key(call.id, r.item, r.info.field), EmittedAt(ms, i, p);
    && (e.Some? <==> CommitsLast(Life(ms[..i], key, p) + [Seen(r.level, call.now)], p.minDuration(key.plugin)))
    && (e.Some? ==> Tells(e.value, call, r, p))
  }

  /**
   * Over any sequence of calls, whatever a watched field shows in a payload is sampled, and it is
   * journalled exactly when its level is new to its triple and has persisted.
   */
  lemma SupportedReadingsAreJudged(c: Config, calls: seq<Call>, p: Policy, j: nat, r: Reading) returns (i: nat)
    requires j < |calls| && !SkipsCall(c, calls[j])
    requires Supports(c, calls[j].id, AlertFields(calls[j].id), calls[j].payload, r)
    ensures i < |StepsOf(c, calls)| && Judged(StepsOf(c, calls), i, p, calls[j], r)
    ensures StepsOf(c, calls)[i] == ToSample(calls[j].id, r, calls[j].now, calls[j].wall)
  {
    i := SupportedIsSampled(c, calls, j, r);
    SampleIsJudged(StepsOf(c, calls), i, p, calls[j], r);
  }
}
