/**
 * The alert engine as a machine over small steps, and what holds of all its runs
 * (src/alerts.rs:205-211, 290-304, 346-367).
 *
 * A cycle of `observe` is one `Tick`, which resets idle windows and prunes vanished
 * items, followed by one `Sample` per computed level. A run is any sequence of steps.
 */
module Engine {
  import opened Wrappers
  import opened Plugins
  import opened Levels
  import opened Hysteresis

  /** `StateKey`: the triple that owns one hysteresis state. */
  datatype Key = Key(plugin: PluginId, item: Option<string>, field: string)

  datatype Event = Event(
    ts: string,
    key: Key,
    level: Level,
    previousLevel: Level,
    value: real,
    prominent: bool,
    isInitial: bool,
    hostname: string)

  datatype Micro =
    | Tick(plugin: PluginId, now: int, live: Option<set<string>>)
    | Sample(key: Key, level: Level, raw: real, prominent: bool, now: int, wall: int)

  /** What the configuration fixes for a whole run. */
  datatype Policy = Policy(
    refresh: PluginId -> nat,
    minDuration: PluginId -> nat,
    historySize: nat,
    hostname: string,
    stamp: int -> string)

  datatype State = State(cells: map<Key, Snapshot>, lastSeen: map<PluginId, int>, history: seq<Event>)

  const START := State(map[], map[], [])

  // ---------------------------------------------------------------------
  // Steps
  // ---------------------------------------------------------------------

  /** More than two refresh periods since the previous cycle of the plugin. */
  predicate IdleGap(previous: Option<int>, now: int, refresh: nat) {
    previous.Some? && now - previous.value > 2 * refresh
  }

  function Lookup(lastSeen: map<PluginId, int>, id: PluginId): Option<int> {
    if id in lastSeen then Some(lastSeen[id]) else None
  }

  /** Whether the entry of `k` survives the pruning of a tick. */
  predicate Keeps(k: Key, plugin: PluginId, live: Option<set<string>>) {
    k.plugin != plugin || live.None? || k.item.None? || k.item.value in live.value
  }

  function ResetIdle(s: State, id: PluginId, now: int, refresh: nat): State {
    var gap := IdleGap(Lookup(s.lastSeen, id), now, refresh);
    s.(cells := map k | k in s.cells :: if gap && k.plugin == id then Forget(s.cells[k]) else s.cells[k],
       lastSeen := s.lastSeen[id := now])
  }

  function Prune(s: State, id: PluginId, live: Option<set<string>>): State {
    s.(cells := map k | k in s.cells && Keeps(k, id, live) :: s.cells[k])
  }

  function CellAt(s: State, k: Key): Snapshot {
    if k in s.cells then s.cells[k] else DEFAULT
  }

  function LastN<T>(s: seq<T>, n: nat): seq<T> {
    if |s| <= n then s else s[|s| - n..]
  }

  function BuildEvent(key: Key, tr: Transition, raw: real, prominent: bool, wall: int, p: Policy): Event {
    Event(p.stamp(wall), key, tr.current, tr.previous, raw, prominent, tr.isInitial, p.hostname)
  }

  /** The event a sample appends to the journal, if any. */
  function Emitted(s: State, m: Micro, p: Policy): Option<Event> {
    if m.Tick? then None
    else
      match Advance(CellAt(s, m.key), m.level, m.now, p.minDuration(m.key.plugin)).1
      case None => None
      case Some(tr) => Some(BuildEvent(m.key, tr, m.raw, m.prominent, m.wall, p))
  }

  function Push(history: seq<Event>, e: Option<Event>, size: nat): seq<Event> {
    if e.Some? then LastN(history + [e.value], size) else history
  }

  function Step(s: State, m: Micro, p: Policy): State {
    match m
    case Tick(id, now, live) => Prune(ResetIdle(s, id, now, p.refresh(id)), id, live)
    case Sample(key, level, _, _, now, _) =>
      s.(cells := s.cells[key := Advance(CellAt(s, key), level, now, p.minDuration(key.plugin)).0],
         history := Push(s.history, Emitted(s, m, p), p.historySize))
  }

  function RunFrom(s: State, ms: seq<Micro>, p: Policy): State {
    if ms == [] then s else Step(RunFrom(s, ms[..|ms| - 1], p), ms[|ms| - 1], p)
  }

  function Run(ms: seq<Micro>, p: Policy): State {
    RunFrom(START, ms, p)
  }

  lemma {:induction false} RunFromAppend(s: State, a: seq<Micro>, b: seq<Micro>, p: Policy)
    ensures RunFrom(s, a + b, p) == RunFrom(RunFrom(s, a, p), b, p)
    decreases |b|
  {
    if b == [] {
      assert a + b == a;
    } else {
      var n := |b|;
      assert (a + b)[..|a + b| - 1] == a + b[..n - 1];
      RunFromAppend(s, a, b[..n - 1], p);
    }
  }

  lemma RunFromNext(s: State, ms: seq<Micro>, i: nat, p: Policy)
    requires i < |ms|
    ensures RunFrom(s, ms[..i + 1], p) == Step(RunFrom(s, ms[..i], p), ms[i], p)
  {
    assert ms[..i + 1][..i] == ms[..i];
  }

  lemma RunFromCons(s: State, m: Micro, ms: seq<Micro>, p: Policy)
    ensures RunFrom(s, [m] + ms, p) == RunFrom(Step(s, m, p), ms, p)
  {
    RunFromAppend(s, [m], ms, p);
    assert [m][..0] == [];
  }

  // ---------------------------------------------------------------------
  // The journal
  // ---------------------------------------------------------------------

  /** The event emitted by step `i` of a run. */
  function EmittedAt(ms: seq<Micro>, i: nat, p: Policy): Option<Event>
    requires i < |ms|
  {
    Emitted(Run(ms[..i], p), ms[i], p)
  }

  /** Every event of a run, as if the journal were unbounded. */
  function Log(ms: seq<Micro>, p: Policy): seq<Event> {
    if ms == [] then []
    else
      var e := EmittedAt(ms, |ms| - 1, p);
      Log(ms[..|ms| - 1], p) + if e.Some? then [e.value] else []
  }

  lemma {:induction false} HistoryIsLastN(ms: seq<Micro>, p: Policy)
    ensures Run(ms, p).history == LastN(Log(ms, p), p.historySize)
    decreases |ms|
  {
    if ms != [] {
      var prefix := ms[..|ms| - 1];
      HistoryIsLastN(prefix, p);
      var e := EmittedAt(ms, |ms| - 1, p);
      if e.Some? { LastNAppend(Log(prefix, p), e.value, p.historySize); }
    }
  }

  /** The stored journal is always the last `historySize` events of the unbounded one, all of them if fewer. */
  lemma HistoryIsTailOfLog(ms: seq<Micro>, p: Policy)
    ensures var log, kept := Log(ms, p), Run(ms, p).history;
            && |kept| == (if |log| <= p.historySize then |log| else p.historySize)
            && kept == log[|log| - |kept|..]
  {
    HistoryIsLastN(ms, p);
  }

  lemma LastNAppend<T>(s: seq<T>, x: T, n: nat)
    ensures LastN(LastN(s, n) + [x], n) == LastN(s + [x], n)
  {
  }

  // ---------------------------------------------------------------------
  // Triples do not interfere: each is the fold of its own trace
  // ---------------------------------------------------------------------

  /** When the plugin last had a cycle. */
  function LastTick(ms: seq<Micro>, id: PluginId): Option<int> {
    if ms == [] then None
    else
      var last := ms[|ms| - 1];
      if last.Tick? && last.plugin == id then Some(last.now) else LastTick(ms[..|ms| - 1], id)
  }

  /** A cycle of the plugin of `k` no longer lists the item of `k`. */
  ghost predicate Vanishes(k: Key, m: Micro) {
    && m.Tick? && m.plugin == k.plugin
    && m.live.Some? && k.item.Some? && k.item.value !in m.live.value
  }

  /** Two refresh periods have passed since `previous`, and more. */
  ghost predicate TooLate(previous: Option<int>, now: int, refresh: nat) {
    previous.Some? && previous.value + refresh + refresh < now
  }

  /** What a step adds to the life of `k`; `previous` is the previous cycle of its plugin. */
  ghost function LifeStep(life: seq<Item>, m: Micro, previous: Option<int>, k: Key, p: Policy): seq<Item> {
    match m
    case Tick(id, now, live) =>
      if Vanishes(k, m) then []
      else if id == k.plugin && TooLate(previous, now, p.refresh(id)) then life + [Gap]
      else life
    case Sample(key, level, _, _, now, _) =>
      if key == k then life + [Seen(level, now)] else life
  }

  /** What one triple has gone through since its entry was last pruned. */
  ghost function Life(ms: seq<Micro>, k: Key, p: Policy): seq<Item> {
    if ms == [] then []
    else
      var prefix := ms[..|ms| - 1];
      LifeStep(Life(prefix, k, p), ms[|ms| - 1], LastTick(prefix, k.plugin), k, p)
  }

  ghost predicate SawAny(items: seq<Item>) {
    exists i :: 0 <= i < |items| && items[i].Seen?
  }

  lemma {:induction false} LastSeenIsLastTick(ms: seq<Micro>, id: PluginId, p: Policy)
    ensures Lookup(Run(ms, p).lastSeen, id) == LastTick(ms, id)
    decreases |ms|
  {
    if ms != [] { LastSeenIsLastTick(ms[..|ms| - 1], id, p); }
  }

  lemma FoldAppend(items: seq<Item>, item: Item, minDuration: nat)
    ensures Fold(items + [item], minDuration) == StepItem(Fold(items, minDuration), item, minDuration)
  {
    assert (items + [item])[..|items|] == items;
  }

  lemma SawAnyAppend(items: seq<Item>, item: Item)
    ensures SawAny(items + [item]) <==> SawAny(items) || item.Seen?
  {
    if SawAny(items) {
      var i :| 0 <= i < |items| && items[i].Seen?;
      assert (items + [item])[i].Seen?;
    }
    if item.Seen? { assert (items + [item])[|items|].Seen?; }
  }

  /** One step moves the entry of `k` as it moves the life of `k`. */
  lemma StepIsLifeStep(s: State, life: seq<Item>, m: Micro, k: Key, p: Policy)
    requires CellAt(s, k) == Fold(life, p.minDuration(k.plugin))
    requires k in s.cells <==> SawAny(life)
    ensures var after := LifeStep(life, m, Lookup(s.lastSeen, k.plugin), k, p);
            && CellAt(Step(s, m, p), k) == Fold(after, p.minDuration(k.plugin))
            && (k in Step(s, m, p).cells <==> SawAny(after))
  {
    var md := p.minDuration(k.plugin);
    match m
    case Tick(id, now, live) =>
      FoldAppend(life, Gap, md);
      SawAnyAppend(life, Gap);
    case Sample(key, level, _, _, now, _) =>
      FoldAppend(life, Seen(level, now), md);
      SawAnyAppend(life, Seen(level, now));
  }

  /**
   * The engine's state of a triple is the debounce machine run over that triple's own
   * life, and an entry exists exactly when something was observed in it.
   */
  lemma {:induction false} CellIsLife(ms: seq<Micro>, k: Key, p: Policy)
    ensures CellAt(Run(ms, p), k) == Fold(Life(ms, k, p), p.minDuration(k.plugin))
    ensures k in Run(ms, p).cells <==> SawAny(Life(ms, k, p))
    decreases |ms|
  {
    if ms != [] {
      var prefix := ms[..|ms| - 1];
      CellIsLife(prefix, k, p);
      LastSeenIsLastTick(prefix, k.plugin, p);
      StepIsLifeStep(Run(prefix, p), Life(prefix, k, p), ms[|ms| - 1], k, p);
    }
  }

  /**
   * Whole runs meet the trace specification: a sample is journalled exactly when its
   * level is new to its triple and has persisted, and the event says what happened.
   */
  lemma EventsMeetSpec(ms: seq<Micro>, i: nat, p: Policy)
    requires i < |ms| && ms[i].Sample?
    ensures var m := ms[i];
            var md := p.minDuration(m.key.plugin);
            var before := Life(ms[..i], m.key, p);
            var e := EmittedAt(ms, i, p);
            && (e.Some? <==> CommitsLast(before + [Seen(m.level, m.now)], md))
            && (e.Some? ==>
                  && e.value.key == m.key && e.value.level == m.level && e.value.value == m.raw
                  && e.value.ts == p.stamp(m.wall) && e.value.prominent == m.prominent && e.value.hostname == p.hostname
                  && e.value.previousLevel == Committed(before, md)
                  && (e.value.isInitial <==> Transitions(before, md) == [] && !SawOkay(before)))
  {
    var m := ms[i];
    var md := p.minDuration(m.key.plugin);
    var before := Life(ms[..i], m.key, p);
    var after := before + [Seen(m.level, m.now)];
    assert after[..|before|] == before;
    CellIsLife(ms[..i], m.key, p);
    FoldMeetsSpec(before, md);
    FoldMeetsSpec(after, md);
    TransitionsChain(after, md);
  }

  // ---------------------------------------------------------------------
  // Chaining of the journal
  // ---------------------------------------------------------------------

  ghost function EventsStep(es: seq<Event>, m: Micro, e: Option<Event>, k: Key): seq<Event> {
    if Vanishes(k, m) then []
    else es + if e.Some? && e.value.key == k then [e.value] else []
  }

  /** The events of one triple since its entry was last pruned. */
  ghost function LifeEvents(ms: seq<Micro>, k: Key, p: Policy): seq<Event> {
    if ms == [] then []
    else EventsStep(LifeEvents(ms[..|ms| - 1], k, p), ms[|ms| - 1], EmittedAt(ms, |ms| - 1, p), k)
  }

  function ChangeOf(e: Event): Transition {
    Transition(e.previousLevel, e.level, e.isInitial)
  }

  function Changes(es: seq<Event>): seq<Transition> {
    seq(|es|, i requires 0 <= i < |es| => ChangeOf(es[i]))
  }

  lemma ChangesAppend(es: seq<Event>, e: Event)
    ensures Changes(es + [e]) == Changes(es) + [ChangeOf(e)]
  {
  }

  lemma TransitionsAppend(items: seq<Item>, item: Item, minDuration: nat)
    ensures var tr := LastTransition(items + [item], minDuration);
            Transitions(items + [item], minDuration) ==
            Transitions(items, minDuration) + if tr.Some? then [tr.value] else []
  {
    assert (items + [item])[..|items|] == items;
  }

  /** The events `es` of `k` are the transitions of its life, and its entry is the end of that life. */
  ghost predicate EventsMatch(s: State, life: seq<Item>, es: seq<Event>, k: Key, p: Policy) {
    && CellAt(s, k) == Fold(life, p.minDuration(k.plugin))
    && Changes(es) == Transitions(life, p.minDuration(k.plugin))
  }

  lemma GapEmitsNothing(life: seq<Item>, minDuration: nat)
    ensures Transitions(life + [Gap], minDuration) == Transitions(life, minDuration)
  {
    TransitionsAppend(life, Gap, minDuration);
  }

  lemma TickEmits(s: State, life: seq<Item>, es: seq<Event>, m: Micro, k: Key, p: Policy)
    requires m.Tick? && EventsMatch(s, life, es, k, p)
    ensures Changes(EventsStep(es, m, None, k)) ==
            Transitions(LifeStep(life, m, Lookup(s.lastSeen, k.plugin), k, p), p.minDuration(k.plugin))
  {
    GapEmitsNothing(life, p.minDuration(k.plugin));
    assert es + [] == es;
  }

  lemma SeenEmits(s: Snapshot, life: seq<Item>, level: Level, now: int, minDuration: nat)
    requires s == Fold(life, minDuration)
    ensures var tr := Advance(s, level, now, minDuration).1;
            Transitions(life + [Seen(level, now)], minDuration) ==
            Transitions(life, minDuration) + if tr.Some? then [tr.value] else []
  {
    TransitionsAppend(life, Seen(level, now), minDuration);
    assert (life + [Seen(level, now)])[..|life|] == life;
  }

  lemma EmittedChange(s: State, m: Micro, p: Policy)
    requires m.Sample?
    ensures var tr := Advance(CellAt(s, m.key), m.level, m.now, p.minDuration(m.key.plugin)).1;
            var e := Emitted(s, m, p);
            && (e.Some? <==> tr.Some?)
            && (e.Some? ==> e.value.key == m.key && ChangeOf(e.value) == tr.value)
  {
  }

  lemma OwnSampleEmits(s: State, life: seq<Item>, es: seq<Event>, m: Micro, p: Policy)
    requires m.Sample? && EventsMatch(s, life, es, m.key, p)
    ensures Changes(EventsStep(es, m, Emitted(s, m, p), m.key)) ==
            Transitions(life + [Seen(m.level, m.now)], p.minDuration(m.key.plugin))
  {
    var e := Emitted(s, m, p);
    SeenEmits(CellAt(s, m.key), life, m.level, m.now, p.minDuration(m.key.plugin));
    EmittedChange(s, m, p);
    if e.Some? { ChangesAppend(es, e.value); } else { assert es + [] == es; }
  }

  lemma ForeignSampleEmits(s: State, es: seq<Event>, m: Micro, k: Key, p: Policy)
    requires m.Sample? && m.key != k
    ensures EventsStep(es, m, Emitted(s, m, p), k) == es
  {
    EmittedChange(s, m, p);
  }

  /** One step emits for `k` what the last item of its life commits. */
  lemma StepEmitsTransition(s: State, life: seq<Item>, es: seq<Event>, m: Micro, k: Key, p: Policy)
    requires EventsMatch(s, life, es, k, p)
    ensures Changes(EventsStep(es, m, Emitted(s, m, p), k)) ==
            Transitions(LifeStep(life, m, Lookup(s.lastSeen, k.plugin), k, p), p.minDuration(k.plugin))
  {
    if m.Tick? {
      TickEmits(s, life, es, m, k, p);
    } else if m.key == k {
      OwnSampleEmits(s, life, es, m, p);
    } else {
      ForeignSampleEmits(s, es, m, k, p);
    }
  }

  /** The events of a lifetime are the transitions of its trace. */
  lemma {:induction false} LifeEventsAreTransitions(ms: seq<Micro>, k: Key, p: Policy)
    ensures Changes(LifeEvents(ms, k, p)) == Transitions(Life(ms, k, p), p.minDuration(k.plugin))
    decreases |ms|
  {
    if ms != [] {
      var prefix := ms[..|ms| - 1];
      LifeEventsAreTransitions(prefix, k, p);
      CellIsLife(prefix, k, p);
      LastSeenIsLastTick(prefix, k.plugin, p);
      StepEmitsTransition(Run(prefix, p), Life(prefix, k, p), LifeEvents(prefix, k, p), ms[|ms| - 1], k, p);
    }
  }

  /** Events that lead from `Okay` to `committed`, each from where the last one ended. */
  ghost predicate LeadsTo(es: seq<Event>, committed: Level) {
    && (forall i :: 0 <= i < |es| ==> es[i].previousLevel == (if i == 0 then Okay else es[i - 1].level))
    && (forall i :: 0 <= i < |es| ==> es[i].level != es[i].previousLevel)
    && (forall i :: 0 < i < |es| ==> !es[i].isInitial)
    && committed == (if es == [] then Okay else es[|es| - 1].level)
  }

  lemma EventsOfChain(es: seq<Event>, ts: seq<Transition>, committed: Level)
    requires ts == Changes(es) && Chained(ts)
    requires committed == if ts == [] then Okay else ts[|ts| - 1].current
    ensures LeadsTo(es, committed)
  {
    forall i | 0 <= i < |es|
      ensures es[i].previousLevel == (if i == 0 then Okay else es[i - 1].level)
      ensures es[i].level != es[i].previousLevel && (0 < i ==> !es[i].isInitial)
    {
      assert Linked(ts, i);
    }
  }

  /** Per lifetime the journal is a chain of real changes from `Okay` to the committed level. */
  lemma JournalChains(ms: seq<Micro>, k: Key, p: Policy)
    ensures LeadsTo(LifeEvents(ms, k, p), CellAt(Run(ms, p), k).committedLevel)
  {
    var life, md := Life(ms, k, p), p.minDuration(k.plugin);
    LifeEventsAreTransitions(ms, k, p);
    CellIsLife(ms, k, p);
    TransitionsChain(life, md);
    EventsOfChain(LifeEvents(ms, k, p), Transitions(life, md), CellAt(Run(ms, p), k).committedLevel);
  }

  function OfKey(es: seq<Event>, k: Key): seq<Event> {
    if es == [] then []
    else OfKey(es[..|es| - 1], k) + if es[|es| - 1].key == k then [es[|es| - 1]] else []
  }

  lemma OfKeyAppend(es: seq<Event>, e: Event, k: Key)
    ensures OfKey(es + [e], k) == OfKey(es, k) + if e.key == k then [e] else []
  {
    assert (es + [e])[..|es|] == es;
  }

  /** The events of the current lifetime are the latest events of the triple in the unbounded journal. */
  lemma {:induction false} LifeEventsEndTheLog(ms: seq<Micro>, k: Key, p: Policy) returns (older: seq<Event>)
    ensures OfKey(Log(ms, p), k) == older + LifeEvents(ms, k, p)
    decreases |ms|
  {
    if ms == [] { return []; }
    var prefix, last := ms[..|ms| - 1], ms[|ms| - 1];
    if Vanishes(k, last) { return OfKey(Log(ms, p), k); }
    older := LifeEventsEndTheLog(prefix, k, p);
    var e := EmittedAt(ms, |ms| - 1, p);
    if e.Some? {
      OfKeyAppend(Log(prefix, p), e.value, k);
    } else {
      assert Log(ms, p) == Log(prefix, p);
      assert LifeEvents(ms, k, p) == LifeEvents(prefix, k, p);
    }
  }

  // ---------------------------------------------------------------------
  // Every event rests on a sustained, uninterrupted window
  // ---------------------------------------------------------------------

  /** Step `i` leaves a window of `k` at `level` standing: same level, item still listed, next cycle in time. */
  ghost predicate Undisturbed(ms: seq<Micro>, i: nat, k: Key, level: Level, p: Policy)
    requires i < |ms|
  {
    StandsThrough(ms[i], LastTick(ms[..i], k.plugin), k, level, p)
  }

  ghost predicate StandsThrough(m: Micro, previous: Option<int>, k: Key, level: Level, p: Policy) {
    match m
    case Sample(key, l, _, _, _, _) => key == k ==> l == level
    case Tick(id, now, _) => !Vanishes(k, m) && (id == k.plugin ==> !TooLate(previous, now, p.refresh(id)))
  }

  ghost predicate Steady(ms: seq<Micro>, from: nat, to: nat, k: Key, level: Level, p: Policy)
    requires from <= to <= |ms|
  {
    forall i :: from <= i < to ==> Undisturbed(ms, i, k, level, p)
  }

  ghost predicate OpensWindow(ms: seq<Micro>, s: nat, k: Key, level: Level, at: int)
    requires s < |ms|
  {
    ms[s].Sample? && ms[s].key == k && ms[s].level == level && ms[s].now == at
  }

  lemma SteadyExtends(ms: seq<Micro>, n: nat, from: nat, k: Key, level: Level, p: Policy)
    requires from <= n < |ms|
    requires Steady(ms[..n], from, n, k, level, p) && Undisturbed(ms, n, k, level, p)
    ensures Steady(ms, from, n + 1, k, level, p)
  {
    forall i | from <= i < n ensures Undisturbed(ms, i, k, level, p) {
      assert Undisturbed(ms[..n], i, k, level, p);
      assert ms[..n][..i] == ms[..i];
    }
  }

  /** A window that is pending after a step was opened by it, or was pending before and is undisturbed. */
  lemma StepKeepsWindow(s: State, m: Micro, k: Key, p: Policy)
    requires CellAt(Step(s, m, p), k).pendingLevel.Some?
    ensures var before, after := CellAt(s, k), CellAt(Step(s, m, p), k);
            if m.Sample? && m.key == k && before.pendingLevel != after.pendingLevel then
              after.pendingLevel == Some(m.level) && after.pendingSince == Some(m.now)
            else
              && before.pendingLevel == after.pendingLevel && before.pendingSince == after.pendingSince
              && StandsThrough(m, Lookup(s.lastSeen, k.plugin), k, after.pendingLevel.value, p)
  {
  }

  /** A pending window was opened by a sample of its level, and nothing has disturbed it since. */
  lemma {:induction false} PendingHasWindow(ms: seq<Micro>, k: Key, p: Policy) returns (s: nat)
    requires CellAt(Run(ms, p), k).pendingLevel.Some?
    ensures var cell := CellAt(Run(ms, p), k);
            && s < |ms| && OpensWindow(ms, s, k, cell.pendingLevel.value, cell.pendingSince.value)
            && Steady(ms, s, |ms|, k, cell.pendingLevel.value, p)
    decreases |ms|
  {
    var n := |ms| - 1;
    var prefix, last := ms[..n], ms[n];
    var level := CellAt(Run(ms, p), k).pendingLevel.value;
    StepKeepsWindow(Run(prefix, p), last, k, p);
    if last.Sample? && last.key == k && CellAt(Run(prefix, p), k).pendingLevel != Some(level) {
      s := n;
    } else {
      s := PendingHasWindow(prefix, k, p);
      assert ms[s] == prefix[s];
      LastSeenIsLastTick(prefix, k.plugin, p);
      SteadyExtends(ms, n, s, k, level, p);
    }
  }

  /**
   * Debounce over whole runs: with a positive window, a level is journalled only if it was
   * observed at least that long ago, and since then every sample of the triple had that level,
   * the item never vanished, and no two cycles of the plugin were more than two refreshes apart.
   */
  lemma EventHasWindow(ms: seq<Micro>, i: nat, p: Policy) returns (s: nat)
    requires i < |ms| && EmittedAt(ms, i, p).Some?
    requires p.minDuration(ms[i].key.plugin) > 0
    ensures s < i && OpensWindow(ms, s, ms[i].key, ms[i].level, ms[s].now)
    ensures ms[i].now - ms[s].now >= p.minDuration(ms[i].key.plugin)
    ensures Steady(ms, s, i + 1, ms[i].key, ms[i].level, p)
  {
    s := PendingHasWindow(ms[..i], ms[i].key, p);
    SteadyExtends(ms, i, s, ms[i].key, ms[i].level, p);
  }

  // ---------------------------------------------------------------------
  // And every sustained, uninterrupted window ends in an event
  // ---------------------------------------------------------------------

  /** A window at `level` is open at least since `since`. */
  ghost predicate Waiting(s: State, k: Key, level: Level, since: int) {
    var cell := CellAt(s, k);
    cell.committedLevel != level && cell.pendingLevel == Some(level) && cell.pendingSince.value <= since
  }

  lemma QuietStep(s: State, m: Micro, k: Key, level: Level, p: Policy)
    requires StandsThrough(m, Lookup(s.lastSeen, k.plugin), k, level, p) && CellAt(s, k).committedLevel != level
    requires m.Sample? && m.key == k ==> Emitted(s, m, p).None?
    ensures CellAt(Step(s, m, p), k).committedLevel != level
    ensures CellAt(s, k).pendingLevel == Some(level) ==>
              && CellAt(Step(s, m, p), k).pendingLevel == Some(level)
              && CellAt(Step(s, m, p), k).pendingSince == CellAt(s, k).pendingSince
  {
  }

  /** A sample of an uncommitted level opens its window or finds it open. */
  lemma SampleWaits(s: State, m: Micro, k: Key, p: Policy)
    requires m.Sample? && m.key == k && CellAt(s, k).committedLevel != m.level && Emitted(s, m, p).None?
    requires CellAt(s, k).pendingLevel.Some? ==> CellAt(s, k).pendingSince.value <= m.now
    ensures Waiting(Step(s, m, p), k, m.level, m.now)
  {
  }

  lemma WaitingCommits(s: State, m: Micro, k: Key, since: int, p: Policy)
    requires m.Sample? && m.key == k && Waiting(s, k, m.level, since) && m.now - since >= p.minDuration(k.plugin)
    ensures Emitted(s, m, p).Some?
  {
  }

  /** No sample of `k` among the steps from `i` on journals anything. */
  ghost predicate Silent(ms: seq<Micro>, i: nat, j: nat, k: Key, p: Policy)
    requires i <= j <= |ms|
  {
    forall n :: i <= n < j && ms[n].Sample? && ms[n].key == k ==> EmittedAt(ms, n, p).None?
  }

  lemma QuietNext(ms: seq<Micro>, n: nat, k: Key, level: Level, p: Policy)
    requires n < |ms| && Undisturbed(ms, n, k, level, p) && CellAt(Run(ms[..n], p), k).committedLevel != level
    requires ms[n].Sample? && ms[n].key == k ==> EmittedAt(ms, n, p).None?
    ensures CellAt(Run(ms[..n + 1], p), k).committedLevel != level
    ensures forall since :: Waiting(Run(ms[..n], p), k, level, since) ==> Waiting(Run(ms[..n + 1], p), k, level, since)
  {
    LastSeenIsLastTick(ms[..n], k.plugin, p);
    RunFromNext(START, ms, n, p);
    QuietStep(Run(ms[..n], p), ms[n], k, level, p);
  }

  lemma {:induction false} StaysUncommitted(ms: seq<Micro>, i: nat, j: nat, k: Key, level: Level, p: Policy)
    requires i <= j <= |ms| && Steady(ms, i, j, k, level, p) && Silent(ms, i, j, k, p)
    requires CellAt(Run(ms[..i], p), k).committedLevel != level
    ensures CellAt(Run(ms[..j], p), k).committedLevel != level
    ensures forall since :: Waiting(Run(ms[..i], p), k, level, since) ==> Waiting(Run(ms[..j], p), k, level, since)
    decreases j
  {
    if i < j {
      StaysUncommitted(ms, i, j - 1, k, level, p);
      assert Undisturbed(ms, j - 1, k, level, p);
      QuietNext(ms, j - 1, k, level, p);
    }
  }

  /** Every sample of `k` before step `n` was taken no later than `now`. */
  ghost predicate NoneLater(ms: seq<Micro>, n: nat, k: Key, now: int)
    requires n <= |ms|
  {
    forall i :: 0 <= i < n && ms[i].Sample? && ms[i].key == k ==> ms[i].now <= now
  }

  lemma OpensOrWaits(ms: seq<Micro>, s: nat, k: Key, p: Policy)
    requires s < |ms| && ms[s].Sample? && ms[s].key == k && NoneLater(ms, s, k, ms[s].now)
    requires CellAt(Run(ms[..s], p), k).committedLevel != ms[s].level && EmittedAt(ms, s, p).None?
    ensures Waiting(Run(ms[..s + 1], p), k, ms[s].level, ms[s].now)
  {
    if CellAt(Run(ms[..s], p), k).pendingLevel.Some? {
      var o := PendingHasWindow(ms[..s], k, p);
      assert ms[..s][o] == ms[o];
    }
    RunFromNext(START, ms, s, p);
    SampleWaits(Run(ms[..s], p), ms[s], k, p);
  }

  lemma WithinSilence(ms: seq<Micro>, from: nat, to: nat, i: nat, j: nat, k: Key, level: Level, p: Policy)
    requires from <= i <= j <= to <= |ms| && Steady(ms, from, to, k, level, p) && Silent(ms, from, to, k, p)
    ensures Steady(ms, i, j, k, level, p) && Silent(ms, i, j, k, p)
  {
    forall n | i <= n < j ensures Undisturbed(ms, n, k, level, p) {
      assert from <= n < to;
    }
  }

  /** Steps `s` and `i` sample `level`, the second a window later. */
  ghost predicate SpansWindow(ms: seq<Micro>, s: nat, i: nat, k: Key, level: Level, p: Policy)
    requires s <= i < |ms|
  {
    && ms[s].Sample? && ms[s].key == k && ms[s].level == level
    && ms[i].Sample? && ms[i].key == k && ms[i].level == level
    && ms[i].now - ms[s].now >= p.minDuration(k.plugin)
  }

  lemma WindowRunsOut(ms: seq<Micro>, s: nat, i: nat, k: Key, level: Level, p: Policy)
    requires s <= i < |ms| && SpansWindow(ms, s, i, k, level, p) && NoneLater(ms, s, k, ms[s].now)
    requires CellAt(Run(ms[..s], p), k).committedLevel != level && EmittedAt(ms, s, p).None?
    requires s < i ==> Steady(ms, s + 1, i, k, level, p) && Silent(ms, s + 1, i, k, p)
    ensures EmittedAt(ms, i, p).Some?
  {
    OpensOrWaits(ms, s, k, p);
    if s < i {
      StaysUncommitted(ms, s + 1, i, k, level, p);
      WaitingCommits(Run(ms[..i], p), ms[i], k, ms[s].now, p);
    } else {
      NoWindowCommits(Run(ms[..s], p), ms[s], k, p);
    }
  }

  lemma NoWindowCommits(s: State, m: Micro, k: Key, p: Policy)
    requires m.Sample? && m.key == k && p.minDuration(k.plugin) == 0 && CellAt(s, k).committedLevel != m.level
    ensures Emitted(s, m, p).Some?
  {
  }

  lemma SilenceBreaks(ms: seq<Micro>, from: nat, s: nat, i: nat, k: Key, level: Level, p: Policy)
    requires from <= s <= i < |ms| && Steady(ms, from, i + 1, k, level, p)
    requires CellAt(Run(ms[..from], p), k).committedLevel != level
    requires SpansWindow(ms, s, i, k, level, p) && NoneLater(ms, s, k, ms[s].now)
    ensures !Silent(ms, from, i + 1, k, p)
  {
    if Silent(ms, from, i + 1, k, p) {
      WithinSilence(ms, from, i + 1, from, s, k, level, p);
      StaysUncommitted(ms, from, s, k, level, p);
      if s < i { WithinSilence(ms, from, i + 1, s + 1, i, k, level, p); }
      WindowRunsOut(ms, s, i, k, level, p);
    }
  }

  /**
   * The converse of `EventHasWindow`: if from step `from` on every sample of a triple has one level that is
   * not committed, its item is listed in every cycle, and no cycle of its plugin comes more than two
   * refreshes after the one before, then an event with that level is journalled no later than the first
   * sample that comes `minDuration` after another.
   */
  lemma PersistenceIsJournalled(ms: seq<Micro>, from: nat, s: nat, i: nat, k: Key, level: Level, p: Policy)
    returns (j: nat)
    requires from <= s <= i < |ms| && Steady(ms, from, i + 1, k, level, p)
    requires CellAt(Run(ms[..from], p), k).committedLevel != level
    requires SpansWindow(ms, s, i, k, level, p) && NoneLater(ms, s, k, ms[s].now)
    ensures from <= j <= i && EmittedAt(ms, j, p).Some?
    ensures EmittedAt(ms, j, p).value.key == k && EmittedAt(ms, j, p).value.level == level
  {
    SilenceBreaks(ms, from, s, i, k, level, p);
    j :| from <= j < i + 1 && ms[j].Sample? && ms[j].key == k && EmittedAt(ms, j, p).Some?;
    assert Undisturbed(ms, j, k, level, p);
    EventsMeetSpec(ms, j, p);
  }
}
