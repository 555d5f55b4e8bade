/** The shared alert engine `Alerts` and one call of its `observe` (src/alerts.rs:213-369). */
module Alerts {
  import opened Wrappers
  import opened Plugins
  import opened Configs
  import opened Levels
  import opened Json
  import opened Hysteresis
  import opened Engine
  import opened Observations

  /** Some threshold is configured for the plugin, or it has a built-in one that is turned on. */
  predicate HasThresholds(c: Config, id: PluginId, fs: seq<FieldInfo>) {
    var p := Section(c, id);
    || (p.Some? && (p.value.thresholds != map[] || p.value.thresholdsByItem != map[]))
    || (c.useBuiltinDefaults && exists f <- fs :: f.defaults.Some?)
  }

  /** The two early returns of `observe`. */
  predicate Skips(c: Config, id: PluginId, fs: seq<FieldInfo>) {
    fs == [] || !HasThresholds(c, id, fs)
  }

  /** What one call of `observe` does to the engine. */
  function Observed(s: State, c: Config, id: PluginId, fs: seq<FieldInfo>, payload: Value, now: int, wall: int,
                    p: Policy): State {
    if Skips(c, id, fs) then s else RunFrom(s, Cycle(c, id, fs, payload, now, wall), p)
  }

  lemma ResetByEntries(s: State, t: State, id: PluginId, now: int, refresh: nat)
    requires t.lastSeen == s.lastSeen[id := now] && t.history == s.history && t.cells.Keys == s.cells.Keys
    requires forall k :: k in s.cells ==>
      t.cells[k] ==
      if IdleGap(Lookup(s.lastSeen, id), now, refresh) && k.plugin == id then Forget(s.cells[k]) else s.cells[k]
    ensures t == ResetIdle(s, id, now, refresh)
  {
  }

  lemma PruneByEntries(s: State, t: State, id: PluginId, live: Option<set<string>>)
    requires t.lastSeen == s.lastSeen && t.history == s.history
    requires forall k :: k in t.cells <==> k in s.cells && Keeps(k, id, live)
    requires forall k :: k in t.cells ==> t.cells[k] == s.cells[k]
    ensures t == Prune(s, id, live)
  {
  }

  /** A sample is: find or make the entry, advance it, append its event. */
  function Entered(s: State, k: Key): State {
    s.(cells := s.cells[k := CellAt(s, k)])
  }

  function Moved(s: State, k: Key, level: Level, now: int, minDuration: nat): State {
    s.(cells := s.cells[k := Advance(CellAt(s, k), level, now, minDuration).0])
  }

  lemma SampleByParts(s: State, m: Micro, p: Policy)
    requires m.Sample?
    ensures var entered := Entered(s, m.key);
            var moved := Moved(entered, m.key, m.level, m.now, p.minDuration(m.key.plugin));
            Step(s, m, p) == moved.(history := Push(moved.history, Emitted(entered, m, p), p.historySize))
  {
    assert CellAt(Entered(s, m.key), m.key) == CellAt(s, m.key);
  }

  class Alerts {
    var history: seq<Event>
    var state: map<Key, AlertState<Key>>
    var lastSeen: map<PluginId, int>
    const hostname: string

    constructor (hostname: string)
      ensures Valid() && View() == START && state == map[] && this.hostname == hostname
    {
      this.hostname := hostname;
      history, state, lastSeen := [], map[], map[];
    }

    ghost predicate Valid()
      reads this, state.Values
    {
      forall k :: k in state ==> state[k].owner == k && Paired(state[k].View())
    }

    ghost function View(): State
      reads this, state.Values
      requires Valid()
    {
      State(map k | k in state :: state[k].View(), lastSeen, history)
    }

    /** Clears the pending windows of one plugin. */
    method DropPendingOf(id: PluginId)
      requires Valid()
      modifies state.Values
      ensures Valid()
      ensures forall k :: k in state ==>
        state[k].View() == if k.plugin == id then Forget(old(state[k].View())) else old(state[k].View())
    {
      var left := state.Keys;
      while left != {}
        invariant left <= state.Keys && Valid()
        invariant forall k :: k in state ==>
          state[k].View() == if k.plugin == id && k !in left then Forget(old(state[k].View())) else old(state[k].View())
        decreases left
      {
        var k :| k in left;
        assert forall l :: l in state && l != k ==> state[l] != state[k];
        if k.plugin == id { state[k].DropPending(); }
        left := left - {k};
      }
    }

    method ResetIfIdle(id: PluginId, now: int, refresh: nat)
      requires Valid()
      modifies this`lastSeen, state.Values
      ensures Valid() && View() == ResetIdle(old(View()), id, now, refresh)
    {
      ghost var before := View();
      var gap := id in lastSeen && now - lastSeen[id] > 2 * refresh;
      lastSeen := lastSeen[id := now];
      if gap { DropPendingOf(id); }
      ResetByEntries(before, View(), id, now, refresh);
    }

    method PruneVanished(id: PluginId, live: seq<string>)
      requires Valid()
      modifies this`state
      ensures Valid() && View() == Prune(old(View()), id, Some(set k | k in live))
      ensures state.Values <= old(state.Values)
    {
      ghost var before := View();
      var kept := map k | k in state && (k.plugin != id || k.item.None? || k.item.value in live) :: state[k];
      assert forall k :: k in kept ==> k in state && kept[k] == state[k];
      state := kept;
      PruneByEntries(before, View(), id, Some(set k | k in live));
    }

    /** `entry(key).or_default()`. */
    method Entry(key: Key)
      requires Valid()
      modifies this`state
      ensures Valid() && key in state && fresh(state.Values - old(state.Values))
      ensures View() == Entered(old(View()), key)
    {
      ghost var before := View();
      if key !in state {
        var st := new AlertState(key);
        state := state[key := st];
      }
      assert View().cells == before.cells[key := CellAt(before, key)];
    }

    method Append(event: Event, historySize: nat)
      modifies this`history
      ensures history == LastN(old(history) + [event], historySize)
    {
      history := history + [event];
      ghost var full := history;
      while |history| > historySize
        invariant |history| <= |full| && history == full[|full| - |history|..]
        invariant |history| >= historySize || history == full
      {
        history := history[1..];
      }
    }

    method Journal(event: Event, historySize: nat)
      requires Valid()
      modifies this`history
      ensures Valid() && View() == old(View()).(history := LastN(old(View()).history + [event], historySize))
    {
      ghost var before := View();
      Append(event, historySize);
      assert View().cells == before.cells;
    }

    /** Reconciles one entry, alone. */
    method Reconcile(key: Key, level: Level, now: int, minDuration: nat) returns (tr: Option<Transition>)
      requires Valid() && key in state
      modifies state.Values
      ensures Valid()
      ensures tr == Advance(CellAt(old(View()), key), level, now, minDuration).1
      ensures View() == Moved(old(View()), key, level, now, minDuration)
    {
      ghost var before := View();
      assert forall l :: l in state && l != key ==> state[l] != state[key];
      tr := state[key].Reconcile(level, now, minDuration);
      assert View().cells == before.cells[key := Advance(before.cells[key], level, now, minDuration).0];
    }

    /** `entry(key).or_default()` and its `reconcile`. */
    method ReconcileEntry(key: Key, level: Level, now: int, minDuration: nat) returns (tr: Option<Transition>)
      requires Valid()
      modifies this`state, state.Values
      ensures Valid() && fresh(state.Values - old(state.Values))
      ensures tr == Advance(CellAt(Entered(old(View()), key), key), level, now, minDuration).1
      ensures View() == Moved(Entered(old(View()), key), key, level, now, minDuration)
    {
      Entry(key);
      tr := Reconcile(key, level, now, minDuration);
    }

    method Record(id: PluginId, r: Reading, now: int, wall: int, minDuration: nat, historySize: nat, p: Policy)
      requires Valid()
      requires p.minDuration(id) == minDuration && p.historySize == historySize && p.hostname == hostname
      modifies this`state, this`history, state.Values
      ensures Valid() && View() == Step(old(View()), ToSample(id, r, now, wall), p)
      ensures fresh(state.Values - old(state.Values))
    {
      var key := Key(id, r.item, r.info.field);
      SampleByParts(View(), ToSample(id, r, now, wall), p);
      var tr := ReconcileEntry(key, r.level, now, minDuration);
      if tr.Some? {
        Journal(BuildEvent(key, tr.value, r.raw, r.info.prominent, wall, p), historySize);
      }
    }

    method RecordAll(id: PluginId, readings: seq<Reading>, now: int, wall: int, minDuration: nat, historySize: nat,
                     p: Policy)
      requires Valid()
      requires p.minDuration(id) == minDuration && p.historySize == historySize && p.hostname == hostname
      modifies this`state, this`history, state.Values
      ensures Valid() && fresh(state.Values - old(state.Values))
      ensures View() == RunFrom(old(View()), Samples(id, readings, now, wall), p)
    {
      ghost var start, ms := View(), Samples(id, readings, now, wall);
      for i := 0 to |readings|
        invariant Valid() && fresh(state.Values - old(state.Values))
        invariant View() == RunFrom(start, ms[..i], p)
      {
        RunFromNext(start, ms, i, p);
        Record(id, readings[i], now, wall, minDuration, historySize, p);
      }
      assert ms[..|readings|] == ms;
    }

    method PruneIfKeyed(id: PluginId, live: Option<seq<string>>)
      requires Valid()
      modifies this`state
      ensures Valid() && state.Values <= old(state.Values)
      ensures View() == Prune(old(View()), id, if live.Some? then Some(set k | k in live.value) else None)
    {
      ghost var before := View();
      match live {
        case None => PruneByEntries(before, View(), id, None);
        case Some(keys) => PruneVanished(id, keys);
      }
    }

    method BeginCycle(id: PluginId, now: int, live: Option<seq<string>>, p: Policy)
      requires Valid()
      modifies this`state, this`lastSeen, state.Values
      ensures Valid() && state.Values <= old(state.Values)
      ensures var keys := if live.Some? then Some(set k | k in live.value) else None;
              View() == Step(old(View()), Tick(id, now, keys), p)
    {
      ResetIfIdle(id, now, p.refresh(id));
      PruneIfKeyed(id, live);
    }

    /**
     * A cycle past the early returns. The code reads the levels between the reset and the pruning; they
     * depend on neither.
     */
    method RunCycle(c: Config, id: PluginId, fs: seq<FieldInfo>, payload: Value, now: int, wall: int, p: Policy)
      returns (out: Value)
      requires Valid() && payload.Obj? && p.hostname == hostname
      modifies this, state.Values
      ensures Valid() && fresh(state.Values - old(state.Values))
      ensures View() == RunFrom(old(View()), Cycle(c, id, fs, payload, now, wall), p)
      ensures out == Obj(payload.members["_levels" := Obj(LevelsOf(c, id, fs, payload))])
    {
      ghost var start := View();
      var levels, readings, live := ReadPayload(c, id, fs, payload);
      out := Obj(payload.members["_levels" := Obj(levels)]);
      BeginCycle(id, now, live, p);
      RecordAll(id, readings, now, wall, p.minDuration(id), p.historySize, p);
      RunFromCons(start, Tick(id, now, LiveOf(id, payload)), Samples(id, readings, now, wall), p);
    }

    method ObserveFields(c: Config, id: PluginId, fs: seq<FieldInfo>, payload: Value, now: int, wall: int)
      returns (out: Value)
      requires Valid() && payload.Obj?
      modifies this, state.Values
      ensures Valid() && fresh(state.Values - old(state.Values))
      ensures View() == Observed(old(View()), c, id, fs, payload, now, wall, PolicyOf(c, hostname))
      ensures out == if Skips(c, id, fs) then payload
                     else Obj(payload.members["_levels" := Obj(LevelsOf(c, id, fs, payload))])
    {
      if fs == [] { return payload; }
      if !HasThresholds(c, id, fs) { return payload; }
      out := RunCycle(c, id, fs, payload, now, wall, PolicyOf(c, hostname));
    }

    /** `observe`: one cycle of alerting for `id`'s fresh payload, which comes back with its `_levels`. */
    method Observe(c: Config, id: PluginId, payload: Value, now: int, wall: int) returns (out: Value)
      requires Valid() && payload.Obj?
      modifies this, state.Values
      ensures Valid() && fresh(state.Values - old(state.Values))
      ensures View() == Observed(old(View()), c, id, AlertFields(id), payload, now, wall, PolicyOf(c, hostname))
      ensures out == if Skips(c, id, AlertFields(id)) then payload
                     else Obj(payload.members["_levels" := Obj(LevelsOf(c, id, AlertFields(id), payload))])
    {
      out := ObserveFields(c, id, AlertFields(id), payload, now, wall);
    }
  }
}
