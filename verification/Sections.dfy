/**
 * What one section of the configuration decides in whole runs, and that it decides nothing for other plugins
 * (src/config.rs:305-330, src/alerts.rs:128-149).
 */
module Sections {
  import opened Wrappers
  import opened Plugins
  import opened Configs
  import opened SharedState
  import opened Collector
  import opened Timing

  /** A setting is rounded to the nearest nanosecond. */
  lemma NanosNearest(f: Float)
    requires NonNegative(f)
    ensures -0.5 <= Nanos(f) as real - f.value * 1000000000.0 <= 0.5
  {
    var x := f.value * 1000000000.0 + 0.5;
    assert x.Floor as real <= x < x.Floor as real + 1.0;
  }

  // ---------------------------------------------------------------------
  // The protocol
  // ---------------------------------------------------------------------

  /** A collector sleeps for the refresh of its own section, or for the general one if that sets none. */
  lemma SleepsAsConfigured(c: Config, states: seq<World>, actions: seq<Action>, i: nat, k: nat, l: nat)
    requires IsRun(states, actions, SettingsOf(c)) && i < k < |states|
    requires actions[i] == LoopStep(l) && l < |states[i].loops| && states[i].loops[l].pc.Signalling?
    requires LoopSteps(actions[i + 1..k], l) == 0
    ensures var name := Name(states[i].loops[l].plugin);
            var own := if name in c.plugins then c.plugins[name].refresh else None;
            Enabled(states[k], LoopStep(l)) <==>
            states[k].shared.now >= states[i].shared.now + Nanos(if own.Some? then own.value else c.refresh)
  {
    SleepsForARefresh(states, actions, SettingsOf(c), i, k, l);
  }

  /** A request waits for the configured guard timeout from joining. */
  lemma WaitsAsConfigured(c: Config, states: seq<World>, actions: seq<Action>, j: nat, i: nat, r: nat)
    requires IsRun(states, actions, SettingsOf(c)) && j < i < |states|
    requires actions[j] == RequestStep(r) && r < |states[j].requests| && states[j].requests[r].pc.ToLock?
    ensures r < |states[i].requests|
    ensures Enabled(states[i], Expire(r)) <==>
            && (states[i].requests[r].pc.Polling? || states[i].requests[r].pc.Parked?)
            && states[i].shared.now >= states[j].shared.now + Nanos(c.guardTimeout)
  {
    GuardRunsFromJoining(states, actions, SettingsOf(c), j, i, r);
  }

  /** A request is refused exactly when a section of its plugin turns it off. */
  lemma RefusedExactly(c: Config, states: seq<World>, actions: seq<Action>, i: nat, r: nat)
    requires IsRun(states, actions, SettingsOf(c)) && i < |actions|
    requires actions[i] == RequestStep(r) && r < |states[i].requests| && states[i].requests[r].pc.Arriving?
    ensures r < |states[i + 1].requests|
    ensures var name := Name(states[i].requests[r].plugin);
            states[i + 1].requests[r].pc == Done(NotRegistered) <==>
            name in c.plugins && c.plugins[name].enabled == Some(false)
  {
    assert Enabled(states[i], actions[i]);
  }

  /**
   * The collector that a request joined is registered until `idle_cycles` refresh periods of its own section
   * have passed since the touch, but for less than a millisecond.
   */
  lemma StaysAsConfigured(c: Config, states: seq<World>, actions: seq<Action>, i: nat, r: nat)
    requires IsRun(states, actions, SettingsOf(c)) && i < |states|
    requires r < |states[i].requests| && HasJoined(states[i].requests[r])
    ensures var s, q := states[i].shared, states[i].requests[r];
            var own := if Name(q.plugin) in c.plugins then c.plugins[Name(q.plugin)].refresh else None;
            var refresh := Nanos(if own.Some? then own.value else c.refresh);
            Registered(s, q.plugin, q.chan) || s.now - q.touch > c.idleCycles * refresh - 1000000
  {
    JoinedCollectorStays(states, actions, SettingsOf(c), i, r);
  }

  /** Idle for `idle_cycles` such periods, and left alone, it is gone after seven steps of its own. */
  lemma StopsAsConfigured(c: Config, states: seq<World>, actions: seq<Action>, i: nat, j: nat, l: nat)
    requires IsRun(states, actions, SettingsOf(c)) && i <= j < |states| && l < |states[i].loops|
    requires var id := states[i].loops[l].plugin;
             var own := if Name(id) in c.plugins then c.plugins[Name(id)].refresh else None;
             IdleFor(states[i].shared, id) >= c.idleCycles * Nanos(if own.Some? then own.value else c.refresh)
    requires forall k :: i <= k < j ==> !Touches(states[k], actions[k], states[i].loops[l].plugin)
    requires LoopSteps(actions[i..j], l) >= 7
    ensures l < |states[j].loops| && !Live(states[j].loops[l])
    ensures !Registered(states[j].shared, states[i].loops[l].plugin, l)
  {
    IdleCollectorStops(states, actions, SettingsOf(c), i, j, l);
  }

  // ---------------------------------------------------------------------
  // Sections are independent
  // ---------------------------------------------------------------------

  /** Two configurations that differ in nothing but the section of one plugin. */
  ghost predicate DifferOnlyAt(c: Config, d: Config, id: PluginId) {
    && c.refresh == d.refresh && c.idleCycles == d.idleCycles && c.guardTimeout == d.guardTimeout
    && forall other: PluginId | other != id :: Section(c, other) == Section(d, other)
  }

  /** Nobody asks for the plugin, and nobody collects it. */
  ghost predicate Without(s: World, id: PluginId) {
    && (forall r :: 0 <= r < |s.requests| ==> s.requests[r].plugin != id)
    && (forall l :: 0 <= l < |s.loops| ==> s.loops[l].plugin != id)
  }

  lemma SameSettings(c: Config, d: Config, id: PluginId, other: PluginId)
    requires DifferOnlyAt(c, d, id) && other != id
    ensures var s, t := SettingsOf(c), SettingsOf(d);
            && (other in s.enabled <==> other in t.enabled) && s.refresh(other) == t.refresh(other)
            && s.idleTimeout(other) == t.idleTimeout(other) && s.guard == t.guard
  {
    assert Section(c, other) == Section(d, other);
  }

  lemma SameRequestStep(c: Config, d: Config, id: PluginId, s: World, r: nat)
    requires DifferOnlyAt(c, d, id) && r < |s.requests| && RequestEnabled(s, r) && s.requests[r].plugin != id
    ensures RequestNext(s, r, SettingsOf(c)) == RequestNext(s, r, SettingsOf(d))
  {
    SameSettings(c, d, id, s.requests[r].plugin);
  }

  lemma SameLoopStep(c: Config, d: Config, id: PluginId, s: World, l: nat)
    requires DifferOnlyAt(c, d, id) && l < |s.loops| && LoopEnabled(s, l) && s.loops[l].plugin != id
    ensures LoopNext(s, l, SettingsOf(c)) == LoopNext(s, l, SettingsOf(d))
  {
    SameSettings(c, d, id, s.loops[l].plugin);
  }

  lemma SameNext(c: Config, d: Config, id: PluginId, s: World, a: Action)
    requires DifferOnlyAt(c, d, id) && Without(s, id) && Enabled(s, a)
    ensures Next(s, a, SettingsOf(c)) == Next(s, a, SettingsOf(d))
  {
    if a.RequestStep? {
      SameRequestStep(c, d, id, s, a.r);
    } else if a.LoopStep? {
      SameLoopStep(c, d, id, s, a.l);
    }
  }

  /** A section decides nothing for other plugins: the runs that its plugin has no part in do not depend on it. */
  lemma SectionsAreIndependent(c: Config, d: Config, id: PluginId, states: seq<World>, actions: seq<Action>)
    requires DifferOnlyAt(c, d, id) && IsRun(states, actions, SettingsOf(c))
    requires forall s <- states :: Without(s, id)
    ensures IsRun(states, actions, SettingsOf(d))
  {
    forall i | 0 <= i < |actions|
      ensures Enabled(states[i], actions[i]) && states[i + 1] == Next(states[i], actions[i], SettingsOf(d))
    {
      assert Enabled(states[i], actions[i]) && states[i] in states;
      SameNext(c, d, id, states[i], actions[i]);
    }
  }
}
