/**
 * The protocol in place: `ensure_plugin` and `plugin_loop` cut at their awaits, each piece performed
 * on one `AppState` (src/collector.rs:42-159). Any order of the pieces is a run of the transition system.
 */
module Runtime {
  import opened Plugins
  import opened SharedState
  import opened Collector

  /** A collector that is leaving is registered nowhere. */
  lemma LeaverIsUnregistered(states: seq<World>, actions: seq<Action>, cfg: Settings, l: nat)
    requires IsRun(states, actions, cfg)
    requires l < |states[|actions|].loops| && states[|actions|].loops[l].pc.Leaving?
    ensures var s := states[|actions|];
            s.loops[l].chan == l && forall id <- s.shared.registry.Keys :: s.shared.registry[id] != l
  {
    var s := states[|actions|];
    InvariantHolds(states, actions, cfg, |actions|);
    assert LoopOk(s, l);
  }

  class Runtime {
    const cfg: Settings
    const app: AppState
    var loops: seq<Loop>
    var requests: seq<Request>
    ghost var states: seq<World>
    ghost var actions: seq<Action>

    ghost function View(): World
      reads this, app
    {
      World(app.View(), loops, requests)
    }

    /** Everything done so far is a run, and this is where it has led. */
    ghost predicate Valid()
      reads this, app
    {
      app.Valid() && IsRun(states, actions, cfg) && View() == states[|actions|]
    }

    constructor (cfg: Settings)
      ensures Valid() && fresh(app) && View() == START && this.cfg == cfg && actions == []
    {
      this.cfg := cfg;
      app := new AppState();
      loops, requests := [], [];
      states, actions := [START], [];
    }

    ghost method Note(a: Action)
      requires app.Valid() && IsRun(states, actions, cfg)
      requires Enabled(states[|actions|], a) && View() == Next(states[|actions|], a, cfg)
      modifies this`states, this`actions
      ensures Valid() && actions == old(actions) + [a] && View() == old(View())
    {
      RunExtends(states, actions, cfg, a, View());
      states, actions := states + [View()], actions + [a];
    }

    method Pass(nanos: nat)
      requires Valid()
      modifies this`states, this`actions, app
      ensures Valid() && actions == old(actions) + [Action.Pass(nanos)]
      ensures View() == Next(old(View()), Action.Pass(nanos), cfg)
    {
      app.Pass(nanos);
      Note(Action.Pass(nanos));
    }

    method Arrive(plugin: PluginId)
      requires Valid()
      modifies this
      ensures Valid() && actions == old(actions) + [Action.Arrive(plugin)]
      ensures View() == Next(old(View()), Action.Arrive(plugin), cfg)
    {
      requests := requests + [Request(plugin, Arriving, 0, 0, 0)];
      Note(Action.Arrive(plugin));
    }

    /** The guard of a waiting request runs out. */
    method Expire(r: nat)
      requires Valid() && Enabled(View(), Action.Expire(r))
      modifies this
      ensures Valid() && actions == old(actions) + [Action.Expire(r)]
      ensures View() == Next(old(View()), Action.Expire(r), cfg)
    {
      requests := requests[r := requests[r].(pc := Done(GuardExpired))];
      Note(Action.Expire(r));
    }

    /** The next piece of `ensure_plugin`. */
    method StepRequest(r: nat)
      requires Valid() && Enabled(View(), RequestStep(r))
      modifies this, app
      ensures Valid() && actions == old(actions) + [RequestStep(r)]
      ensures View() == Next(old(View()), RequestStep(r), cfg)
    {
      var q := requests[r];
      match q.pc {
        case Arriving =>
          q := q.(pc := if q.plugin in cfg.enabled then ToTouch else Done(NotRegistered));
        case ToTouch =>
          app.Touch(q.plugin);
          q := q.(pc := ToLock, touch := app.now);
        case ToLock =>
          var known := q.plugin in app.registry;
          var chan := app.Join(q.plugin);
          if !known { loops := loops + [Loop(q.plugin, chan, Collecting, 0)]; }
          q := q.(pc := Polling, chan := chan, deadline := app.now + cfg.guard);
        case Polling =>
          q := q.(pc := if app.channels[q.chan].ready then Fetching else Parked);
        case Parked =>
          q := q.(pc := if app.channels[q.chan].ready then Polling else Done(SenderDropped));
        case Fetching =>
          var body := app.Snapshot(q.plugin);
          q := q.(pc := Done(if body.Some? then Served(body.value) else SnapshotMissing));
        case Done(_) =>
      }
      requests := requests[r := q];
      Note(RequestStep(r));
    }

    /** The next piece of `plugin_loop`. */
    method StepLoop(l: nat)
      requires Valid() && Enabled(View(), LoopStep(l))
      modifies this, app
      ensures Valid() && actions == old(actions) + [LoopStep(l)]
      ensures View() == Next(old(View()), LoopStep(l), cfg)
    {
      var p := loops[l];
      match p.pc {
        case Collecting => p := p.(pc := Observing);
        case Observing => p := p.(pc := Publishing);
        case Publishing =>
          app.Publish(p.plugin, Body(l, p.cycle));
          p := p.(pc := Signalling);
        case Signalling =>
          app.Signal(p.chan);
          p := p.(pc := Sleeping(app.now + cfg.refresh(p.plugin)));
        case Sleeping(_) => p := p.(pc := Checking);
        case Checking =>
          var idle := app.Idle(p.plugin);
          var stopping := idle >= cfg.idleTimeout(p.plugin);
          p := if stopping then p.(pc := Locking) else p.(pc := Collecting, cycle := p.cycle + 1);
        case Locking =>
          var stopped := app.Retire(p.plugin, cfg.idleTimeout(p.plugin));
          p := if stopped then p.(pc := Leaving) else p.(pc := Collecting, cycle := p.cycle + 1);
        case Leaving =>
          LeaverIsUnregistered(states, actions, cfg, l);
          app.Close(p.chan);
          p := p.(pc := Gone);
        case Gone =>
      }
      loops := loops[l := p];
      Note(LoopStep(l));
    }
  }
}
