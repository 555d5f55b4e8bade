/**
 * The lazy wake-up protocol as a transition system (src/collector.rs:42-159).
 *
 * Any number of requests (`ensure_plugin`) and collectors (`plugin_loop`) interleave at
 * every await and between every two accesses to shared state. A channel has the index of
 * the collector that was spawned with its sender.
 */
module Collector {
  import opened Plugins
  import opened Configs
  import opened SharedState

  datatype Settings = Settings(
    enabled: set<PluginId>,
    refresh: PluginId -> nat,
    idleTimeout: PluginId -> nat,
    guard: nat)

  /** What the protocol reads of a configuration. */
  function SettingsOf(c: Config): Settings {
    Settings((set id: PluginId | PluginEnabled(c, id)), (id: PluginId) => RefreshFor(c, id),
             (id: PluginId) => IdleTimeoutFor(c, id), GuardTimeout(c))
  }

  /** Where a collector stands in `plugin_loop`. */
  datatype LoopPc =
    | Collecting
    | Observing
    | Publishing
    | Signalling
    | Sleeping(until: nat)
    | Checking
    | Locking
    | Leaving
    | Gone

  datatype Loop = Loop(plugin: PluginId, chan: nat, pc: LoopPc, cycle: nat)

  datatype Outcome = Served(body: Body) | NotRegistered | GuardExpired | SenderDropped | SnapshotMissing

  /** Where a request stands in `ensure_plugin`. */
  datatype RequestPc =
    | Arriving
    | ToTouch
    | ToLock
    | Polling
    | Parked
    | Fetching
    | Done(outcome: Outcome)

  /** `touch` is when the request bumped the timestamp, in nanoseconds; the code stores its milliseconds. */
  datatype Request = Request(plugin: PluginId, pc: RequestPc, touch: nat, chan: nat, deadline: nat)

  function TouchedAt(q: Request): nat {
    q.touch / NANOS_PER_MILLI
  }

  datatype World = World(shared: Shared, loops: seq<Loop>, requests: seq<Request>)

  datatype Action =
    | Pass(nanos: nat)
    | Arrive(plugin: PluginId)
    | RequestStep(r: nat)
    | Expire(r: nat)
    | LoopStep(l: nat)

  const START := World(Shared(0, map[], map[], [], map[]), [], [])

  // ---------------------------------------------------------------------
  // Steps
  // ---------------------------------------------------------------------

  function WithLoop(s: World, l: nat, pc: LoopPc): World
    requires l < |s.loops|
  {
    s.(loops := s.loops[l := s.loops[l].(pc := pc)])
  }

  function NextCycle(s: World, l: nat): World
    requires l < |s.loops|
  {
    s.(loops := s.loops[l := s.loops[l].(pc := Collecting, cycle := s.loops[l].cycle + 1)])
  }

  function WithRequest(s: World, r: nat, pc: RequestPc): World
    requires r < |s.requests|
  {
    s.(requests := s.requests[r := s.requests[r].(pc := pc)])
  }

  /** Entering the registry: a new channel comes with a new collector that holds its sender. */
  function JoinStep(s: World, r: nat, cfg: Settings): World
    requires r < |s.requests|
  {
    var q := s.requests[r];
    var (shared, chan) := Joined(s.shared, q.plugin);
    var q' := q.(pc := Polling, chan := chan, deadline := s.shared.now + cfg.guard);
    World(shared,
           if q.plugin in s.shared.registry then s.loops else s.loops + [Loop(q.plugin, chan, Collecting, 0)],
           s.requests[r := q'])
  }

  function RequestNext(s: World, r: nat, cfg: Settings): World
    requires r < |s.requests| && RequestEnabled(s, r)
  {
    var q := s.requests[r];
    match q.pc
    case Arriving => WithRequest(s, r, if q.plugin in cfg.enabled then ToTouch else Done(NotRegistered))
    case ToTouch =>
      World(Touched(s.shared, q.plugin), s.loops, s.requests[r := q.(pc := ToLock, touch := s.shared.now)])
    case ToLock => JoinStep(s, r, cfg)
    case Polling => WithRequest(s, r, if s.shared.channels[q.chan].ready then Fetching else Parked)
    case Parked => WithRequest(s, r, if s.shared.channels[q.chan].ready then Polling else Done(SenderDropped))
    case Fetching =>
      WithRequest(s, r, match SnapshotOf(s.shared, q.plugin)
                        case Some(body) => Done(Served(body))
                        case None => Done(SnapshotMissing))
    case Done(_) => s
  }

  /** A parked request is woken by a new value or by the loss of the sender. */
  predicate RequestEnabled(s: World, r: nat)
    requires r < |s.requests|
  {
    var q := s.requests[r];
    && !q.pc.Done?
    && (q.pc.Polling? || q.pc.Parked? ==> q.chan < |s.shared.channels|)
    && (q.pc.Parked? ==> s.shared.channels[q.chan].ready || !s.shared.channels[q.chan].open)
  }

  function LoopNext(s: World, l: nat, cfg: Settings): World
    requires l < |s.loops| && LoopEnabled(s, l)
  {
    var p := s.loops[l];
    match p.pc
    case Collecting => WithLoop(s, l, Observing)
    case Observing => WithLoop(s, l, Publishing)
    case Publishing => WithLoop(s, l, Signalling).(shared := Published(s.shared, p.plugin, Body(l, p.cycle)))
    case Signalling =>
      WithLoop(s, l, Sleeping(s.shared.now + cfg.refresh(p.plugin))).(shared := Signalled(s.shared, p.chan))
    case Sleeping(_) => WithLoop(s, l, Checking)
    case Checking =>
      if IdleFor(s.shared, p.plugin) >= cfg.idleTimeout(p.plugin) then WithLoop(s, l, Locking) else NextCycle(s, l)
    case Locking =>
      var (shared, stopped) := Retired(s.shared, p.plugin, cfg.idleTimeout(p.plugin));
      if stopped then WithLoop(s, l, Leaving).(shared := shared) else NextCycle(s, l)
    case Leaving => WithLoop(s, l, Gone).(shared := Closed(s.shared, p.chan))
    case Gone => s
  }

  predicate LoopEnabled(s: World, l: nat)
    requires l < |s.loops|
  {
    var p := s.loops[l];
    && !p.pc.Gone? && p.chan < |s.shared.channels|
    && (p.pc.Sleeping? ==> s.shared.now >= p.pc.until)
  }

  predicate Enabled(s: World, a: Action) {
    match a
    case Pass(_) => true
    case Arrive(_) => true
    case RequestStep(r) => r < |s.requests| && RequestEnabled(s, r)
    case Expire(r) =>
      && r < |s.requests| && (s.requests[r].pc.Polling? || s.requests[r].pc.Parked?)
      && s.shared.now >= s.requests[r].deadline
    case LoopStep(l) => l < |s.loops| && LoopEnabled(s, l)
  }

  function Next(s: World, a: Action, cfg: Settings): World
    requires Enabled(s, a)
  {
    match a
    case Pass(nanos) => s.(shared := s.shared.(now := s.shared.now + nanos))
    case Arrive(plugin) => s.(requests := s.requests + [Request(plugin, Arriving, 0, 0, 0)])
    case RequestStep(r) => RequestNext(s, r, cfg)
    case Expire(r) => WithRequest(s, r, Done(GuardExpired))
    case LoopStep(l) => LoopNext(s, l, cfg)
  }

  /** A run: any interleaving of enabled steps. */
  ghost predicate IsRun(states: seq<World>, actions: seq<Action>, cfg: Settings) {
    && |states| == |actions| + 1
    && states[0] == START
    && forall i :: 0 <= i < |actions| ==>
         Enabled(states[i], actions[i]) && states[i + 1] == Next(states[i], actions[i], cfg)
  }

  lemma RunExtends(states: seq<World>, actions: seq<Action>, cfg: Settings, a: Action, next: World)
    requires IsRun(states, actions, cfg) && Enabled(states[|actions|], a) && next == Next(states[|actions|], a, cfg)
    ensures IsRun(states + [next], actions + [a], cfg)
  {
    var longer, done := states + [next], actions + [a];
    forall i | 0 <= i < |done| ensures Enabled(longer[i], done[i]) && longer[i + 1] == Next(longer[i], done[i], cfg) {
      if i < |actions| { assert Enabled(states[i], actions[i]); }
    }
  }

  // ---------------------------------------------------------------------
  // The invariant
  // ---------------------------------------------------------------------

  /** A collector that has not removed itself from the registry. */
  predicate Live(p: Loop) {
    !p.pc.Leaving? && !p.pc.Gone?
  }

  predicate Registered(s: Shared, id: PluginId, l: nat) {
    id in s.registry && s.registry[id] == l
  }

  /** The collector has finished a first cycle. */
  predicate HasPublished(p: Loop) {
    p.cycle > 0 || p.pc.Sleeping? || p.pc.Checking? || p.pc.Locking? || p.pc.Leaving? || p.pc.Gone?
  }

  ghost predicate LoopOk(s: World, l: nat)
    requires l < |s.loops| == |s.shared.channels|
  {
    var p, c := s.loops[l], s.shared.channels[l];
    && p.chan == l
    && (Live(p) <==> Registered(s.shared, p.plugin, l))
    && (p.plugin in s.shared.registry ==> l <= s.shared.registry[p.plugin])
    && (c.open <==> !p.pc.Gone?)
    && (HasPublished(p) ==> c.ready)
    && (c.ready || p.pc.Signalling? ==> p.plugin in s.shared.store && s.shared.store[p.plugin].loop >= l)
  }

  ghost predicate LoopsOk(s: World) {
    && |s.loops| == |s.shared.channels|
    && forall l :: 0 <= l < |s.loops| ==> LoopOk(s, l)
  }

  ghost predicate RegistryOk(s: World) {
    forall id <- s.shared.registry.Keys ::
      s.shared.registry[id] < |s.loops| && s.loops[s.shared.registry[id]].plugin == id
  }

  ghost predicate StoreOk(s: World) {
    forall id <- s.shared.store.Keys ::
      var b := s.shared.store[id];
      b.loop < |s.loops| && s.loops[b.loop].plugin == id && b.cycle <= s.loops[b.loop].cycle
  }

  predicate HasTouched(q: Request) {
    q.pc.ToLock? || HasJoined(q)
  }

  predicate HasJoined(q: Request) {
    q.pc.Polling? || q.pc.Parked? || q.pc.Fetching? || (q.pc.Done? && !q.pc.outcome.NotRegistered?)
  }

  ghost predicate RequestOk(s: World, q: Request, cfg: Settings) {
    && (HasTouched(q) ==> TouchedAt(q) <= LastRequest(s.shared, q.plugin))
    && (!q.pc.Arriving? ==> (q.plugin in cfg.enabled <==> q.pc != Done(NotRegistered)))
    && (HasJoined(q) ==>
          && q.chan < |s.loops| == |s.shared.channels| && s.loops[q.chan].plugin == q.plugin
          && (Registered(s.shared, q.plugin, q.chan) || Elapsed(s.shared, TouchedAt(q)) >= cfg.idleTimeout(q.plugin)))
    && (q.pc.Fetching? ==> s.shared.channels[q.chan].ready)
    && (q.pc.Done? ==>
          match q.pc.outcome
          case Served(b) => q.chan <= b.loop < |s.loops| && s.loops[b.loop].plugin == q.plugin
          case NotRegistered => true
          case GuardExpired => s.shared.now >= q.deadline
          case SenderDropped => false
          case SnapshotMissing => false)
  }

  ghost predicate RequestsOk(s: World, cfg: Settings) {
    forall r :: 0 <= r < |s.requests| ==> RequestOk(s, s.requests[r], cfg)
  }

  ghost predicate ClockOk(s: World) {
    forall id: PluginId :: LastRequest(s.shared, id) <= NowMillis(s.shared)
  }

  ghost predicate Inv(s: World, cfg: Settings) {
    LoopsOk(s) && RegistryOk(s) && StoreOk(s) && RequestsOk(s, cfg) && ClockOk(s)
  }

  // ---------------------------------------------------------------------
  // Preservation, step by step
  // ---------------------------------------------------------------------

  lemma MillisGrow(a: nat, b: nat)
    requires a <= b
    ensures a / NANOS_PER_MILLI <= b / NANOS_PER_MILLI
  {
  }

  /** The clock bound survives as long as time does not run back and only fresh timestamps are stored. */
  lemma ClockKeeps(s: World, t: World, touched: PluginId)
    requires ClockOk(s) && s.shared.now <= t.shared.now
    requires t.shared.lastRequest == s.shared.lastRequest
          || t.shared.lastRequest == s.shared.lastRequest[touched := NowMillis(s.shared)]
    ensures ClockOk(t)
  {
    MillisGrow(s.shared.now, t.shared.now);
    forall id: PluginId ensures LastRequest(t.shared, id) <= NowMillis(t.shared) {
      assert LastRequest(s.shared, id) <= NowMillis(s.shared);
    }
  }

  lemma PassKeeps(s: World, nanos: nat, cfg: Settings)
    requires Inv(s, cfg)
    ensures Inv(Next(s, Pass(nanos), cfg), cfg)
  {
    var t := Next(s, Pass(nanos), cfg);
    ClockKeeps(s, t, Cpu);
    MillisGrow(s.shared.now, t.shared.now);
    forall r | 0 <= r < |t.requests| ensures RequestOk(t, t.requests[r], cfg) {
      assert RequestOk(s, s.requests[r], cfg);
    }
    forall l | 0 <= l < |t.loops| ensures LoopOk(t, l) {
      assert LoopOk(s, l);
    }
  }

  lemma ArriveKeeps(s: World, plugin: PluginId, cfg: Settings)
    requires Inv(s, cfg)
    ensures Inv(Next(s, Arrive(plugin), cfg), cfg)
  {
    var t := Next(s, Arrive(plugin), cfg);
    forall r | 0 <= r < |t.requests| ensures RequestOk(t, t.requests[r], cfg) {
      if r < |s.requests| { assert RequestOk(s, s.requests[r], cfg); }
    }
    forall l | 0 <= l < |t.loops| ensures LoopOk(t, l) {
      assert LoopOk(s, l);
    }
  }

  /** A step that moves one request and leaves the shared state and the collectors alone. */
  lemma RequestOnlyKeeps(s: World, t: World, r: nat, cfg: Settings)
    requires Inv(s, cfg) && r < |s.requests| && |t.requests| == |s.requests|
    requires t.shared == s.shared && t.loops == s.loops
    requires forall i :: 0 <= i < |s.requests| && i != r ==> t.requests[i] == s.requests[i]
    requires RequestOk(t, t.requests[r], cfg)
    ensures Inv(t, cfg)
  {
    forall i | 0 <= i < |t.requests| ensures RequestOk(t, t.requests[i], cfg) {
      if i != r { assert RequestOk(s, s.requests[i], cfg); }
    }
    forall l | 0 <= l < |t.loops| ensures LoopOk(t, l) {
      assert LoopOk(s, l);
    }
  }

  lemma TouchKeeps(s: World, r: nat, cfg: Settings)
    requires Inv(s, cfg) && r < |s.requests| && s.requests[r].pc.ToTouch?
    ensures Inv(RequestNext(s, r, cfg), cfg)
  {
    var t := RequestNext(s, r, cfg);
    assert RequestOk(s, s.requests[r], cfg);
    assert LastRequest(s.shared, s.requests[r].plugin) <= NowMillis(s.shared);
    ClockKeeps(s, t, s.requests[r].plugin);
    forall i | 0 <= i < |t.requests| ensures RequestOk(t, t.requests[i], cfg) {
      if i != r { assert RequestOk(s, s.requests[i], cfg); }
    }
    forall l | 0 <= l < |t.loops| ensures LoopOk(t, l) {
      assert LoopOk(s, l);
    }
  }

  lemma JoinKeeps(s: World, r: nat, cfg: Settings)
    requires Inv(s, cfg) && r < |s.requests| && s.requests[r].pc.ToLock?
    ensures Inv(JoinStep(s, r, cfg), cfg)
  {
    var t := JoinStep(s, r, cfg);
    assert RequestOk(s, s.requests[r], cfg);
    ClockKeeps(s, t, s.requests[r].plugin);
    forall l | 0 <= l < |t.loops| ensures LoopOk(t, l) {
      if l < |s.loops| { assert LoopOk(s, l); }
    }
    forall i | 0 <= i < |t.requests| ensures RequestOk(t, t.requests[i], cfg) {
      if i != r { assert RequestOk(s, s.requests[i], cfg); }
    }
  }

  lemma RequestStepKeeps(s: World, r: nat, cfg: Settings)
    requires Inv(s, cfg) && r < |s.requests| && RequestEnabled(s, r)
    ensures Inv(RequestNext(s, r, cfg), cfg)
  {
    var q := s.requests[r];
    assert RequestOk(s, q, cfg);
    if q.pc.ToTouch? {
      TouchKeeps(s, r, cfg);
    } else if q.pc.ToLock? {
      JoinKeeps(s, r, cfg);
    } else {
      if HasJoined(q) { assert LoopOk(s, q.chan); }
      RequestOnlyKeeps(s, RequestNext(s, r, cfg), r, cfg);
    }
  }

  /** A step of one collector that leaves the shared state alone and removes nobody. */
  lemma QuietLoopKeeps(s: World, l: nat, p: Loop, cfg: Settings)
    requires Inv(s, cfg) && l < |s.loops|
    requires var o := s.loops[l];
             && p.plugin == o.plugin && p.chan == o.chan && p.cycle >= o.cycle
             && Live(o) && Live(p) && (HasPublished(p) ==> HasPublished(o)) && !p.pc.Signalling?
    ensures Inv(s.(loops := s.loops[l := p]), cfg)
  {
    var t := s.(loops := s.loops[l := p]);
    ClockKeeps(s, t, s.loops[l].plugin);
    forall i | 0 <= i < |t.loops| ensures LoopOk(t, i) {
      assert LoopOk(s, i);
    }
    forall i | 0 <= i < |t.requests| ensures RequestOk(t, t.requests[i], cfg) {
      assert RequestOk(s, s.requests[i], cfg);
    }
  }

  lemma PublishKeeps(s: World, l: nat, cfg: Settings)
    requires Inv(s, cfg) && l < |s.loops| && LoopEnabled(s, l) && s.loops[l].pc.Publishing?
    ensures Inv(LoopNext(s, l, cfg), cfg)
  {
    var t := LoopNext(s, l, cfg);
    assert LoopOk(s, l);
    ClockKeeps(s, t, s.loops[l].plugin);
    forall i | 0 <= i < |t.loops| ensures LoopOk(t, i) {
      assert LoopOk(s, i);
    }
    forall i | 0 <= i < |t.requests| ensures RequestOk(t, t.requests[i], cfg) {
      assert RequestOk(s, s.requests[i], cfg);
    }
  }

  lemma SignalKeeps(s: World, l: nat, cfg: Settings)
    requires Inv(s, cfg) && l < |s.loops| && LoopEnabled(s, l) && s.loops[l].pc.Signalling?
    ensures Inv(LoopNext(s, l, cfg), cfg)
  {
    var t := LoopNext(s, l, cfg);
    assert LoopOk(s, l);
    ClockKeeps(s, t, s.loops[l].plugin);
    forall i | 0 <= i < |t.loops| ensures LoopOk(t, i) {
      assert LoopOk(s, i);
    }
    forall i | 0 <= i < |t.requests| ensures RequestOk(t, t.requests[i], cfg) {
      assert RequestOk(s, s.requests[i], cfg);
    }
  }

  lemma RetireKeeps(s: World, l: nat, cfg: Settings)
    requires Inv(s, cfg) && l < |s.loops| && LoopEnabled(s, l) && s.loops[l].pc.Locking?
    requires IdleFor(s.shared, s.loops[l].plugin) >= cfg.idleTimeout(s.loops[l].plugin)
    ensures Inv(LoopNext(s, l, cfg), cfg)
  {
    var t := LoopNext(s, l, cfg);
    assert LoopOk(s, l);
    ClockKeeps(s, t, s.loops[l].plugin);
    forall i | 0 <= i < |t.loops| ensures LoopOk(t, i) {
      assert LoopOk(s, i);
    }
    forall i | 0 <= i < |t.requests| ensures RequestOk(t, t.requests[i], cfg) {
      assert RequestOk(s, s.requests[i], cfg);
    }
  }

  lemma CloseKeeps(s: World, l: nat, cfg: Settings)
    requires Inv(s, cfg) && l < |s.loops| && LoopEnabled(s, l) && s.loops[l].pc.Leaving?
    ensures Inv(LoopNext(s, l, cfg), cfg)
  {
    var t := LoopNext(s, l, cfg);
    assert LoopOk(s, l);
    ClockKeeps(s, t, s.loops[l].plugin);
    forall i | 0 <= i < |t.loops| ensures LoopOk(t, i) {
      assert LoopOk(s, i);
    }
    forall i | 0 <= i < |t.requests| ensures RequestOk(t, t.requests[i], cfg) {
      assert RequestOk(s, s.requests[i], cfg);
    }
  }

  lemma LoopStepKeeps(s: World, l: nat, cfg: Settings)
    requires Inv(s, cfg) && l < |s.loops| && LoopEnabled(s, l)
    ensures Inv(LoopNext(s, l, cfg), cfg)
  {
    var p := s.loops[l];
    if p.pc.Publishing? {
      PublishKeeps(s, l, cfg);
    } else if p.pc.Signalling? {
      SignalKeeps(s, l, cfg);
    } else if p.pc.Leaving? {
      CloseKeeps(s, l, cfg);
    } else if p.pc.Locking? && IdleFor(s.shared, p.plugin) >= cfg.idleTimeout(p.plugin) {
      RetireKeeps(s, l, cfg);
    } else {
      QuietLoopKeeps(s, l, LoopNext(s, l, cfg).loops[l], cfg);
    }
  }

  lemma StepKeeps(s: World, a: Action, cfg: Settings)
    requires Inv(s, cfg) && Enabled(s, a)
    ensures Inv(Next(s, a, cfg), cfg)
  {
    match a
    case Pass(nanos) => PassKeeps(s, nanos, cfg);
    case Arrive(plugin) => ArriveKeeps(s, plugin, cfg);
    case RequestStep(r) => RequestStepKeeps(s, r, cfg);
    case Expire(r) =>
      assert RequestOk(s, s.requests[r], cfg);
      RequestOnlyKeeps(s, Next(s, a, cfg), r, cfg);
    case LoopStep(l) => LoopStepKeeps(s, l, cfg);
  }

  /** The invariant holds in every reachable state. */
  lemma {:induction false} InvariantHolds(states: seq<World>, actions: seq<Action>, cfg: Settings, i: nat)
    requires IsRun(states, actions, cfg) && i < |states|
    ensures Inv(states[i], cfg)
    decreases i
  {
    if i > 0 {
      InvariantHolds(states, actions, cfg, i - 1);
      assert Enabled(states[i - 1], actions[i - 1]);
      StepKeeps(states[i - 1], actions[i - 1], cfg);
    }
  }

  // ---------------------------------------------------------------------
  // Main results, over all runs
  // ---------------------------------------------------------------------

  /** Collector `l` works for `id` and has not removed itself. */
  predicate LiveFor(s: World, l: nat, id: PluginId) {
    l < |s.loops| && s.loops[l].plugin == id && Live(s.loops[l])
  }

  /**
   * A plugin is registered exactly when one of its collectors has not removed itself, that
   * collector is the only one, and the registered channel is the one it holds the sender of.
   */
  lemma OneLiveCollector(states: seq<World>, actions: seq<Action>, cfg: Settings, i: nat, id: PluginId)
    requires IsRun(states, actions, cfg) && i < |states|
    ensures var s := states[i];
            && (id in s.shared.registry <==> exists l: nat :: LiveFor(s, l, id))
            && (forall l: nat, m: nat :: LiveFor(s, l, id) && LiveFor(s, m, id) ==> l == m)
            && (forall l: nat :: LiveFor(s, l, id) ==> Registered(s.shared, id, s.loops[l].chan))
  {
    var s := states[i];
    InvariantHolds(states, actions, cfg, i);
    forall l: nat | LiveFor(s, l, id) ensures s.loops[l].chan == l && Registered(s.shared, id, l) {
      assert LoopOk(s, l);
    }
    if id in s.shared.registry {
      assert LoopOk(s, s.shared.registry[id]);
      assert LiveFor(s, s.shared.registry[id], id);
    }
  }

  /** A channel without a sender reads `true`, and one that does has a snapshot as new as its collector. */
  ghost predicate ChannelKept(s: World, c: nat) {
    && c < |s.loops| == |s.shared.channels|
    && (!s.shared.channels[c].open ==> s.shared.channels[c].ready)
    && (s.shared.channels[c].ready ==>
          s.loops[c].plugin in s.shared.store && s.shared.store[s.loops[c].plugin].loop >= c)
  }

  /** The ways a request may end: refused, served by its collector or a later one, or cut off by its guard. */
  ghost predicate EndsWell(s: World, q: Request, cfg: Settings) {
    q.pc.Done? ==>
      match q.pc.outcome
      case NotRegistered => q.plugin !in cfg.enabled
      case Served(b) => q.plugin in cfg.enabled && q.chan <= b.loop < |s.loops| && s.loops[b.loop].plugin == q.plugin
      case GuardExpired => q.plugin in cfg.enabled && s.shared.now >= q.deadline
      case SenderDropped => false
      case SnapshotMissing => false
  }

  /** No request is stranded, in any reachable state. */
  lemma NobodyStranded(states: seq<World>, actions: seq<Action>, cfg: Settings, i: nat)
    requires IsRun(states, actions, cfg) && i < |states|
    ensures forall c :: 0 <= c < |states[i].shared.channels| ==> ChannelKept(states[i], c)
    ensures forall q <- states[i].requests :: EndsWell(states[i], q, cfg)
  {
    var s := states[i];
    InvariantHolds(states, actions, cfg, i);
    forall c | 0 <= c < |s.shared.channels| ensures ChannelKept(s, c) {
      assert LoopOk(s, c);
    }
    forall q <- s.requests ensures EndsWell(s, q, cfg) {
      assert RequestOk(s, q, cfg);
    }
  }

  /** An age in the code's whole milliseconds is short of the real age by less than a millisecond. */
  lemma AgeInNanos(s: Shared, touch: nat, age: nat)
    requires touch / NANOS_PER_MILLI <= NowMillis(s) && Elapsed(s, touch / NANOS_PER_MILLI) >= age
    ensures s.now - touch > age - 1000000
  {
    MillisOf(touch, 0);
    MillisOf(s.now, touch / NANOS_PER_MILLI);
  }

  /**
   * A collector only ever leaves the registry when every touch of its plugin is an idle timeout old by
   * the millisecond clock, and so at least that old but for less than a millisecond.
   */
  lemma RemovalIsQuiet(states: seq<World>, actions: seq<Action>, cfg: Settings, i: nat, id: PluginId, r: nat)
    requires IsRun(states, actions, cfg) && i < |actions|
    requires id in states[i].shared.registry && id !in states[i + 1].shared.registry
    requires r < |states[i].requests| && states[i].requests[r].plugin == id && HasTouched(states[i].requests[r])
    ensures Elapsed(states[i].shared, TouchedAt(states[i].requests[r])) >= cfg.idleTimeout(id)
    ensures states[i].shared.now - states[i].requests[r].touch > cfg.idleTimeout(id) - 1000000
  {
    InvariantHolds(states, actions, cfg, i);
    assert Enabled(states[i], actions[i]);
    RemovalInState(states[i], actions[i], cfg, id, r);
  }

  lemma RemovalInState(s: World, a: Action, cfg: Settings, id: PluginId, r: nat)
    requires Inv(s, cfg) && Enabled(s, a)
    requires id in s.shared.registry && id !in Next(s, a, cfg).shared.registry
    requires r < |s.requests| && s.requests[r].plugin == id && HasTouched(s.requests[r])
    ensures Elapsed(s.shared, TouchedAt(s.requests[r])) >= cfg.idleTimeout(id)
    ensures s.shared.now - s.requests[r].touch > cfg.idleTimeout(id) - 1000000
  {
    assert RequestOk(s, s.requests[r], cfg);
    assert LastRequest(s.shared, id) <= NowMillis(s.shared);
    AgeInNanos(s.shared, s.requests[r].touch, cfg.idleTimeout(id));
  }

  /**
   * The race contract: the collector that a request joined is registered from then on, until at least an
   * idle timeout after the request's touch by the millisecond clock, or less than a millisecond short of it.
   */
  lemma JoinedCollectorStays(states: seq<World>, actions: seq<Action>, cfg: Settings, i: nat, r: nat)
    requires IsRun(states, actions, cfg) && i < |states|
    requires r < |states[i].requests| && HasJoined(states[i].requests[r])
    ensures var s, q := states[i].shared, states[i].requests[r];
            Registered(s, q.plugin, q.chan)
            || (Elapsed(s, TouchedAt(q)) >= cfg.idleTimeout(q.plugin)
                && s.now - q.touch > cfg.idleTimeout(q.plugin) - 1000000)
  {
    var s, q := states[i].shared, states[i].requests[r];
    InvariantHolds(states, actions, cfg, i);
    assert RequestOk(states[i], q, cfg);
    assert LastRequest(s, q.plugin) <= NowMillis(s);
    if !Registered(s, q.plugin, q.chan) { AgeInNanos(s, q.touch, cfg.idleTimeout(q.plugin)); }
  }

  /**
   * Either way the lock goes, a request ends up with a live collector: the registered one, or, when
   * the last one has just removed itself, a new one that has published nothing yet.
   */
  lemma JoinFindsOrSpawns(states: seq<World>, actions: seq<Action>, cfg: Settings, i: nat, r: nat)
    requires IsRun(states, actions, cfg) && i < |actions|
    requires actions[i] == RequestStep(r) && r < |states[i].requests| && states[i].requests[r].pc.ToLock?
    ensures var s, t := states[i], states[i + 1];
            var id := s.requests[r].plugin;
            && r < |t.requests| && HasJoined(t.requests[r]) && t.requests[r].chan < |t.loops|
            && Registered(t.shared, id, t.requests[r].chan) && Live(t.loops[t.requests[r].chan])
            && (id in s.shared.registry ==> t.loops == s.loops && t.shared == s.shared)
            && (id !in s.shared.registry ==>
                  && t.requests[r].chan == |s.loops| && |t.loops| == |s.loops| + 1
                  && t.loops[..|s.loops|] == s.loops && !HasPublished(t.loops[|s.loops|]))
  {
    InvariantHolds(states, actions, cfg, i);
    InvariantHolds(states, actions, cfg, i + 1);
    assert Enabled(states[i], actions[i]);
    assert RequestOk(states[i + 1], states[i + 1].requests[r], cfg);
    assert LoopOk(states[i + 1], states[i + 1].requests[r].chan);
  }

  // ---------------------------------------------------------------------
  // Snapshots never go back
  // ---------------------------------------------------------------------

  predicate NotOlder(a: Body, b: Body) {
    a.loop < b.loop || (a.loop == b.loop && a.cycle <= b.cycle)
  }

  lemma StoreStep(s: World, a: Action, cfg: Settings, id: PluginId)
    requires Inv(s, cfg) && Enabled(s, a) && id in s.shared.store
    ensures id in Next(s, a, cfg).shared.store
    ensures NotOlder(s.shared.store[id], Next(s, a, cfg).shared.store[id])
  {
    if a.LoopStep? {
      assert LoopOk(s, a.l);
      assert LoopOk(s, s.shared.store[id].loop);
    }
  }

  ghost predicate StoreAdvances(states: seq<World>, i: nat, id: PluginId)
    requires i + 1 < |states|
  {
    id in states[i].shared.store ==>
      id in states[i + 1].shared.store && NotOlder(states[i].shared.store[id], states[i + 1].shared.store[id])
  }

  lemma NextStore(states: seq<World>, actions: seq<Action>, cfg: Settings, i: nat, id: PluginId)
    requires IsRun(states, actions, cfg) && i < |actions|
    ensures StoreAdvances(states, i, id)
  {
    InvariantHolds(states, actions, cfg, i);
    assert Enabled(states[i], actions[i]);
    if id in states[i].shared.store { StoreStep(states[i], actions[i], cfg, id); }
  }

  lemma {:induction false} StoreChain(states: seq<World>, i: nat, j: nat, id: PluginId)
    requires i <= j < |states| && id in states[i].shared.store
    requires forall k :: 0 <= k < |states| - 1 ==> StoreAdvances(states, k, id)
    ensures id in states[j].shared.store
    ensures NotOlder(states[i].shared.store[id], states[j].shared.store[id])
    decreases j
  {
    if i < j {
      StoreChain(states, i, j - 1, id);
      assert StoreAdvances(states, j - 1, id);
    }
  }

  /** The store never loses a key, and what it holds is only ever replaced by a later cycle. */
  lemma StoreOnlyAdvances(states: seq<World>, actions: seq<Action>, cfg: Settings, i: nat, j: nat, id: PluginId)
    requires IsRun(states, actions, cfg) && i <= j < |states| && id in states[i].shared.store
    ensures id in states[j].shared.store
    ensures NotOlder(states[i].shared.store[id], states[j].shared.store[id])
  {
    forall k | 0 <= k < |states| - 1 ensures StoreAdvances(states, k, id) {
      NextStore(states, actions, cfg, k, id);
    }
    StoreChain(states, i, j, id);
  }

  // ---------------------------------------------------------------------
  // Nobody waits for ever
  // ---------------------------------------------------------------------

  lemma CollectorStaysForCycles(c: Config, states: seq<World>, actions: seq<Action>, i: nat, r: nat)
    requires IsRun(states, actions, SettingsOf(c)) && i < |states|
    requires r < |states[i].requests| && HasJoined(states[i].requests[r])
    ensures var s, q := states[i].shared, states[i].requests[r];
            Registered(s, q.plugin, q.chan) || Elapsed(s, TouchedAt(q)) >= c.idleCycles * RefreshFor(c, q.plugin)
  {
    JoinedCollectorStays(states, actions, SettingsOf(c), i, r);
  }

  /** How many pieces of its own a request still has in front of it, at most. */
  function Remaining(s: World, r: nat): nat
    requires r < |s.requests|
  {
    var q := s.requests[r];
    var ready := q.chan < |s.shared.channels| && s.shared.channels[q.chan].ready;
    match q.pc
    case Arriving => 7
    case ToTouch => 6
    case ToLock => 5
    case Polling => if ready then 2 else 4
    case Parked => 3
    case Fetching => 1
    case Done(_) => 0
  }

  predicate MovesRequest(a: Action, r: nat) {
    a == RequestStep(r) || a == Expire(r)
  }

  /** A channel that reads `true` goes on reading `true`, and only its own steps change a request. */
  lemma OthersKeepRequest(s: World, a: Action, cfg: Settings, r: nat)
    requires Enabled(s, a) && r < |s.requests|
    ensures var t := Next(s, a, cfg);
            && r < |t.requests| && (!MovesRequest(a, r) ==> t.requests[r] == s.requests[r])
            && |s.shared.channels| <= |t.shared.channels|
            && forall c :: 0 <= c < |s.shared.channels| && s.shared.channels[c].ready ==> t.shared.channels[c].ready
  {
  }

  lemma OwnStepDescends(s: World, a: Action, cfg: Settings, r: nat)
    requires Enabled(s, a) && r < |s.requests| && MovesRequest(a, r) && RequestOk(s, s.requests[r], cfg)
    ensures var t := Next(s, a, cfg);
            r < |t.requests| && Remaining(t, r) < Remaining(s, r)
  {
  }

  /** Nobody else's step sets a request back, and each of its own steps takes it forward. */
  lemma StepsDescend(s: World, a: Action, cfg: Settings, r: nat)
    requires Inv(s, cfg) && Enabled(s, a) && r < |s.requests|
    ensures var t := Next(s, a, cfg);
            && r < |t.requests| && Remaining(t, r) <= Remaining(s, r)
            && (MovesRequest(a, r) ==> Remaining(t, r) < Remaining(s, r))
  {
    assert RequestOk(s, s.requests[r], cfg);
    OthersKeepRequest(s, a, cfg, r);
    if MovesRequest(a, r) { OwnStepDescends(s, a, cfg, r); }
  }

  function OwnSteps(actions: seq<Action>, r: nat): nat {
    if actions == [] then 0
    else OwnSteps(actions[..|actions| - 1], r) + if MovesRequest(actions[|actions| - 1], r) then 1 else 0
  }

  ghost predicate Descends(states: seq<World>, actions: seq<Action>, r: nat, i: nat)
    requires i < |actions| && |states| == |actions| + 1
  {
    r < |states[i].requests| ==>
      && r < |states[i + 1].requests|
      && Remaining(states[i + 1], r) + (if MovesRequest(actions[i], r) then 1 else 0) <= Remaining(states[i], r)
  }

  lemma RunDescends(states: seq<World>, actions: seq<Action>, cfg: Settings, r: nat, i: nat)
    requires IsRun(states, actions, cfg) && i < |actions|
    ensures Descends(states, actions, r, i)
  {
    InvariantHolds(states, actions, cfg, i);
    assert Enabled(states[i], actions[i]);
    if r < |states[i].requests| { StepsDescend(states[i], actions[i], cfg, r); }
  }

  lemma {:induction false} OwnStepsFrom(states: seq<World>, actions: seq<Action>, i: nat, j: nat, r: nat)
    requires |states| == |actions| + 1 && i <= j < |states| && r < |states[i].requests|
    requires forall k :: 0 <= k < |actions| ==> Descends(states, actions, r, k)
    ensures r < |states[j].requests|
    ensures OwnSteps(actions[i..j], r) + Remaining(states[j], r) <= Remaining(states[i], r)
    decreases j - i
  {
    if i < j {
      OwnStepsFrom(states, actions, i, j - 1, r);
      assert Descends(states, actions, r, j - 1);
      assert actions[i..j][..j - i - 1] == actions[i..j - 1];
    }
  }

  /** Over any run a request takes at most seven steps of its own. */
  lemma RequestsAreShort(states: seq<World>, actions: seq<Action>, cfg: Settings, i: nat, r: nat)
    requires IsRun(states, actions, cfg) && i < |states| && r < |states[i].requests|
    ensures OwnSteps(actions[i..], r) <= 7
  {
    forall k | 0 <= k < |actions| ensures Descends(states, actions, r, k) {
      RunDescends(states, actions, cfg, r, k);
    }
    OwnStepsFrom(states, actions, i, |actions|, r);
    assert actions[i..|actions|] == actions[i..];
  }

  /** In every reachable state an unfinished request can move, at the latest at its deadline. */
  lemma RequestsCanMove(states: seq<World>, actions: seq<Action>, cfg: Settings, i: nat, r: nat, nanos: nat)
    requires IsRun(states, actions, cfg) && i < |states|
    requires r < |states[i].requests| && !states[i].requests[r].pc.Done?
    requires states[i].shared.now + nanos >= states[i].requests[r].deadline
    ensures var t := Next(states[i], Pass(nanos), cfg);
            Enabled(t, RequestStep(r)) || Enabled(t, Expire(r))
  {
    InvariantHolds(states, actions, cfg, i);
    assert RequestOk(states[i], states[i].requests[r], cfg);
  }

  /** In every reachable state an unfinished collector can move, at the latest when its sleep is over. */
  lemma CollectorsCanMove(states: seq<World>, actions: seq<Action>, cfg: Settings, i: nat, l: nat, nanos: nat)
    requires IsRun(states, actions, cfg) && i < |states|
    requires l < |states[i].loops| && !states[i].loops[l].pc.Gone?
    requires states[i].loops[l].pc.Sleeping? ==> states[i].shared.now + nanos >= states[i].loops[l].pc.until
    ensures Enabled(Next(states[i], Pass(nanos), cfg), LoopStep(l))
  {
    InvariantHolds(states, actions, cfg, i);
    assert LoopOk(states[i], l);
  }

  // ---------------------------------------------------------------------
  // An idle collector stops
  // ---------------------------------------------------------------------

  /** How many steps of its own an idle collector still takes, at most; 1 when it has left the registry. */
  function LoopRemaining(p: Loop): nat {
    match p.pc
    case Collecting => 8
    case Observing => 7
    case Publishing => 6
    case Signalling => 5
    case Sleeping(_) => 4
    case Checking => 3
    case Locking => 2
    case Leaving => 1
    case Gone => 0
  }

  /** The step bumps the timestamp of `id`. */
  predicate Touches(s: World, a: Action, id: PluginId) {
    a.RequestStep? && a.r < |s.requests| && s.requests[a.r].pc.ToTouch? && s.requests[a.r].plugin == id
  }

  predicate IdleEnough(s: World, cfg: Settings, id: PluginId) {
    IdleFor(s.shared, id) >= cfg.idleTimeout(id)
  }

  lemma ElapsedGrows(s: Shared, t: Shared, last: nat)
    requires s.now <= t.now
    ensures Elapsed(s, last) <= Elapsed(t, last)
  {
    MillisGrow(s.now, t.now);
  }

  lemma IdleStays(s: World, a: Action, cfg: Settings, id: PluginId)
    requires Enabled(s, a) && IdleEnough(s, cfg, id) && !Touches(s, a, id)
    ensures IdleEnough(Next(s, a, cfg), cfg, id)
  {
    ElapsedGrows(s.shared, Next(s, a, cfg).shared, LastRequest(s.shared, id));
  }

  lemma IdleCollectorDescends(s: World, a: Action, cfg: Settings, l: nat)
    requires Enabled(s, a) && l < |s.loops| && IdleEnough(s, cfg, s.loops[l].plugin)
    ensures var t := Next(s, a, cfg);
            && l < |t.loops| && t.loops[l].plugin == s.loops[l].plugin
            && LoopRemaining(t.loops[l]) + (if a == LoopStep(l) then 1 else 0) <= LoopRemaining(s.loops[l])
  {
  }

  function LoopSteps(actions: seq<Action>, l: nat): nat {
    if actions == [] then 0
    else LoopSteps(actions[..|actions| - 1], l) + if actions[|actions| - 1] == LoopStep(l) then 1 else 0
  }

  /** Step `k` keeps an idle collector idle and takes it no further from leaving. */
  ghost predicate Winds(states: seq<World>, actions: seq<Action>, cfg: Settings, l: nat, k: nat)
    requires |states| == |actions| + 1 && k < |actions|
  {
    var s, t := states[k], states[k + 1];
    l < |s.loops| && IdleEnough(s, cfg, s.loops[l].plugin) && !Touches(s, actions[k], s.loops[l].plugin) ==>
      && l < |t.loops| && t.loops[l].plugin == s.loops[l].plugin && IdleEnough(t, cfg, t.loops[l].plugin)
      && LoopRemaining(t.loops[l]) + (if actions[k] == LoopStep(l) then 1 else 0) <= LoopRemaining(s.loops[l])
  }

  lemma RunWinds(states: seq<World>, actions: seq<Action>, cfg: Settings, l: nat, k: nat)
    requires IsRun(states, actions, cfg) && k < |actions|
    ensures Winds(states, actions, cfg, l, k)
  {
    var s, a := states[k], actions[k];
    assert Enabled(s, a);
    if l < |s.loops| && IdleEnough(s, cfg, s.loops[l].plugin) && !Touches(s, a, s.loops[l].plugin) {
      IdleStays(s, a, cfg, s.loops[l].plugin);
      IdleCollectorDescends(s, a, cfg, l);
    }
  }

  lemma {:induction false} WindsDown(states: seq<World>, actions: seq<Action>, cfg: Settings, i: nat, j: nat, l: nat)
    requires |states| == |actions| + 1 && i <= j < |states| && l < |states[i].loops|
    requires IdleEnough(states[i], cfg, states[i].loops[l].plugin)
    requires forall k :: 0 <= k < |actions| ==> Winds(states, actions, cfg, l, k)
    requires forall k :: i <= k < j ==> !Touches(states[k], actions[k], states[i].loops[l].plugin)
    ensures l < |states[j].loops| && states[j].loops[l].plugin == states[i].loops[l].plugin
    ensures IdleEnough(states[j], cfg, states[i].loops[l].plugin)
    ensures LoopSteps(actions[i..j], l) + LoopRemaining(states[j].loops[l]) <= LoopRemaining(states[i].loops[l])
    decreases j - i
  {
    if i < j {
      WindsDown(states, actions, cfg, i, j - 1, l);
      assert Winds(states, actions, cfg, l, j - 1);
      assert actions[i..j][..j - i - 1] == actions[i..j - 1];
    }
  }

  /**
   * The idle check is the stop mechanism: once a plugin has been idle for its timeout, and while nobody
   * touches it, its collector has left the registry after at most seven steps of its own.
   */
  lemma IdleCollectorStops(states: seq<World>, actions: seq<Action>, cfg: Settings, i: nat, j: nat, l: nat)
    requires IsRun(states, actions, cfg) && i <= j < |states| && l < |states[i].loops|
    requires IdleEnough(states[i], cfg, states[i].loops[l].plugin)
    requires forall k :: i <= k < j ==> !Touches(states[k], actions[k], states[i].loops[l].plugin)
    requires LoopSteps(actions[i..j], l) >= 7
    ensures l < |states[j].loops| && !Live(states[j].loops[l])
    ensures !Registered(states[j].shared, states[i].loops[l].plugin, l)
  {
    forall k | 0 <= k < |actions| ensures Winds(states, actions, cfg, l, k) {
      RunWinds(states, actions, cfg, l, k);
    }
    WindsDown(states, actions, cfg, i, j, l);
    InvariantHolds(states, actions, cfg, j);
    assert LoopOk(states[j], l);
  }

  lemma Extend(states: seq<World>, actions: seq<Action>, cfg: Settings, a: Action, next: World)
    returns (longer: seq<World>, done: seq<Action>)
    requires IsRun(states, actions, cfg) && Enabled(states[|actions|], a) && next == Next(states[|actions|], a, cfg)
    ensures IsRun(longer, done, cfg) && longer[|done|] == next
  {
    RunExtends(states, actions, cfg, a, next);
    longer, done := states + [next], actions + [a];
  }

  /** The world of one request, one collector and one channel. */
  function Pair(id: PluginId, ready: bool, store: map<PluginId, Body>, loop: LoopPc, request: RequestPc,
                guard: nat): World {
    World(Shared(0, map[id := 0], map[id := 0], [Channel(ready, true)], store),
           [Loop(id, 0, loop, 0)], [Request(id, request, 0, 0, guard)])
  }

  lemma WakingRun(cfg: Settings, id: PluginId) returns (states: seq<World>, actions: seq<Action>)
    requires id in cfg.enabled
    ensures IsRun(states, actions, cfg) && states[|actions|] == Pair(id, false, map[], Collecting, Polling, cfg.guard)
  {
    states, actions := [START], [];
    var nobody := Shared(0, map[], map[], [], map[]);
    states, actions := Extend(states, actions, cfg, Arrive(id), World(nobody, [], [Request(id, Arriving, 0, 0, 0)]));
    states, actions := Extend(states, actions, cfg, RequestStep(0), World(nobody, [], [Request(id, ToTouch, 0, 0, 0)]));
    var touched := nobody.(lastRequest := map[id := 0]);
    states, actions := Extend(states, actions, cfg, RequestStep(0), World(touched, [], [Request(id, ToLock, 0, 0, 0)]));
    states, actions := Extend(states, actions, cfg, RequestStep(0),
                              Pair(id, false, map[], Collecting, Polling, cfg.guard));
  }

  /** Requests are really served: a cold plugin's first request can end with its collector's first body. */
  lemma ServedRun(cfg: Settings, id: PluginId) returns (states: seq<World>, actions: seq<Action>)
    requires id in cfg.enabled
    ensures IsRun(states, actions, cfg) && |states[|actions|].requests| == 1
    ensures states[|actions|].requests[0].pc == Done(Served(Body(0, 0)))
  {
    var g, sleep, none, some := cfg.guard, Sleeping(cfg.refresh(id)), map[], map[id := Body(0, 0)];
    states, actions := WakingRun(cfg, id);
    states, actions := Extend(states, actions, cfg, LoopStep(0), Pair(id, false, none, Observing, Polling, g));
    states, actions := Extend(states, actions, cfg, LoopStep(0), Pair(id, false, none, Publishing, Polling, g));
    states, actions := Extend(states, actions, cfg, LoopStep(0), Pair(id, false, some, Signalling, Polling, g));
    states, actions := Extend(states, actions, cfg, LoopStep(0), Pair(id, true, some, sleep, Polling, g));
    states, actions := Extend(states, actions, cfg, RequestStep(0), Pair(id, true, some, sleep, Fetching, g));
    states, actions := Extend(states, actions, cfg, RequestStep(0),
                              Pair(id, true, some, sleep, Done(Served(Body(0, 0))), g));
  }
}
