/** The state that requests and collectors share, and the critical sections on it (src/state.rs, src/collector.rs). */
module SharedState {
  import opened Wrappers
  import opened Plugins

  const NANOS_PER_MILLI: nat := 1000000

  /** A watch channel: its value, and whether its sender still exists. */
  datatype Channel = Channel(ready: bool, open: bool)

  /** A published body, named by the collector and the cycle that made it. */
  datatype Body = Body(loop: nat, cycle: nat)

  /** `now` is in nanoseconds since start; `lastRequest` in whole milliseconds, absent meaning 0. */
  datatype Shared = Shared(
    now: nat,
    lastRequest: map<PluginId, nat>,
    registry: map<PluginId, nat>,
    channels: seq<Channel>,
    store: map<PluginId, Body>)

  function NowMillis(s: Shared): nat {
    s.now / NANOS_PER_MILLI
  }

  function LastRequest(s: Shared, id: PluginId): nat {
    if id in s.lastRequest then s.lastRequest[id] else 0
  }

  /** Whole milliseconds from `last` to now, never negative, as a duration in nanoseconds. */
  function Elapsed(s: Shared, last: nat): nat {
    if NowMillis(s) < last then 0 else (NowMillis(s) - last) * NANOS_PER_MILLI
  }

  function IdleFor(s: Shared, id: PluginId): nat {
    Elapsed(s, LastRequest(s, id))
  }

  function Touched(s: Shared, id: PluginId): Shared {
    s.(lastRequest := s.lastRequest[id := NowMillis(s)])
  }

  function Published(s: Shared, id: PluginId, body: Body): Shared {
    s.(store := s.store[id := body])
  }

  function SnapshotOf(s: Shared, id: PluginId): Option<Body> {
    Stored(s.store, id)
  }

  function Stored(store: map<PluginId, Body>, id: PluginId): Option<Body> {
    if id in store then Some(store[id]) else None
  }

  /** The critical section of a request: the channel it joins, made on the spot when nobody is registered. */
  function Joined(s: Shared, id: PluginId): (Shared, nat) {
    if id in s.registry then (s, s.registry[id])
    else
      var newest := |s.channels|;
      (s.(channels := s.channels + [Channel(false, true)], registry := s.registry[id := newest]), newest)
  }

  /** The critical section of a collector about to stop: it stays if a request came in meanwhile. */
  function Retired(s: Shared, id: PluginId, idleTimeout: nat): (Shared, bool) {
    if IdleFor(s, id) >= idleTimeout then (s.(registry := s.registry - {id}), true) else (s, false)
  }

  function Signalled(s: Shared, chan: nat): Shared
    requires chan < |s.channels|
  {
    s.(channels := s.channels[chan := s.channels[chan].(ready := true)])
  }

  function Closed(s: Shared, chan: nat): Shared
    requires chan < |s.channels|
  {
    s.(channels := s.channels[chan := s.channels[chan].(open := false)])
  }

  /** `body` is the last one published for `id`, if any was. */
  ghost predicate IsLatest(published: seq<(PluginId, Body)>, id: PluginId, body: Option<Body>) {
    match body
    case None => forall i :: 0 <= i < |published| ==> published[i].0 != id
    case Some(b) =>
      exists i :: 0 <= i < |published| && published[i] == (id, b) && NoneAfter(published, id, i)
  }

  ghost predicate NoneAfter(published: seq<(PluginId, Body)>, id: PluginId, i: nat) {
    forall j :: i < j < |published| ==> published[j].0 != id
  }

  lemma LatestAppend(published: seq<(PluginId, Body)>, newest: (PluginId, Body), id: PluginId, body: Option<Body>)
    requires IsLatest(published, id, body)
    ensures IsLatest(published + [newest], id, if id == newest.0 then Some(newest.1) else body)
  {
    var longer := published + [newest];
    if id == newest.0 {
      assert longer[|published|] == (id, newest.1) && NoneAfter(longer, id, |published|);
    } else if body.Some? {
      var i :| 0 <= i < |published| && published[i] == (id, body.value) && NoneAfter(published, id, i);
      assert longer[i] == (id, body.value) && NoneAfter(longer, id, i);
    }
  }

  ghost predicate HoldsLatestOf(store: map<PluginId, Body>, published: seq<(PluginId, Body)>, id: PluginId) {
    IsLatest(published, id, Stored(store, id))
  }

  ghost predicate HoldsLatest(store: map<PluginId, Body>, published: seq<(PluginId, Body)>) {
    forall id: PluginId :: HoldsLatestOf(store, published, id)
  }

  lemma PublishKeepsLatest(store: map<PluginId, Body>, published: seq<(PluginId, Body)>, id: PluginId, body: Body)
    requires HoldsLatest(store, published)
    ensures HoldsLatest(store[id := body], published + [(id, body)])
  {
    var later, longer := store[id := body], published + [(id, body)];
    forall other: PluginId ensures HoldsLatestOf(later, longer, other) {
      assert HoldsLatestOf(store, published, other);
      LatestAppend(published, (id, body), other, Stored(store, other));
    }
  }

  lemma MillisOf(now: nat, last: nat)
    ensures var millis := now / NANOS_PER_MILLI;
            && millis * NANOS_PER_MILLI <= now < millis * NANOS_PER_MILLI + NANOS_PER_MILLI
            && (last <= millis ==>
                  last * NANOS_PER_MILLI + (millis - last) * NANOS_PER_MILLI == millis * NANOS_PER_MILLI)
  {
  }

  /** The same state held in place, with the operations of `AppState` and the two critical sections. */
  class AppState {
    var now: nat
    var lastRequest: map<PluginId, nat>
    var registry: map<PluginId, nat>
    var channels: seq<Channel>
    var store: map<PluginId, Body>
    ghost var published: seq<(PluginId, Body)>

    ghost function View(): Shared
      reads this
    {
      Shared(now, lastRequest, registry, channels, store)
    }

    /** Registered channels have their sender, and the store holds what was published last. */
    ghost predicate Valid()
      reads this
    {
      && (forall id <- registry.Keys :: registry[id] < |channels| && channels[registry[id]].open)
      && HoldsLatest(store, published)
    }

    constructor ()
      ensures Valid() && View() == Shared(0, map[], map[], [], map[]) && published == []
    {
      now, registry, channels, store, lastRequest := 0, map[], [], map[], map[];
      published := [];
    }

    /** The monotonic clock moves on. */
    method Pass(nanos: nat)
      requires Valid()
      modifies this`now
      ensures Valid() && View() == old(View()).(now := old(now) + nanos)
    {
      now := now + nanos;
    }

    /** From now on this plugin has been idle for no time, and every other one as long as before. */
    method Touch(id: PluginId)
      requires Valid()
      modifies this`lastRequest
      ensures Valid() && View() == Touched(old(View()), id)
      ensures IdleFor(View(), id) == 0
      ensures forall other :: other != id ==> IdleFor(View(), other) == IdleFor(old(View()), other)
    {
      lastRequest := lastRequest[id := now / NANOS_PER_MILLI];
    }

    /** The last request and the idle time add up to now, in whole milliseconds; a later stamp reads as none. */
    method Idle(id: PluginId) returns (d: nat)
      ensures d == IdleFor(View(), id)
      ensures var last := LastRequest(View(), id) * 1000000;
              if last <= now then last + d <= now < last + d + 1000000 else d == 0
    {
      var last := if id in lastRequest then lastRequest[id] else 0;
      var millis := now / NANOS_PER_MILLI;
      MillisOf(now, last);
      d := if millis < last then 0 else (millis - last) * NANOS_PER_MILLI;
    }

    method Publish(id: PluginId, body: Body)
      requires Valid()
      modifies this`store, this`published
      ensures Valid() && View() == Published(old(View()), id, body) && published == old(published) + [(id, body)]
    {
      PublishKeepsLatest(store, published, id, body);
      store := store[id := body];
      published := published + [(id, body)];
    }

    /** The body published last for the plugin, whoever collects now; nothing only if none ever was. */
    method Snapshot(id: PluginId) returns (body: Option<Body>)
      requires Valid()
      ensures body == SnapshotOf(View(), id)
      ensures IsLatest(published, id, body)
    {
      body := if id in store then Some(store[id]) else None;
      assert HoldsLatestOf(store, published, id);
    }

    /** The plugin ends up registered on an open channel, a new unsignalled one if it was not registered. */
    method Join(id: PluginId) returns (chan: nat)
      requires Valid()
      modifies this`registry, this`channels
      ensures Valid() && (View(), chan) == Joined(old(View()), id)
      ensures id in registry && registry[id] == chan && chan < |channels| && channels[chan].open
      ensures id in old(registry) ==> View() == old(View())
      ensures id !in old(registry) ==>
                && channels == old(channels) + [Channel(false, true)] && chan == |old(channels)|
                && registry == old(registry)[id := chan]
    {
      if id in registry { return registry[id]; }
      chan := |channels|;
      channels := channels + [Channel(false, true)];
      registry := registry[id := chan];
    }

    /** The plugin leaves the registry if it is still idle, alone; otherwise nothing changes. */
    method Retire(id: PluginId, idleTimeout: nat) returns (stopped: bool)
      requires Valid()
      modifies this`registry
      ensures Valid() && (View(), stopped) == Retired(old(View()), id, idleTimeout)
      ensures stopped <==> IdleFor(View(), id) >= idleTimeout
      ensures stopped ==> id !in registry
      ensures forall other :: !stopped || other != id ==>
                (other in registry <==> other in old(registry))
                && (other in registry ==> registry[other] == old(registry)[other])
    {
      var idle := Idle(id);
      stopped := idle >= idleTimeout;
      if stopped { registry := registry - {id}; }
    }

    method Signal(chan: nat)
      requires Valid() && chan < |channels|
      modifies this`channels
      ensures Valid() && View() == Signalled(old(View()), chan) && channels[chan].ready
    {
      channels := channels[chan := channels[chan].(ready := true)];
    }

    /** A returning collector drops its sender, which nobody is registered on any more. */
    method Close(chan: nat)
      requires Valid() && chan < |channels| && forall id <- registry.Keys :: registry[id] != chan
      modifies this`channels
      ensures Valid() && View() == Closed(old(View()), chan) && !channels[chan].open
    {
      channels := channels[chan := channels[chan].(open := false)];
    }
  }
}
