/**
 * What a collector does while it lives, and when: every cycle is collected, observed and published, a
 * refresh apart, and a request waits as long as its guard (src/collector.rs:42-159), over all runs.
 */
module Timing {
  import opened Plugins
  import opened SharedState
  import opened Collector

  // ---------------------------------------------------------------------
  // The store holds the latest cycle of a live collector
  // ---------------------------------------------------------------------

  /** The collector has published the cycle it is in. */
  predicate PastPublishing(p: Loop) {
    p.pc.Signalling? || p.pc.Sleeping? || p.pc.Checking? || p.pc.Locking?
  }

  /** The cycle that a live collector has published last, if any, is what the store holds. */
  ghost predicate Fresh(s: World, l: nat)
    requires l < |s.loops|
  {
    var p := s.loops[l];
    Live(p) ==>
      if PastPublishing(p) || p.cycle > 0 then
        && p.plugin in s.shared.store
        && s.shared.store[p.plugin] == Body(l, if PastPublishing(p) then p.cycle else p.cycle - 1)
      else p.plugin in s.shared.store ==> s.shared.store[p.plugin].loop != l
  }

  /** A step of another participant leaves a collector as it is. */
  lemma OthersKeepLoop(s: World, a: Action, cfg: Settings, l: nat)
    requires Enabled(s, a) && a != LoopStep(l)
    ensures l < |s.loops| ==> l < |Next(s, a, cfg).loops| && Next(s, a, cfg).loops[l] == s.loops[l]
    ensures |s.loops| <= l < |Next(s, a, cfg).loops| ==>
              Next(s, a, cfg).loops[l].pc.Collecting? && Next(s, a, cfg).loops[l].cycle == 0
  {
  }

  /** Another participant does not write the store under the plugin of a live collector. */
  lemma OthersKeepStore(s: World, a: Action, cfg: Settings, l: nat)
    requires Inv(s, cfg) && Enabled(s, a) && a != LoopStep(l) && l < |s.loops| && Live(s.loops[l])
    ensures var id, t := s.loops[l].plugin, Next(s, a, cfg);
            && (id in t.shared.store <==> id in s.shared.store)
            && (id in s.shared.store ==> t.shared.store[id] == s.shared.store[id])
  {
    assert LoopOk(s, l);
    if a.LoopStep? { assert LoopOk(s, a.l); }
  }

  lemma OwnStepKeepsFresh(s: World, cfg: Settings, l: nat)
    requires l < |s.loops| && LoopEnabled(s, l) && Fresh(s, l)
    ensures Fresh(LoopNext(s, l, cfg), l)
  {
  }

  lemma NewLoopIsFresh(s: World, a: Action, cfg: Settings, l: nat)
    requires Inv(s, cfg) && Enabled(s, a) && |s.loops| <= l < |Next(s, a, cfg).loops|
    ensures Fresh(Next(s, a, cfg), l)
  {
  }

  lemma FreshStep(s: World, a: Action, cfg: Settings, l: nat)
    requires Inv(s, cfg) && Enabled(s, a)
    requires l < |s.loops| ==> Fresh(s, l)
    requires l < |Next(s, a, cfg).loops|
    ensures Fresh(Next(s, a, cfg), l)
  {
    if l >= |s.loops| {
      NewLoopIsFresh(s, a, cfg, l);
    } else if a == LoopStep(l) {
      OwnStepKeepsFresh(s, cfg, l);
    } else {
      OthersKeepLoop(s, a, cfg, l);
      if Live(s.loops[l]) { OthersKeepStore(s, a, cfg, l); }
    }
  }

  lemma {:induction false} AlwaysFresh(states: seq<World>, actions: seq<Action>, cfg: Settings, i: nat, l: nat)
    requires IsRun(states, actions, cfg) && i < |states| && l < |states[i].loops|
    ensures Fresh(states[i], l)
    decreases i
  {
    if i > 0 {
      assert Enabled(states[i - 1], actions[i - 1]);
      InvariantHolds(states, actions, cfg, i - 1);
      if l < |states[i - 1].loops| { AlwaysFresh(states, actions, cfg, i - 1, l); }
      FreshStep(states[i - 1], actions[i - 1], cfg, l);
    }
  }

  /**
   * In every reachable state a live collector's plugin has that collector's latest cycle in the store: the
   * cycle it is in once that is published, and the one before it until then.
   */
  lemma StoreHoldsLatestCycle(states: seq<World>, actions: seq<Action>, cfg: Settings, i: nat, l: nat)
    requires IsRun(states, actions, cfg) && i < |states| && l < |states[i].loops|
    ensures var store, p := states[i].shared.store, states[i].loops[l];
            && (p.pc.Signalling? || p.pc.Sleeping? || p.pc.Checking? || p.pc.Locking? ==>
                  p.plugin in store && store[p.plugin] == Body(l, p.cycle))
            && ((p.pc.Collecting? || p.pc.Observing? || p.pc.Publishing?) && p.cycle > 0 ==>
                  p.plugin in store && store[p.plugin] == Body(l, p.cycle - 1))
  {
    AlwaysFresh(states, actions, cfg, i, l);
  }

  /** A request that fetches while its plugin's collector is past publishing is served that very cycle. */
  lemma ServedThisCycle(states: seq<World>, actions: seq<Action>, cfg: Settings, i: nat, r: nat, l: nat)
    requires IsRun(states, actions, cfg) && i < |actions| && actions[i] == RequestStep(r)
    requires r < |states[i].requests| && states[i].requests[r].pc.Fetching?
    requires LiveFor(states[i], l, states[i].requests[r].plugin) && PastPublishing(states[i].loops[l])
    ensures r < |states[i + 1].requests|
    ensures states[i + 1].requests[r].pc == Done(Served(Body(l, states[i].loops[l].cycle)))
  {
    AlwaysFresh(states, actions, cfg, i, l);
    assert Enabled(states[i], actions[i]);
  }

  // ---------------------------------------------------------------------
  // A collector that stays goes on publishing
  // ---------------------------------------------------------------------

  /** Step `k` is collector `l` publishing. */
  predicate Publishes(states: seq<World>, actions: seq<Action>, l: nat, k: nat)
    requires |states| == |actions| + 1 && k < |actions|
  {
    actions[k] == LoopStep(l) && l < |states[k].loops| && states[k].loops[l].pc.Publishing?
  }

  /** Publishing puts the collector's own cycle into the store, and the next publication a later one. */
  lemma PublicationIsStored(states: seq<World>, actions: seq<Action>, cfg: Settings, k: nat, l: nat)
    requires IsRun(states, actions, cfg) && k < |actions| && Publishes(states, actions, l, k)
    ensures var id, c := states[k].loops[l].plugin, states[k].loops[l].cycle;
            && id in states[k + 1].shared.store && states[k + 1].shared.store[id] == Body(l, c)
            && (id in states[k].shared.store ==> states[k].shared.store[id] != Body(l, c))
  {
    InvariantHolds(states, actions, cfg, k);
    AlwaysFresh(states, actions, cfg, k, l);
    assert Enabled(states[k], actions[k]);
    assert LoopOk(states[k], l);
  }

  /** How many steps of its own a collector takes up to and including its next publication. */
  function UntilPublished(p: Loop): nat {
    match p.pc
    case Publishing => 1
    case Observing => 2
    case Collecting => 3
    case Locking => 4
    case Checking => 5
    case Sleeping(_) => 6
    case Signalling => 7
    case Leaving => 0
    case Gone => 0
  }

  lemma StepTowardsPublishing(states: seq<World>, actions: seq<Action>, cfg: Settings, k: nat, l: nat)
    requires IsRun(states, actions, cfg) && k < |actions| && l < |states[k].loops|
    ensures l < |states[k + 1].loops| && states[k + 1].loops[l].plugin == states[k].loops[l].plugin
    ensures Live(states[k + 1].loops[l]) ==> Live(states[k].loops[l])
    ensures Live(states[k + 1].loops[l]) && !Publishes(states, actions, l, k) ==>
              UntilPublished(states[k + 1].loops[l]) + (if actions[k] == LoopStep(l) then 1 else 0)
              <= UntilPublished(states[k].loops[l])
  {
    assert Enabled(states[k], actions[k]);
  }

  lemma {:induction false} TowardsPublishing(states: seq<World>, actions: seq<Action>, cfg: Settings, i: nat, j: nat,
                                             l: nat)
    requires IsRun(states, actions, cfg) && i <= j < |states| && l < |states[i].loops|
    requires forall k :: i <= k < j ==> !Publishes(states, actions, l, k)
    ensures l < |states[j].loops|
    ensures Live(states[j].loops[l]) ==>
              && Live(states[i].loops[l])
              && LoopSteps(actions[i..j], l) + UntilPublished(states[j].loops[l]) <= UntilPublished(states[i].loops[l])
    decreases j - i
  {
    if i < j {
      TowardsPublishing(states, actions, cfg, i, j - 1, l);
      StepTowardsPublishing(states, actions, cfg, j - 1, l);
      assert actions[i..j][..j - i - 1] == actions[i..j - 1];
    }
  }

  /** Within any seven steps of its own a collector publishes, unless it leaves. */
  lemma KeepsPublishing(states: seq<World>, actions: seq<Action>, cfg: Settings, i: nat, j: nat, l: nat)
    requires IsRun(states, actions, cfg) && i <= j < |states| && l < |states[i].loops|
    requires LoopSteps(actions[i..j], l) >= 7
    ensures l < |states[j].loops|
    ensures Live(states[j].loops[l]) ==> exists k :: i <= k < j && Publishes(states, actions, l, k)
  {
    LoopStaysListed(states, actions, cfg, i, j, l);
    if forall k :: i <= k < j ==> !Publishes(states, actions, l, k) {
      TowardsPublishing(states, actions, cfg, i, j, l);
    }
  }

  lemma {:induction false} LoopStaysListed(states: seq<World>, actions: seq<Action>, cfg: Settings, i: nat, j: nat,
                                           l: nat)
    requires IsRun(states, actions, cfg) && i <= j < |states| && l < |states[i].loops|
    ensures l < |states[j].loops| && states[j].loops[l].plugin == states[i].loops[l].plugin
    decreases j - i
  {
    if i < j {
      LoopStaysListed(states, actions, cfg, i, j - 1, l);
      StepTowardsPublishing(states, actions, cfg, j - 1, l);
    }
  }

  // ---------------------------------------------------------------------
  // Each published cycle was collected and observed
  // ---------------------------------------------------------------------

  /** A collector that is not at its very start got where it is by a step of its own. */
  lemma {:induction false} LastOwnStep(states: seq<World>, actions: seq<Action>, cfg: Settings, k: nat, l: nat)
    returns (h: nat)
    requires IsRun(states, actions, cfg) && k < |states| && l < |states[k].loops|
    requires !states[k].loops[l].pc.Collecting?
    ensures h < k && actions[h] == LoopStep(l) && l < |states[h].loops| && l < |states[h + 1].loops|
    ensures states[h + 1].loops[l] == states[k].loops[l]
    decreases k
  {
    assert Enabled(states[k - 1], actions[k - 1]);
    if actions[k - 1] == LoopStep(l) {
      h := k - 1;
    } else {
      OthersKeepLoop(states[k - 1], actions[k - 1], cfg, l);
      h := LastOwnStep(states, actions, cfg, k - 1, l);
    }
  }

  lemma StepBackFrom(states: seq<World>, actions: seq<Action>, cfg: Settings, h: nat, l: nat)
    requires IsRun(states, actions, cfg) && h < |actions| && actions[h] == LoopStep(l)
    requires l < |states[h].loops| && l < |states[h + 1].loops|
    ensures var before, after := states[h].loops[l], states[h + 1].loops[l];
            && (after.pc.Publishing? ==> before.pc.Observing? && before.cycle == after.cycle)
            && (after.pc.Observing? ==> before.pc.Collecting? && before.cycle == after.cycle)
  {
    assert Enabled(states[h], actions[h]);
  }

  /** A publication comes after a collection, and then an observation, of the same cycle. */
  lemma PublishedCycleWasObserved(states: seq<World>, actions: seq<Action>, cfg: Settings, k: nat, l: nat)
    returns (collected: nat, observed: nat)
    requires IsRun(states, actions, cfg) && k < |actions| && Publishes(states, actions, l, k)
    ensures collected < observed < k
    ensures actions[collected] == actions[observed] == LoopStep(l)
    ensures l < |states[collected].loops| && l < |states[observed].loops|
    ensures states[collected].loops[l].pc.Collecting? && states[observed].loops[l].pc.Observing?
    ensures states[collected].loops[l].cycle == states[observed].loops[l].cycle == states[k].loops[l].cycle
  {
    observed := LastOwnStep(states, actions, cfg, k, l);
    StepBackFrom(states, actions, cfg, observed, l);
    collected := LastOwnStep(states, actions, cfg, observed, l);
    StepBackFrom(states, actions, cfg, collected, l);
  }

  // ---------------------------------------------------------------------
  // A refresh apart
  // ---------------------------------------------------------------------

  lemma {:induction false} TimePasses(states: seq<World>, actions: seq<Action>, cfg: Settings, i: nat, j: nat)
    requires IsRun(states, actions, cfg) && i <= j < |states|
    ensures states[i].shared.now <= states[j].shared.now
    decreases j - i
  {
    if i < j {
      TimePasses(states, actions, cfg, i, j - 1);
      assert Enabled(states[j - 1], actions[j - 1]);
    }
  }

  lemma {:induction false} NoOwnStep(actions: seq<Action>, l: nat, k: nat)
    requires LoopSteps(actions, l) == 0 && k < |actions|
    ensures actions[k] != LoopStep(l)
    decreases |actions|
  {
    var n := |actions| - 1;
    if k < n { NoOwnStep(actions[..n], l, k); }
  }

  ghost predicate StaysPut(states: seq<World>, k: nat, l: nat)
    requires k + 1 < |states|
  {
    l < |states[k].loops| ==> l < |states[k + 1].loops| && states[k + 1].loops[l] == states[k].loops[l]
  }

  lemma OthersLeaveIt(states: seq<World>, actions: seq<Action>, cfg: Settings, k: nat, l: nat)
    requires IsRun(states, actions, cfg) && k < |actions| && actions[k] != LoopStep(l)
    ensures StaysPut(states, k, l)
  {
    assert Enabled(states[k], actions[k]);
    OthersKeepLoop(states[k], actions[k], cfg, l);
  }

  lemma {:induction false} StaysChain(states: seq<World>, i: nat, j: nat, l: nat)
    requires i <= j < |states| && l < |states[i].loops|
    requires forall k :: i <= k < j ==> StaysPut(states, k, l)
    ensures l < |states[j].loops| && states[j].loops[l] == states[i].loops[l]
    decreases j
  {
    if i < j {
      StaysChain(states, i, j - 1, l);
      assert StaysPut(states, j - 1, l);
    }
  }

  /** Nobody but the collector itself moves it. */
  lemma Unmoved(states: seq<World>, actions: seq<Action>, cfg: Settings, i: nat, j: nat, l: nat)
    requires IsRun(states, actions, cfg) && i <= j < |states| && l < |states[i].loops|
    requires LoopSteps(actions[i..j], l) == 0
    ensures l < |states[j].loops| && states[j].loops[l] == states[i].loops[l]
  {
    forall k | i <= k < j ensures StaysPut(states, k, l) {
      NoOwnStep(actions[i..j], l, k - i);
      OthersLeaveIt(states, actions, cfg, k, l);
    }
    StaysChain(states, i, j, l);
  }

  /** After its signal a collector sleeps for its refresh period, exactly. */
  lemma SleepsForARefresh(states: seq<World>, actions: seq<Action>, cfg: Settings, i: nat, k: nat, l: nat)
    requires IsRun(states, actions, cfg) && i < k < |states|
    requires actions[i] == LoopStep(l) && l < |states[i].loops| && states[i].loops[l].pc.Signalling?
    requires LoopSteps(actions[i + 1..k], l) == 0
    ensures Enabled(states[k], LoopStep(l)) <==>
            states[k].shared.now >= states[i].shared.now + cfg.refresh(states[i].loops[l].plugin)
  {
    assert Enabled(states[i], actions[i]);
    Unmoved(states, actions, cfg, i + 1, k, l);
    InvariantHolds(states, actions, cfg, k);
    assert LoopOk(states[k], l);
  }

  /** Since a publication at `t`: signalling, asleep for long enough, or past it. */
  predicate Rests(s: World, l: nat, t: nat, refresh: nat)
    requires l < |s.loops|
  {
    var p := s.loops[l];
    || (p.pc.Signalling? && s.shared.now >= t)
    || (p.pc.Sleeping? && p.pc.until >= t + refresh)
    || s.shared.now >= t + refresh
  }

  lemma RestsStep(s: World, a: Action, cfg: Settings, l: nat, t: nat)
    requires Enabled(s, a) && l < |s.loops| && Rests(s, l, t, cfg.refresh(s.loops[l].plugin))
    ensures var u := Next(s, a, cfg);
            l < |u.loops| && Rests(u, l, t, cfg.refresh(s.loops[l].plugin))
  {
  }

  lemma {:induction false} RestsSince(states: seq<World>, actions: seq<Action>, cfg: Settings, i: nat, k: nat, l: nat)
    requires IsRun(states, actions, cfg) && i < k < |states| && Publishes(states, actions, l, i)
    ensures l < |states[k].loops| && states[k].loops[l].plugin == states[i].loops[l].plugin
    ensures Rests(states[k], l, states[i].shared.now, cfg.refresh(states[i].loops[l].plugin))
    decreases k
  {
    assert Enabled(states[k - 1], actions[k - 1]);
    if i < k - 1 {
      RestsSince(states, actions, cfg, i, k - 1, l);
      StepTowardsPublishing(states, actions, cfg, k - 1, l);
      RestsStep(states[k - 1], actions[k - 1], cfg, l, states[i].shared.now);
    }
  }

  /** Two publications of one collector lie at least a refresh period apart. */
  lemma PublicationsApart(states: seq<World>, actions: seq<Action>, cfg: Settings, i: nat, j: nat, l: nat)
    requires IsRun(states, actions, cfg) && i < j < |actions|
    requires Publishes(states, actions, l, i) && Publishes(states, actions, l, j)
    ensures states[j].shared.now >= states[i].shared.now + cfg.refresh(states[i].loops[l].plugin)
  {
    RestsSince(states, actions, cfg, i, j, l);
  }

  // ---------------------------------------------------------------------
  // Requests
  // ---------------------------------------------------------------------

  lemma {:induction false} JoinIsKept(states: seq<World>, actions: seq<Action>, cfg: Settings, j: nat, i: nat, r: nat)
    requires IsRun(states, actions, cfg) && j < i < |states|
    requires actions[j] == RequestStep(r) && r < |states[j].requests| && states[j].requests[r].pc.ToLock?
    ensures r < |states[i].requests| && HasJoined(states[i].requests[r])
    ensures states[i].requests[r].deadline == states[j].shared.now + cfg.guard
    decreases i
  {
    assert Enabled(states[i - 1], actions[i - 1]);
    if j < i - 1 { JoinIsKept(states, actions, cfg, j, i - 1, r); }
    if j < i - 1 { RequestKept(states[i - 1], actions[i - 1], cfg, r); }
  }

  lemma RequestKept(s: World, a: Action, cfg: Settings, r: nat)
    requires Enabled(s, a) && r < |s.requests| && HasJoined(s.requests[r])
    ensures var t := Next(s, a, cfg);
            r < |t.requests| && HasJoined(t.requests[r]) && t.requests[r].deadline == s.requests[r].deadline
  {
  }

  /** A request that has joined, and is still waiting, can expire exactly once its guard timeout has passed. */
  lemma GuardRunsFromJoining(states: seq<World>, actions: seq<Action>, cfg: Settings, j: nat, i: nat, r: nat)
    requires IsRun(states, actions, cfg) && j < i < |states|
    requires actions[j] == RequestStep(r) && r < |states[j].requests| && states[j].requests[r].pc.ToLock?
    ensures r < |states[i].requests|
    ensures Enabled(states[i], Expire(r)) <==>
            && (states[i].requests[r].pc.Polling? || states[i].requests[r].pc.Parked?)
            && states[i].shared.now >= states[j].shared.now + cfg.guard
    ensures i < |actions| && actions[i] == Expire(r) ==> states[i].shared.now >= states[j].shared.now + cfg.guard
  {
    JoinIsKept(states, actions, cfg, j, i, r);
    if i < |actions| { assert Enabled(states[i], actions[i]); }
  }

  /** The request that arrived at `arrived` is still for its plugin, and has not been touched before then. */
  predicate CameAt(s: World, r: nat, plugin: PluginId, arrived: nat) {
    && r < |s.requests| && s.requests[r].plugin == plugin
    && (HasTouched(s.requests[r]) ==> s.requests[r].touch >= arrived)
  }

  lemma ArrivalIsNew(s: World, a: Action, cfg: Settings)
    requires a.Arrive?
    ensures CameAt(Next(s, a, cfg), |s.requests|, a.plugin, s.shared.now)
  {
  }

  lemma OwnStepTouchesLater(s: World, a: Action, cfg: Settings, r: nat, plugin: PluginId, arrived: nat)
    requires Enabled(s, a) && MovesRequest(a, r) && CameAt(s, r, plugin, arrived) && arrived <= s.shared.now
    ensures CameAt(Next(s, a, cfg), r, plugin, arrived)
  {
  }

  lemma CameAtStep(s: World, a: Action, cfg: Settings, r: nat, plugin: PluginId, arrived: nat)
    requires Enabled(s, a) && CameAt(s, r, plugin, arrived) && arrived <= s.shared.now
    ensures CameAt(Next(s, a, cfg), r, plugin, arrived)
  {
    OthersKeepRequest(s, a, cfg, r);
    if MovesRequest(a, r) { OwnStepTouchesLater(s, a, cfg, r, plugin, arrived); }
  }

  lemma {:induction false} TouchedSinceArrival(states: seq<World>, actions: seq<Action>, cfg: Settings, a: nat, i: nat)
    requires IsRun(states, actions, cfg) && a < i < |states| && actions[a].Arrive?
    ensures CameAt(states[i], |states[a].requests|, actions[a].plugin, states[a].shared.now)
    decreases i
  {
    assert Enabled(states[i - 1], actions[i - 1]);
    if a < i - 1 {
      TouchedSinceArrival(states, actions, cfg, a, i - 1);
      TimePasses(states, actions, cfg, a, i - 1);
      CameAtStep(states[i - 1], actions[i - 1], cfg, |states[a].requests|, actions[a].plugin, states[a].shared.now);
    } else {
      ArrivalIsNew(states[a], actions[a], cfg);
    }
  }

  /**
   * The race contract from a client's side: the collector that a request joined is registered until an idle
   * timeout after the request arrived, but for less than a millisecond.
   */
  lemma JoinedSinceArrival(states: seq<World>, actions: seq<Action>, cfg: Settings, a: nat, i: nat, r: nat)
    requires IsRun(states, actions, cfg) && a < i < |states|
    requires actions[a].Arrive? && r == |states[a].requests|
    ensures r < |states[i].requests|
    ensures HasJoined(states[i].requests[r]) ==>
              || Registered(states[i].shared, actions[a].plugin, states[i].requests[r].chan)
              || states[i].shared.now - states[a].shared.now > cfg.idleTimeout(actions[a].plugin) - 1000000
  {
    TouchedSinceArrival(states, actions, cfg, a, i);
    if HasJoined(states[i].requests[r]) { JoinedCollectorStays(states, actions, cfg, i, r); }
  }
}
