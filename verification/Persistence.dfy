/**
 * Debouncing seen from outside: what becomes of an entry over a call of `observe`, and that a level which
 * lasts is journalled, said of the calls and their payloads (src/alerts.rs:287-367).
 */
module Persistence {
  import opened Wrappers
  import opened Plugins
  import opened Configs
  import opened Levels
  import opened Json
  import opened Hysteresis
  import opened Engine
  import opened Observations
  import opened Alerts
  import opened AlertRuns
  import Timestamp

  // ---------------------------------------------------------------------
  // When a plugin was last called
  // ---------------------------------------------------------------------

  ghost function LastCallOf(calls: seq<Call>, id: PluginId): Option<Call> {
    if calls == [] then None
    else
      var n := |calls| - 1;
      if calls[n].id == id then Some(calls[n]) else LastCallOf(calls[..n], id)
  }

  lemma {:induction false} LastTickPast(before: seq<Micro>, more: seq<Micro>, id: PluginId)
    requires forall i :: 0 <= i < |more| && more[i].Tick? ==> more[i].plugin != id
    ensures LastTick(before + more, id) == LastTick(before, id)
    decreases |more|
  {
    if more == [] {
      assert before + more == before;
    } else {
      var n := |more| - 1;
      LastTickPast(before, more[..n], id);
      assert (before + more)[..|before + more| - 1] == before + more[..n];
    }
  }

  lemma LastTickOfCycle(c: Config, before: seq<Micro>, call: Call, id: PluginId)
    ensures LastTick(before + CycleOf(c, call), id) == if call.id == id then Some(call.now) else LastTick(before, id)
  {
    var ms := CycleOf(c, call);
    if call.id == id {
      assert before + ms == (before + [ms[0]]) + ms[1..];
      LastTickPast(before + [ms[0]], ms[1..], id);
      assert (before + [ms[0]])[..|before|] == before;
    } else {
      LastTickPast(before, ms, id);
    }
  }

  lemma StepsNext(c: Config, calls: seq<Call>, n: nat)
    requires n < |calls|
    ensures StepsOf(c, calls[..n + 1]) == StepsOf(c, calls[..n]) + StepsOfCall(c, calls[n])
  {
    assert calls[..n + 1][..n] == calls[..n];
  }

  /** The engine's clock of a plugin that has thresholds is that of the plugin's last call. */
  lemma {:induction false} LastTickIsLastCall(c: Config, calls: seq<Call>, id: PluginId)
    requires !Skips(c, id, AlertFields(id))
    ensures LastTick(StepsOf(c, calls), id) ==
            match LastCallOf(calls, id)
            case None => None
            case Some(call) => Some(call.now)
    decreases |calls|
  {
    if calls != [] {
      var n := |calls| - 1;
      LastTickIsLastCall(c, calls[..n], id);
      StepsNext(c, calls, n);
      assert calls[..n + 1] == calls;
      if SkipsCall(c, calls[n]) {
        assert StepsOf(c, calls) == StepsOf(c, calls[..n]);
      } else {
        LastTickOfCycle(c, StepsOf(c, calls[..n]), calls[n], id);
      }
    }
  }

  /** The call comes more than two refresh periods after the plugin's last one, if there was one. */
  ghost predicate Overdue(calls: seq<Call>, call: Call, refresh: nat) {
    match LastCallOf(calls, call.id)
    case None => false
    case Some(previous) => call.now - previous.now > 2 * refresh
  }

  // ---------------------------------------------------------------------
  // What becomes of one entry
  // ---------------------------------------------------------------------

  /** The debounce machine run over the readings of `k`, in order. */
  ghost function Replay(cell: Snapshot, rs: seq<Reading>, k: Key, now: int, minDuration: nat): Snapshot {
    if rs == [] then cell
    else
      var n := |rs| - 1;
      var before := Replay(cell, rs[..n], k, now, minDuration);
      if rs[n].item == k.item && rs[n].info.field == k.field then Advance(before, rs[n].level, now, minDuration).0
      else before
  }

  lemma {:induction false} SamplesReplay(s: State, rs: seq<Reading>, now: int, wall: int, p: Policy, k: Key)
    ensures CellAt(RunFrom(s, Samples(k.plugin, rs, now, wall), p), k) ==
            Replay(CellAt(s, k), rs, k, now, p.minDuration(k.plugin))
    decreases |rs|
  {
    if rs != [] {
      var n := |rs| - 1;
      SamplesReplay(s, rs[..n], now, wall, p, k);
      assert Samples(k.plugin, rs, now, wall)[..n] == Samples(k.plugin, rs[..n], now, wall);
    }
  }

  /** The entry loses its pending window if the call is overdue, and is otherwise as it was. */
  ghost predicate CarriedOver(before: Snapshot, after: Snapshot, overdue: bool) {
    && after.committedLevel == before.committedLevel && after.hasCommitted == before.hasCommitted
    && after.pendingLevel == (if overdue then None else before.pendingLevel)
    && after.pendingSince == (if overdue then None else before.pendingSince)
  }

  lemma TickCarriesOver(c: Config, calls: seq<Call>, call: Call, p: Policy, k: Key)
    requires !SkipsCall(c, call) && call.id == k.plugin && Tabled(k) && Present(k, call.payload)
    ensures var s := ObserveAll(c, calls, p);
            var begun := Step(s, Tick(call.id, call.now, LiveOf(call.id, call.payload)), p);
            CarriedOver(CellAt(s, k), CellAt(begun, k), Overdue(calls, call, p.refresh(call.id)))
  {
    PresentIsLive(k, call.payload);
    CallsAreARun(c, calls, p);
    LastSeenIsLastTick(StepsOf(c, calls), call.id, p);
    LastTickIsLastCall(c, calls, call.id);
  }

  /**
   * After a full cycle of a plugin that has the item of `k`, the entry of `k` is what its readings of that
   * cycle make of it, starting from the entry before, without its pending window if the cycle is overdue.
   */
  lemma EntryMovesByReadings(c: Config, calls: seq<Call>, p: Policy, k: Key) returns (start: Snapshot)
    requires calls != [] && !SkipsCall(c, calls[|calls| - 1])
    requires k.plugin == calls[|calls| - 1].id && Tabled(k) && Present(k, calls[|calls| - 1].payload)
    ensures var n := |calls| - 1;
            var overdue := Overdue(calls[..n], calls[n], p.refresh(k.plugin));
            CarriedOver(CellAt(ObserveAll(c, calls[..n], p), k), start, overdue)
    ensures var last := calls[|calls| - 1];
            var rs := ReadingsOf(c, last.id, AlertFields(last.id), last.payload);
            CellAt(ObserveAll(c, calls, p), k) == Replay(start, rs, k, last.now, p.minDuration(k.plugin))
  {
    var n := |calls| - 1;
    var s, last := ObserveAll(c, calls[..n], p), calls[n];
    var rs := ReadingsOf(c, last.id, AlertFields(last.id), last.payload);
    var begun := Step(s, Tick(last.id, last.now, LiveOf(last.id, last.payload)), p);
    start := CellAt(begun, k);
    TickCarriesOver(c, calls[..n], last, p, k);
    SamplesReplay(begun, rs, last.now, last.wall, p, k);
    RunFromCons(s, Tick(last.id, last.now, LiveOf(last.id, last.payload)),
                Samples(last.id, rs, last.now, last.wall), p);
  }

  lemma {:induction false} NothingToReplay(cell: Snapshot, rs: seq<Reading>, k: Key, now: int, minDuration: nat)
    requires forall i :: 0 <= i < |rs| ==> rs[i].item != k.item || rs[i].info.field != k.field
    ensures Replay(cell, rs, k, now, minDuration) == cell
    decreases |rs|
  {
    if rs != [] { NothingToReplay(cell, rs[..|rs| - 1], k, now, minDuration); }
  }

  /**
   * The entry of an item that is still in the payload survives a full cycle of its plugin, and if the cycle
   * takes no reading of it, it is as before, but for its pending window if the cycle is overdue.
   */
  lemma EntrySurvives(c: Config, calls: seq<Call>, p: Policy, k: Key)
    requires calls != [] && !SkipsCall(c, calls[|calls| - 1]) && k.plugin == calls[|calls| - 1].id
    requires k in ObserveAll(c, calls[..|calls| - 1], p).cells && Present(k, calls[|calls| - 1].payload)
    ensures k in ObserveAll(c, calls, p).cells
    ensures !Read(c, k, calls[|calls| - 1].payload) ==>
              var n := |calls| - 1;
              CarriedOver(CellAt(ObserveAll(c, calls[..n], p), k), CellAt(ObserveAll(c, calls, p), k),
                          Overdue(calls[..n], calls[n], p.refresh(k.plugin)))
  {
    var n := |calls| - 1;
    EntriesTabled(c, calls[..n], p, k);
    EntriesWithinPayload(c, calls, p, k);
    var start := EntryMovesByReadings(c, calls, p, k);
    if !Read(c, k, calls[n].payload) {
      var rs := ReadingsOf(c, k.plugin, AlertFields(k.plugin), calls[n].payload);
      forall i | 0 <= i < |rs| ensures rs[i].item != k.item || rs[i].info.field != k.field {
        ReadingsMeaning(c, k.plugin, AlertFields(k.plugin), calls[n].payload, rs[i]);
      }
      NothingToReplay(start, rs, k, calls[n].now, p.minDuration(k.plugin));
    }
  }

  // ---------------------------------------------------------------------
  // A level that lasts is journalled
  // ---------------------------------------------------------------------

  /** The payload has the item of `k`, and every reading of `k` in it is at `level`. */
  ghost predicate HoldsAt(c: Config, payload: Value, k: Key, level: Level) {
    && Present(k, payload)
    && forall r: Reading | r.item == k.item && r.info.field == k.field ::
         Supports(c, k.plugin, AlertFields(k.plugin), payload, r) ==> r.level == level
  }

  lemma SampleHolds(c: Config, call: Call, k: Key, level: Level, i: nat)
    requires i < |CycleOf(c, call)| && i > 0 && CycleOf(c, call)[i].key == k && HoldsAt(c, call.payload, k, level)
    ensures CycleOf(c, call)[i].level == level
  {
    var rs := ReadingsOf(c, call.id, AlertFields(call.id), call.payload);
    ReadingsMeaning(c, call.id, AlertFields(call.id), call.payload, rs[i - 1]);
  }

  /** The steps of `more` that come after the first `from` leave the window of `k` standing. */
  ghost predicate LeavesStanding(before: seq<Micro>, more: seq<Micro>, from: nat, k: Key, level: Level, p: Policy) {
    forall i :: from <= i < |before + more| ==> Undisturbed(before + more, i, k, level, p)
  }

  /** A call that holds the level, and comes in time, leaves the window of `k` standing from step `from` on. */
  lemma CallStands(c: Config, before: seq<Micro>, call: Call, from: nat, k: Key, level: Level, p: Policy)
    requires call.id == k.plugin ==> Tabled(k) && HoldsAt(c, call.payload, k, level)
    requires |before| <= from <= |before| + 1
    requires from == |before| && call.id == k.plugin ==>
               !TooLate(LastTick(before, k.plugin), call.now, p.refresh(k.plugin))
    ensures LeavesStanding(before, CycleOf(c, call), from, k, level, p)
  {
    var ms := CycleOf(c, call);
    forall i | from <= i < |before + ms| ensures Undisturbed(before + ms, i, k, level, p) {
      var j := i - |before|;
      assert (before + ms)[i] == ms[j];
      if j == 0 {
        assert (before + ms)[..i] == before;
        if call.id == k.plugin { PresentIsLive(k, call.payload); }
      } else if ms[j].key == k {
        SampleHolds(c, call, k, level, j);
      }
    }
  }

  lemma SteadyAppend(before: seq<Micro>, more: seq<Micro>, from: nat, k: Key, level: Level, p: Policy)
    requires from <= |before| && Steady(before, from, |before|, k, level, p)
    requires LeavesStanding(before, more, |before|, k, level, p)
    ensures Steady(before + more, from, |before + more|, k, level, p)
  {
    forall i | from <= i < |before| ensures Undisturbed(before + more, i, k, level, p) {
      assert Undisturbed(before, i, k, level, p);
      assert (before + more)[..i] == before[..i];
    }
  }

  /** If call `j` is of the plugin of `k`, it holds the level and, but for the first, is not overdue. */
  ghost predicate CallHolds(c: Config, calls: seq<Call>, j: nat, first: nat, k: Key, level: Level, refresh: nat)
    requires j < |calls|
  {
    calls[j].id == k.plugin ==>
      && HoldsAt(c, calls[j].payload, k, level)
      && (j > first ==> !Overdue(calls[..j], calls[j], refresh))
  }

  /** From call `a` to call `b`, the level is held without interruption. */
  ghost predicate Lasts(c: Config, calls: seq<Call>, a: nat, b: nat, k: Key, level: Level, refresh: nat)
    requires a <= b < |calls|
  {
    forall j :: a <= j <= b ==> CallHolds(c, calls, j, a, k, level, refresh)
  }

  // ---------------------------------------------------------------------
  // The run of the first calls, whatever steps a call makes
  // ---------------------------------------------------------------------

  /** The steps that the first `n` calls make. */
  ghost function UpTo(calls: seq<Call>, steps: Call -> seq<Micro>, n: nat): seq<Micro>
    requires n <= |calls|
  {
    if n == 0 then [] else UpTo(calls, steps, n - 1) + steps(calls[n - 1])
  }

  lemma {:induction false} UpToIsVia(calls: seq<Call>, steps: Call -> seq<Micro>, n: nat)
    requires n <= |calls|
    ensures UpTo(calls, steps, n) == StepsVia(calls[..n], steps)
    decreases n
  {
    if n > 0 {
      UpToIsVia(calls, steps, n - 1);
      assert calls[..n][..n - 1] == calls[..n - 1];
    }
  }

  lemma {:induction false} UpToGrows(calls: seq<Call>, steps: Call -> seq<Micro>, j: nat, n: nat)
    requires j <= n <= |calls|
    ensures UpTo(calls, steps, j) <= UpTo(calls, steps, n)
    decreases n
  {
    if j < n { UpToGrows(calls, steps, j, n - 1); }
  }

  lemma {:induction false} CallWithin(calls: seq<Call>, steps: Call -> seq<Micro>, j: nat, n: nat)
    requires j < n <= |calls|
    ensures UpTo(calls, steps, j) + steps(calls[j]) <= UpTo(calls, steps, n)
    decreases n
  {
    if j < n - 1 { CallWithin(calls, steps, j, n - 1); }
  }

  /** Call `j` leaves the window of `k` standing, but for the first step of call `first`. */
  ghost predicate KeepsStanding(calls: seq<Call>, steps: Call -> seq<Micro>, j: nat, first: nat, k: Key, level: Level,
                                p: Policy)
    requires j < |calls|
  {
    var before := UpTo(calls, steps, j);
    LeavesStanding(before, steps(calls[j]), |before| + if j == first then 1 else 0, k, level, p)
  }

  lemma {:induction false} StandsThroughout(calls: seq<Call>, steps: Call -> seq<Micro>, a: nat, b: nat, k: Key,
                                            level: Level, p: Policy)
    requires a <= b < |calls| && steps(calls[a]) != []
    requires forall j :: a <= j <= b ==> KeepsStanding(calls, steps, j, a, k, level, p)
    ensures var ms, from := UpTo(calls, steps, b + 1), |UpTo(calls, steps, a)| + 1;
            from <= |ms| && Steady(ms, from, |ms|, k, level, p)
    decreases b
  {
    assert KeepsStanding(calls, steps, b, a, k, level, p);
    if a < b {
      StandsThroughout(calls, steps, a, b - 1, k, level, p);
      SteadyAppend(UpTo(calls, steps, b), steps(calls[b]), |UpTo(calls, steps, a)| + 1, k, level, p);
    }
  }

  /** Step `i` samples `k` at `level`, at `now`. */
  ghost predicate SampledAt(ms: seq<Micro>, i: nat, k: Key, level: Level, now: int) {
    i < |ms| && ms[i].Sample? && ms[i].key == k && ms[i].level == level && ms[i].now == now
  }

  /** Some step but the first samples `k` so. */
  ghost predicate SamplesKey(ms: seq<Micro>, k: Key, level: Level, now: int) {
    exists i :: 0 < i && SampledAt(ms, i, k, level, now)
  }

  /** Where call `j` samples `k` in the run of the first `n` calls. */
  lemma SampleInRun(calls: seq<Call>, steps: Call -> seq<Micro>, j: nat, n: nat, k: Key, level: Level) returns (i: nat)
    requires j < n <= |calls| && SamplesKey(steps(calls[j]), k, level, calls[j].now)
    ensures |UpTo(calls, steps, j)| < i < |UpTo(calls, steps, j + 1)| <= |UpTo(calls, steps, n)|
    ensures SampledAt(UpTo(calls, steps, n), i, k, level, calls[j].now)
  {
    var offset :| 0 < offset && SampledAt(steps(calls[j]), offset, k, level, calls[j].now);
    UpToGrows(calls, steps, j + 1, n);
    i := |UpTo(calls, steps, j)| + offset;
    assert UpTo(calls, steps, n)[i] == UpTo(calls, steps, j + 1)[i] == steps(calls[j])[offset];
  }

  /** The monotonic clock. */
  ghost predicate InOrder(calls: seq<Call>) {
    forall i, j :: 0 <= i < j < |calls| ==> NoLater(calls, i, j)
  }

  predicate NoLater(calls: seq<Call>, i: nat, j: nat)
    requires i < |calls| && j < |calls|
  {
    calls[i].now <= calls[j].now
  }

  /** The samples of a call are taken at its instant. */
  ghost predicate Timed(call: Call, steps: Call -> seq<Micro>) {
    forall i :: 0 <= i < |steps(call)| && steps(call)[i].Sample? ==> steps(call)[i].now == call.now
  }

  ghost predicate AllTimed(calls: seq<Call>, steps: Call -> seq<Micro>) {
    forall call <- calls :: Timed(call, steps)
  }

  lemma NoneLaterAppend(before: seq<Micro>, call: Call, steps: Call -> seq<Micro>, k: Key, now: int)
    requires NoneLater(before, |before|, k, now) && Timed(call, steps) && call.now <= now
    ensures NoneLater(before + steps(call), |before + steps(call)|, k, now)
  {
  }

  lemma {:induction false} NoneLaterThanCall(calls: seq<Call>, steps: Call -> seq<Micro>, n: nat, a: nat, k: Key)
    requires n <= a + 1 <= |calls| && InOrder(calls) && AllTimed(calls, steps)
    ensures NoneLater(UpTo(calls, steps, n), |UpTo(calls, steps, n)|, k, calls[a].now)
    decreases n
  {
    if n > 0 {
      NoneLaterThanCall(calls, steps, n - 1, a, k);
      assert Timed(calls[n - 1], steps);
      if n - 1 < a { assert NoLater(calls, n - 1, a); }
      NoneLaterAppend(UpTo(calls, steps, n - 1), calls[n - 1], steps, k, calls[a].now);
    }
  }

  /** From step `from` on the run samples the level twice, the second time a window after the first. */
  ghost predicate HasWindow(ms: seq<Micro>, from: nat, k: Key, level: Level, p: Policy) {
    exists s, i :: from <= s <= i < |ms| && SpansWindow(ms, s, i, k, level, p) && NoneLater(ms, s, k, ms[s].now)
  }

  lemma SpanOf(ms: seq<Micro>, from: nat, s: nat, i: nat, k: Key, level: Level, p: Policy, start: int, end: int)
    requires from <= s <= i && SampledAt(ms, s, k, level, start) && SampledAt(ms, i, k, level, end)
    requires end - start >= p.minDuration(k.plugin) && NoneLater(ms, s, k, start)
    ensures HasWindow(ms, from, k, level, p)
  {
    assert SpansWindow(ms, s, i, k, level, p) && NoneLater(ms, s, k, ms[s].now);
  }

  lemma NoneLaterWithin(early: seq<Micro>, ms: seq<Micro>, s: nat, k: Key, now: int)
    requires early <= ms && s <= |early| && NoneLater(early, |early|, k, now)
    ensures NoneLater(ms, s, k, now)
  {
  }

  lemma FirstSample(calls: seq<Call>, steps: Call -> seq<Micro>, a: nat, n: nat, k: Key, level: Level)
    returns (s: nat)
    requires a < n <= |calls| && InOrder(calls) && AllTimed(calls, steps)
    requires SamplesKey(steps(calls[a]), k, level, calls[a].now)
    ensures |UpTo(calls, steps, a)| < s < |UpTo(calls, steps, a + 1)|
    ensures SampledAt(UpTo(calls, steps, n), s, k, level, calls[a].now)
    ensures NoneLater(UpTo(calls, steps, n), s, k, calls[a].now)
  {
    s := SampleInRun(calls, steps, a, n, k, level);
    NoneLaterThanCall(calls, steps, a + 1, a, k);
    UpToGrows(calls, steps, a + 1, n);
    NoneLaterWithin(UpTo(calls, steps, a + 1), UpTo(calls, steps, n), s, k, calls[a].now);
  }

  lemma LaterSample(calls: seq<Call>, steps: Call -> seq<Micro>, a: nat, b: nat, k: Key, level: Level)
    returns (i: nat)
    requires a < b < |calls| && SamplesKey(steps(calls[b]), k, level, calls[b].now)
    ensures |UpTo(calls, steps, a + 1)| < i < |UpTo(calls, steps, b + 1)|
    ensures SampledAt(UpTo(calls, steps, b + 1), i, k, level, calls[b].now)
  {
    UpToGrows(calls, steps, a + 1, b);
    i := SampleInRun(calls, steps, b, b + 1, k, level);
  }

  lemma WindowOfCalls(calls: seq<Call>, steps: Call -> seq<Micro>, p: Policy, a: nat, b: nat, k: Key, level: Level)
    requires a <= b < |calls| && InOrder(calls) && AllTimed(calls, steps)
    requires SamplesKey(steps(calls[a]), k, level, calls[a].now) && SamplesKey(steps(calls[b]), k, level, calls[b].now)
    requires calls[b].now - calls[a].now >= p.minDuration(k.plugin)
    ensures HasWindow(UpTo(calls, steps, b + 1), |UpTo(calls, steps, a)| + 1, k, level, p)
  {
    var s := FirstSample(calls, steps, a, b + 1, k, level);
    var i := s;
    if a < b { i := LaterSample(calls, steps, a, b, k, level); }
    SpanOf(UpTo(calls, steps, b + 1), |UpTo(calls, steps, a)| + 1, s, i, k, level, p, calls[a].now, calls[b].now);
  }

  lemma RunOfPrefix(before: seq<Micro>, ms: seq<Micro>, m: Micro, p: Policy)
    requires before + [m] <= ms
    ensures Run(ms[..|before| + 1], p) == Step(Run(before, p), m, p)
  {
    assert ms[..|before|] == before;
    assert ms[|before|] == (before + [m])[|before|];
    RunFromNext(Engine.START, ms, |before|, p);
  }

  lemma FirstOfMore<T>(before: seq<T>, more: seq<T>, all: seq<T>)
    requires more != [] && before + more <= all
    ensures before + [more[0]] <= all
  {
    assert (before + more)[..|before| + 1] == before + [more[0]];
  }

  lemma RunToFirst(before: seq<Micro>, more: seq<Micro>, ms: seq<Micro>, p: Policy)
    requires more != [] && before + more <= ms
    ensures |before| < |ms| && Run(ms[..|before| + 1], p) == Step(Run(before, p), more[0], p)
  {
    FirstOfMore(before, more, ms);
    RunOfPrefix(before, ms, more[0], p);
  }

  // ---------------------------------------------------------------------
  // The journal of a longer run
  // ---------------------------------------------------------------------

  lemma {:induction false} LogPrefix(ms: seq<Micro>, i: nat, p: Policy)
    requires i <= |ms|
    ensures Log(ms[..i], p) <= Log(ms, p)
    decreases |ms|
  {
    if i == |ms| {
      assert ms[..i] == ms;
    } else {
      LogPrefix(ms[..|ms| - 1], i, p);
      assert ms[..|ms| - 1][..i] == ms[..i];
    }
  }

  lemma LogOfPrefix(before: seq<Micro>, ms: seq<Micro>, p: Policy)
    requires before <= ms
    ensures Log(before, p) <= Log(ms, p)
  {
    assert ms[..|before|] == before;
    LogPrefix(ms, |before|, p);
  }

  lemma LogNext(ms: seq<Micro>, j: nat, p: Policy)
    requires j < |ms| && EmittedAt(ms, j, p).Some?
    ensures Log(ms[..j + 1], p) == Log(ms[..j], p) + [EmittedAt(ms, j, p).value]
  {
    assert ms[..j + 1][..j] == ms[..j];
  }

  /** `after` continues `before`, and `e` is among what it adds. */
  ghost predicate Adds<T>(before: seq<T>, after: seq<T>, e: T) {
    before <= after && e in after[|before|..]
  }

  lemma AddsBetween<T>(before: seq<T>, middle: seq<T>, after: seq<T>, e: T)
    requires before <= middle && middle + [e] <= after
    ensures Adds(before, after, e)
  {
    assert after[|middle|] == (middle + [e])[|middle|];
    assert after[|before|..][|middle| - |before|] == e;
  }

  /** What a run emits behind the end of a shorter one comes behind all that the shorter one journals. */
  lemma EmittedIsLogged(before: seq<Micro>, ms: seq<Micro>, j: nat, p: Policy)
    requires before <= ms && |before| <= j < |ms| && EmittedAt(ms, j, p).Some?
    ensures Adds(Log(before, p), Log(ms, p), EmittedAt(ms, j, p).value)
  {
    LogOfPrefix(before, ms[..j], p);
    LogNext(ms, j, p);
    LogPrefix(ms, j + 1, p);
    AddsBetween(Log(before, p), Log(ms[..j], p), Log(ms, p), EmittedAt(ms, j, p).value);
  }

  lemma PrefixIsSteady(ms: seq<Micro>, from: nat, to: nat, k: Key, level: Level, p: Policy)
    requires from <= to <= |ms| && Steady(ms, from, |ms|, k, level, p)
    ensures Steady(ms, from, to, k, level, p)
  {
  }

  lemma WindowIsJournalled(before: seq<Micro>, ms: seq<Micro>, k: Key, level: Level, p: Policy) returns (e: Event)
    requires before <= ms && |before| < |ms| && Steady(ms, |before| + 1, |ms|, k, level, p)
    requires CellAt(Run(ms[..|before| + 1], p), k).committedLevel != level
    requires HasWindow(ms, |before| + 1, k, level, p)
    ensures Adds(Log(before, p), Log(ms, p), e) && e.key == k && e.level == level
  {
    var s, i :| |before| + 1 <= s <= i < |ms|
                && SpansWindow(ms, s, i, k, level, p) && NoneLater(ms, s, k, ms[s].now);
    PrefixIsSteady(ms, |before| + 1, i + 1, k, level, p);
    var j := PersistenceIsJournalled(ms, |before| + 1, s, i, k, level, p);
    EmittedIsLogged(before, ms, j, p);
    e := EmittedAt(ms, j, p).value;
  }

  /** From call `a` to call `b` the window of `k` stands, and both sample its level, a window apart. */
  ghost predicate Spans(calls: seq<Call>, steps: Call -> seq<Micro>, p: Policy, a: nat, b: nat, k: Key, level: Level)
    requires a <= b < |calls|
  {
    && InOrder(calls) && AllTimed(calls, steps)
    && (forall j :: a <= j <= b ==> KeepsStanding(calls, steps, j, a, k, level, p))
    && SamplesKey(steps(calls[a]), k, level, calls[a].now) && SamplesKey(steps(calls[b]), k, level, calls[b].now)
    && calls[b].now - calls[a].now >= p.minDuration(k.plugin)
  }

  lemma SpanStands(calls: seq<Call>, steps: Call -> seq<Micro>, p: Policy, a: nat, b: nat, k: Key, level: Level)
    requires a <= b < |calls| && Spans(calls, steps, p, a, b, k, level)
    ensures var before, ms := UpTo(calls, steps, a), UpTo(calls, steps, b + 1);
            |before| < |ms| && Steady(ms, |before| + 1, |ms|, k, level, p) && HasWindow(ms, |before| + 1, k, level, p)
  {
    StandsThroughout(calls, steps, a, b, k, level, p);
    WindowOfCalls(calls, steps, p, a, b, k, level);
  }

  /** Then one of these calls journals the level, if it was not committed at the first step of call `a`. */
  lemma CallsJournal(calls: seq<Call>, steps: Call -> seq<Micro>, p: Policy, a: nat, b: nat, k: Key, level: Level)
    returns (e: Event)
    requires a <= b < |calls| && Spans(calls, steps, p, a, b, k, level)
    requires steps(calls[a]) != []
    requires CellAt(Step(Run(UpTo(calls, steps, a), p), steps(calls[a])[0], p), k).committedLevel != level
    ensures Adds(Log(UpTo(calls, steps, a), p), Log(UpTo(calls, steps, b + 1), p), e)
    ensures e.key == k && e.level == level
  {
    SpanStands(calls, steps, p, a, b, k, level);
    CallWithin(calls, steps, a, b + 1);
    RunToFirst(UpTo(calls, steps, a), steps(calls[a]), UpTo(calls, steps, b + 1), p);
    e := WindowIsJournalled(UpTo(calls, steps, a), UpTo(calls, steps, b + 1), k, level, p);
  }

  // ---------------------------------------------------------------------
  // A level that lasts is journalled
  // ---------------------------------------------------------------------

  lemma ReadIsNotSkipped(c: Config, k: Key, payload: Value)
    requires Read(c, k, payload)
    ensures !Skips(c, k.plugin, AlertFields(k.plugin))
  {
    if Skips(c, k.plugin, AlertFields(k.plugin)) {
      SkippedReadsNothing(c, k.plugin, payload);
      var r: Reading :| r.item == k.item && Supports(c, k.plugin, AlertFields(k.plugin), payload, r);
      ReadingsMeaning(c, k.plugin, AlertFields(k.plugin), payload, r);
    }
  }

  /** A call that takes a reading of `k` samples it, at the level that it holds, past its tick. */
  lemma CallSamples(c: Config, call: Call, k: Key, level: Level)
    requires call.id == k.plugin && Read(c, k, call.payload) && HoldsAt(c, call.payload, k, level)
    ensures SamplesKey(CycleOf(c, call), k, level, call.now)
  {
    var fs := AlertFields(call.id);
    var rs := ReadingsOf(c, call.id, fs, call.payload);
    var r: Reading :| r.item == k.item && r.info.field == k.field && Supports(c, call.id, fs, call.payload, r);
    ReadingsMeaning(c, call.id, fs, call.payload, r);
    var n :| 0 <= n < |rs| && rs[n] == r;
    SampleOfCycle(c, call, n);
    assert SampledAt(CycleOf(c, call), n + 1, k, level, call.now);
  }

  lemma StepsOfHolder(c: Config, call: Call, k: Key, level: Level)
    requires call.id == k.plugin && Read(c, k, call.payload) && HoldsAt(c, call.payload, k, level)
    ensures StepsBy(c)(call) == CycleOf(c, call) && SamplesKey(StepsBy(c)(call), k, level, call.now)
  {
    ReadIsNotSkipped(c, k, call.payload);
    CallSamples(c, call, k, level);
  }

  lemma StepsAreTimed(c: Config, call: Call)
    ensures Timed(call, StepsBy(c))
  {
  }

  lemma HolderKeepsStanding(c: Config, calls: seq<Call>, j: nat, first: nat, k: Key, level: Level, p: Policy)
    requires first <= j < |calls| && CallHolds(c, calls, j, first, k, level, p.refresh(k.plugin)) && Tabled(k)
    requires !Skips(c, k.plugin, AlertFields(k.plugin)) && calls[first].id == k.plugin
    ensures KeepsStanding(calls, StepsBy(c), j, first, k, level, p)
  {
    var before := UpTo(calls, StepsBy(c), j);
    UpToIsVia(calls, StepsBy(c), j);
    LastTickIsLastCall(c, calls[..j], k.plugin);
    if SkipsCall(c, calls[j]) {
      assert before + [] == before;
    } else {
      CallStands(c, before, calls[j], |before| + if j == first then 1 else 0, k, level, p);
    }
  }

  /**
   * From call `a` to call `b` the payloads of a plugin always have the item of `k` and show `k`, whenever they
   * show it, at one level that was not committed before; no such call comes more than two refresh periods
   * after the plugin's last; and `b` comes a window after `a`, with a reading in both.
   */
  ghost predicate Persists(c: Config, calls: seq<Call>, p: Policy, a: nat, b: nat, k: Key, level: Level,
                           refresh: nat, window: nat) {
    match k
    case Key(id, _, _) =>
      && a <= b < |calls| && calls[a].id == id && calls[b].id == id && InOrder(calls)
      && CellAt(ObserveAll(c, calls[..a], p), k).committedLevel != level
      && Lasts(c, calls, a, b, k, level, refresh)
      && Read(c, k, calls[a].payload) && Read(c, k, calls[b].payload)
      && calls[b].now - calls[a].now >= window
  }

  lemma UncommittedAfterTick(c: Config, calls: seq<Call>, a: nat, p: Policy, k: Key, level: Level)
    requires a < |calls| && calls[a].id == k.plugin && !SkipsCall(c, calls[a])
    requires Tabled(k) && Present(k, calls[a].payload)
    requires CellAt(ObserveAll(c, calls[..a], p), k).committedLevel != level
    ensures CellAt(Step(Run(UpTo(calls, StepsBy(c), a), p), CycleOf(c, calls[a])[0], p), k).committedLevel != level
  {
    UpToIsVia(calls, StepsBy(c), a);
    CallsAreARun(c, calls[..a], p);
    TickCarriesOver(c, calls[..a], calls[a], p, k);
  }

  lemma PersistingStands(c: Config, calls: seq<Call>, p: Policy, a: nat, b: nat, k: Key, level: Level)
    requires Persists(c, calls, p, a, b, k, level, p.refresh(k.plugin), p.minDuration(k.plugin))
    ensures forall j :: a <= j <= b ==> KeepsStanding(calls, StepsBy(c), j, a, k, level, p)
    ensures CellAt(Step(Run(UpTo(calls, StepsBy(c), a), p), CycleOf(c, calls[a])[0], p), k).committedLevel != level
  {
    ReadIsTabled(c, k, calls[a].payload);
    ReadIsNotSkipped(c, k, calls[a].payload);
    UncommittedAfterTick(c, calls, a, p, k, level);
    forall j | a <= j <= b ensures KeepsStanding(calls, StepsBy(c), j, a, k, level, p) {
      HolderKeepsStanding(c, calls, j, a, k, level, p);
    }
  }

  lemma PersistingSpans(c: Config, calls: seq<Call>, p: Policy, a: nat, b: nat, k: Key, level: Level)
    requires Persists(c, calls, p, a, b, k, level, p.refresh(k.plugin), p.minDuration(k.plugin))
    ensures Spans(calls, StepsBy(c), p, a, b, k, level)
    ensures StepsBy(c)(calls[a]) == CycleOf(c, calls[a])
  {
    assert CallHolds(c, calls, a, a, k, level, p.refresh(k.plugin));
    assert CallHolds(c, calls, b, a, k, level, p.refresh(k.plugin));
    StepsOfHolder(c, calls[a], k, level);
    StepsOfHolder(c, calls[b], k, level);
    PersistingStands(c, calls, p, a, b, k, level);
    forall call | call in calls ensures Timed(call, StepsBy(c)) { StepsAreTimed(c, call); }
  }

  /** The debounce promise, from outside: a level that persists is journalled by one of the calls. */
  lemma PersistentLevelIsJournalled(c: Config, calls: seq<Call>, p: Policy, a: nat, b: nat, k: Key, level: Level)
    returns (e: Event)
    requires Persists(c, calls, p, a, b, k, level, p.refresh(k.plugin), p.minDuration(k.plugin))
    ensures Adds(Log(StepsOf(c, calls[..a]), p), Log(StepsOf(c, calls[..b + 1]), p), e)
    ensures e.key == k && e.level == level
  {
    PersistingStands(c, calls, p, a, b, k, level);
    PersistingSpans(c, calls, p, a, b, k, level);
    e := CallsJournal(calls, StepsBy(c), p, a, b, k, level);
    UpToIsVia(calls, StepsBy(c), a);
    UpToIsVia(calls, StepsBy(c), b + 1);
  }

  // ---------------------------------------------------------------------
  // Under a configuration
  // ---------------------------------------------------------------------

  /** The debounce promise in configured durations: those of the plugin's own section, or else the general ones. */
  lemma JournalledAsConfigured(c: Config, hostname: string, calls: seq<Call>, a: nat, b: nat, k: Key, level: Level)
    returns (e: Event)
    requires var name := Name(k.plugin);
             var refresh := if name in c.plugins then c.plugins[name].refresh else None;
             var window := if name in c.plugins then c.plugins[name].minDuration else None;
             Persists(c, calls, PolicyOf(c, hostname), a, b, k, level,
                      Nanos(if refresh.Some? then refresh.value else c.refresh),
                      Nanos(if window.Some? then window.value else c.minDuration))
    ensures var p := PolicyOf(c, hostname);
            Adds(Log(StepsOf(c, calls[..a]), p), Log(StepsOf(c, calls[..b + 1]), p), e)
    ensures e.key == k && e.level == level
  {
    e := PersistentLevelIsJournalled(c, calls, PolicyOf(c, hostname), a, b, k, level);
  }

  /** And no level is journalled that was not first seen a configured window before, if there is one. */
  lemma WaitedAsConfigured(c: Config, hostname: string, ms: seq<Micro>, i: nat) returns (s: nat)
    requires i < |ms| && EmittedAt(ms, i, PolicyOf(c, hostname)).Some?
    ensures s <= i && OpensWindow(ms, s, ms[i].key, ms[i].level, ms[s].now)
    ensures Steady(ms, s, i + 1, ms[i].key, ms[i].level, PolicyOf(c, hostname))
    ensures var name := Name(ms[i].key.plugin);
            var window := if name in c.plugins then c.plugins[name].minDuration else None;
            ms[i].now - ms[s].now >= Nanos(if window.Some? then window.value else c.minDuration)
  {
    var p := PolicyOf(c, hostname);
    if p.minDuration(ms[i].key.plugin) > 0 {
      s := EventHasWindow(ms, i, p);
    } else {
      s := i;
    }
  }

  lemma HistoryOfRun(s: State, ms: seq<Micro>, p: Policy, size: nat)
    requires s == Run(ms, p) && size == p.historySize
    ensures var log, kept := Log(ms, p), s.history;
            |kept| == (if |log| <= size then |log| else size) && kept == log[|log| - |kept|..]
  {
    HistoryIsTailOfLog(ms, p);
  }

  /** The journal that the code keeps is the last `history_size` events of all that its calls ever journalled. */
  lemma JournalAsConfigured(c: Config, hostname: string, calls: seq<Call>)
    ensures var log := Log(StepsOf(c, calls), PolicyOf(c, hostname));
            var kept := ObserveAll(c, calls, PolicyOf(c, hostname)).history;
            && |kept| == (if |log| <= c.historySize then |log| else c.historySize)
            && kept == log[|log| - |kept|..]
  {
    CallsAreARun(c, calls, PolicyOf(c, hostname));
    HistoryOfRun(ObserveAll(c, calls, PolicyOf(c, hostname)), StepsOf(c, calls), PolicyOf(c, hostname), c.historySize);
  }

  /** Each of them carries the host, and the time of the call that it comes from as RFC 3339 text. */
  lemma EventAsConfigured(c: Config, hostname: string, calls: seq<Call>, e: Event) returns (call: Call, r: Reading)
    requires e in Log(StepsOf(c, calls), PolicyOf(c, hostname))
    ensures call in calls && Supports(c, call.id, AlertFields(call.id), call.payload, r)
    ensures e.key == Key(call.id, r.item, r.info.field) && e.level == r.level && e.value == r.raw
    ensures e.ts == Timestamp.Iso8601(call.wall) && e.hostname == hostname && e.prominent == r.info.prominent
  {
    call, r := EventsComeFromPayloads(c, calls, PolicyOf(c, hostname), e);
  }

  // ---------------------------------------------------------------------
  // An instance
  // ---------------------------------------------------------------------

  /** Nothing but the built-in limits, a refresh of two seconds and a window of `window` seconds. */
  function Plain(window: real): Config {
    Config(Finite(2.0), 5, Finite(5.0), map[], 100, Finite(window), true)
  }

  function MemoryAt(percent: real, text: string): Value {
    Obj(map["percent" := Num(percent, text)])
  }

  lemma MemoryMerits(window: real, percent: real, text: string, level: Level, raw: real)
    requires percent >= 90.0
    ensures Merits(Plain(window), Mem, None, AlertFields(Mem)[0], MemoryAt(percent, text), level, raw) <==>
            level == Critical && raw == percent
  {
    var c, info := Plain(window), AlertFields(Mem)[0];
    BuiltinOf(Mem, info);
    LevelIsMerited(c, Mem, None, info, MemoryAt(percent, text), level, raw);
  }

  lemma MemoryHolds(window: real, percent: real, text: string)
    requires percent >= 90.0
    ensures var c, k := Plain(window), Key(Mem, None, "percent");
            Read(c, k, MemoryAt(percent, text)) && HoldsAt(c, MemoryAt(percent, text), k, Critical)
  {
    var c, payload, info := Plain(window), MemoryAt(percent, text), AlertFields(Mem)[0];
    forall r: Reading ensures Supports(c, Mem, AlertFields(Mem), payload, r) <==>
                              r == Reading(None, info, Critical, percent)
    {
      MemoryMerits(window, percent, text, r.level, r.raw);
    }
    assert Supports(c, Mem, AlertFields(Mem), payload, Reading(None, info, Critical, percent));
  }

  lemma MemoryPersists(hostname: string, percent: real, text: string, calls: seq<Call>)
    requires percent >= 90.0
    requires calls == [Call(Mem, MemoryAt(percent, text), 0, 0), Call(Mem, MemoryAt(percent, text), 2000000000, 2)]
    ensures var c := Plain(2.0);
            Persists(c, calls, PolicyOf(c, hostname), 0, 1, Key(Mem, None, "percent"), Critical, 2000000000, 2000000000)
  {
    var c, k := Plain(2.0), Key(Mem, None, "percent");
    MemoryHolds(2.0, percent, text);
    assert calls[..1] == [calls[0]] && calls[..0] == [];
    forall j | 0 <= j <= 1 ensures CallHolds(c, calls, j, 0, k, Critical, 2000000000) {
    }
  }

  lemma AddedIsIn<T>(before: seq<T>, after: seq<T>, e: T)
    requires Adds(before, after, e)
    ensures e in after
  {
  }

  lemma JournalledByAll(c: Config, calls: seq<Call>, p: Policy, a: nat, b: nat, k: Key, level: Level)
    returns (e: Event)
    requires Persists(c, calls, p, a, b, k, level, p.refresh(k.plugin), p.minDuration(k.plugin))
    ensures e in Log(StepsOf(c, calls[..b + 1]), p) && e.key == k && e.level == level
  {
    e := PersistentLevelIsJournalled(c, calls, p, a, b, k, level);
    AddedIsIn(Log(StepsOf(c, calls[..a]), p), Log(StepsOf(c, calls[..b + 1]), p), e);
  }

  lemma RunOfTwo(c: Config, calls: seq<Call>, p: Policy, e: Event)
    requires |calls| == 2 && e in Log(StepsOf(c, calls[..2]), p)
    ensures e in Log(StepsOf(c, calls), p)
  {
    assert calls[..2] == calls;
  }

  lemma PlainPolicy(hostname: string)
    ensures var p := PolicyOf(Plain(2.0), hostname); p.refresh(Mem) == 2000000000 && p.minDuration(Mem) == 2000000000
  {
  }

  /** Memory at 90 percent or more, seen twice two seconds apart with a window of two seconds, is journalled. */
  lemma HighMemoryIsJournalled(hostname: string, percent: real, text: string) returns (calls: seq<Call>, e: Event)
    requires percent >= 90.0
    ensures calls == [Call(Mem, MemoryAt(percent, text), 0, 0), Call(Mem, MemoryAt(percent, text), 2000000000, 2)]
    ensures e in Log(StepsOf(Plain(2.0), calls), PolicyOf(Plain(2.0), hostname))
    ensures e.key == Key(Mem, None, "percent") && e.level == Critical
  {
    calls := [Call(Mem, MemoryAt(percent, text), 0, 0), Call(Mem, MemoryAt(percent, text), 2000000000, 2)];
    MemoryPersists(hostname, percent, text, calls);
    PlainPolicy(hostname);
    e := JournalledByAll(Plain(2.0), calls, PolicyOf(Plain(2.0), hostname), 0, 1, Key(Mem, None, "percent"), Critical);
    RunOfTwo(Plain(2.0), calls, PolicyOf(Plain(2.0), hostname), e);
  }
}
