/** The debounce state of one (plugin, item, field): `reconcile` (src/alerts.rs:68-127). */
module Hysteresis {
  import opened Wrappers
  import opened Levels

  /** The fields of `AlertState`, as a value. Instants and durations are in nanoseconds. */
  datatype Fields = Fields(
    committedLevel: Level,
    pendingLevel: Option<Level>,
    pendingSince: Option<int>,
    hasCommitted: bool)

  /** The two pending fields are set together, which is what `reconcile` expects. */
  predicate Paired(f: Fields) {
    f.pendingLevel.Some? <==> f.pendingSince.Some?
  }

  const DEFAULT := Fields(Okay, None, None, false)

  type Snapshot = f: Fields | Paired(f) witness Fields(Okay, None, None, false)

  datatype Transition = Transition(previous: Level, current: Level, isInitial: bool)

  function Forget(s: Fields): Snapshot {
    s.(pendingLevel := None, pendingSince := None)
  }

  function Committing(s: Snapshot, observed: Level): (Snapshot, Option<Transition>) {
    (Fields(observed, None, None, true), Some(Transition(s.committedLevel, observed, !s.hasCommitted)))
  }

  /** One observation: the next state, and the transition if one commits. */
  function Advance(s: Snapshot, observed: Level, now: int, minDuration: nat): (Snapshot, Option<Transition>) {
    if observed == s.committedLevel then (Forget(s).(hasCommitted := true), None)
    else if minDuration == 0 then Committing(s, observed)
    else if s.pendingLevel == Some(observed) then
      if now - s.pendingSince.value >= minDuration then Committing(s, observed) else (s, None)
    else (s.(pendingLevel := Some(observed), pendingSince := Some(now)), None)
  }

  /** `owner` names the map entry that holds the object; an entry never shares its state. */
  class AlertState<K> {
    ghost const owner: K
    var committedLevel: Level
    var pendingLevel: Option<Level>
    var pendingSince: Option<int>
    var hasCommitted: bool

    ghost function View(): Fields
      reads this
    {
      Fields(committedLevel, pendingLevel, pendingSince, hasCommitted)
    }

    constructor (ghost owner: K)
      ensures View() == DEFAULT && this.owner == owner
    {
      this.owner := owner;
      committedLevel, pendingLevel, pendingSince, hasCommitted := Okay, None, None, false;
    }

    method DropPending()
      modifies this
      ensures View() == Forget(old(View()))
    {
      pendingLevel, pendingSince := None, None;
    }

    method Reconcile(observed: Level, now: int, minDuration: nat) returns (tr: Option<Transition>)
      requires Paired(View())
      modifies this
      ensures Paired(View())
      ensures (View(), tr) == Advance(old(View()), observed, now, minDuration)
    {
      if observed == committedLevel {
        pendingLevel, pendingSince := None, None;
        hasCommitted := true;
        return None;
      }
      if minDuration == 0 {
        tr := Commit(observed);
        return;
      }
      if pendingLevel == Some(observed) {
        if now - pendingSince.value >= minDuration {
          tr := Commit(observed);
          return;
        }
        return None;
      }
      pendingLevel := Some(observed);
      pendingSince := Some(now);
      return None;
    }

    method Commit(observed: Level) returns (tr: Option<Transition>)
      requires Paired(View())
      modifies this
      ensures (View(), tr) == Committing(old(View()), observed)
    {
      tr := Some(Transition(committedLevel, observed, !hasCommitted));
      committedLevel := observed;
      hasCommitted := true;
      pendingLevel, pendingSince := None, None;
    }
  }

  // ---------------------------------------------------------------------
  // Traces: what one triple goes through in one lifetime of its entry
  // ---------------------------------------------------------------------

  /** An observed level at an instant, or an idle-gap reset. */
  datatype Item = Seen(level: Level, at: int) | Gap

  function StepItem(s: Snapshot, item: Item, minDuration: nat): Snapshot {
    match item
    case Seen(level, at) => Advance(s, level, at, minDuration).0
    case Gap => Forget(s)
  }

  /** The state after a whole trace, by folding the code's step. */
  function Fold(items: seq<Item>, minDuration: nat): Snapshot {
    if items == [] then DEFAULT
    else StepItem(Fold(items[..|items| - 1], minDuration), items[|items| - 1], minDuration)
  }

  /** The transition that the last item of a trace commits, if it does. */
  function LastTransition(items: seq<Item>, minDuration: nat): Option<Transition> {
    if items == [] || items[|items| - 1].Gap? then None
    else
      var last := items[|items| - 1];
      Advance(Fold(items[..|items| - 1], minDuration), last.level, last.at, minDuration).1
  }

  /** All transitions of a trace, in order. */
  function Transitions(items: seq<Item>, minDuration: nat): seq<Transition> {
    if items == [] then []
    else
      var tr := LastTransition(items, minDuration);
      Transitions(items[..|items| - 1], minDuration) + if tr.Some? then [tr.value] else []
  }

  // ---------------------------------------------------------------------
  // The trace specification, which knows no pending window
  // ---------------------------------------------------------------------

  predicate SeenLevel(item: Item, level: Level) {
    item.Seen? && item.level == level
  }

  /** Where the maximal block of equal consecutive observations ending at `i` starts. */
  function BlockStart(items: seq<Item>, i: nat): (b: nat)
    requires i < |items| && items[i].Seen?
    ensures b <= i && SeenLevel(items[b], items[i].level)
  {
    if i > 0 && SeenLevel(items[i - 1], items[i].level) then BlockStart(items, i - 1) else i
  }

  /** The last observation has persisted: no window is asked for, or its block spans one. */
  predicate Persisted(items: seq<Item>, minDuration: nat)
    requires items != [] && items[|items| - 1].Seen?
  {
    var i := |items| - 1;
    minDuration == 0 || items[i].at - items[BlockStart(items, i)].at >= minDuration
  }

  /** The last item commits: its level is new and has persisted. */
  predicate CommitsLast(items: seq<Item>, minDuration: nat)
    decreases |items|, 0
  {
    && items != []
    && var last := items[|items| - 1];
       && last.Seen? && last.level != Committed(items[..|items| - 1], minDuration) && Persisted(items, minDuration)
  }

  /** The level of the last committing observation, and `Okay` before any. */
  function Committed(items: seq<Item>, minDuration: nat): Level
    decreases |items|, 1
  {
    if items == [] then Okay
    else if CommitsLast(items, minDuration) then items[|items| - 1].level
    else Committed(items[..|items| - 1], minDuration)
  }

  /** `BlockStart` is what it says: a block of one level, and none longer. */
  lemma {:induction false} BlockIsMaximal(items: seq<Item>, i: nat)
    requires i < |items| && items[i].Seen?
    ensures var b := BlockStart(items, i);
            && b <= i
            && (forall j :: b <= j <= i ==> SeenLevel(items[j], items[i].level))
            && (b > 0 ==> !SeenLevel(items[b - 1], items[i].level))
    decreases i
  {
    if i > 0 && SeenLevel(items[i - 1], items[i].level) { BlockIsMaximal(items, i - 1); }
  }

  lemma {:induction false} BlockOfPrefix(items: seq<Item>, n: nat, i: nat)
    requires i < n <= |items| && items[i].Seen?
    ensures BlockStart(items[..n], i) == BlockStart(items, i)
    decreases i
  {
    if i > 0 && SeenLevel(items[i - 1], items[i].level) { BlockOfPrefix(items, n, i - 1); }
  }

  /** A pending window is open exactly while an uncommitted level is being seen, since its block began. */
  ghost predicate WindowMatches(items: seq<Item>, s: Snapshot, minDuration: nat) {
    var n := |items|;
    if n > 0 && items[n - 1].Seen? && items[n - 1].level != s.committedLevel then
      && minDuration > 0
      && s.pendingLevel == Some(items[n - 1].level)
      && s.pendingSince == Some(items[BlockStart(items, n - 1)].at)
    else s.pendingLevel.None?
  }

  /**
   * The debounce machine refines the trace specification: it commits exactly when the
   * specification does, and its committed level is the specification's.
   */
  lemma {:induction false} FoldMeetsSpec(items: seq<Item>, minDuration: nat)
    ensures Fold(items, minDuration).committedLevel == Committed(items, minDuration)
    ensures WindowMatches(items, Fold(items, minDuration), minDuration)
    ensures LastTransition(items, minDuration).Some? <==> CommitsLast(items, minDuration)
    decreases |items|
  {
    if items != [] {
      var n := |items|;
      var prefix := items[..n - 1];
      FoldMeetsSpec(prefix, minDuration);
      if n > 1 && prefix[n - 2].Seen? { BlockOfPrefix(items, n - 1, n - 2); }
    }
  }

  // ---------------------------------------------------------------------
  // Chaining
  // ---------------------------------------------------------------------

  ghost predicate SawOkay(items: seq<Item>) {
    exists i :: 0 <= i < |items| && SeenLevel(items[i], Okay)
  }

  /** Each transition starts where the one before it ended, and really changes the level. */
  ghost predicate Chained(ts: seq<Transition>) {
    forall i :: 0 <= i < |ts| ==> Linked(ts, i)
  }

  ghost predicate Linked(ts: seq<Transition>, i: nat)
    requires i < |ts|
  {
    && ts[i].previous == (if i == 0 then Okay else ts[i - 1].current)
    && ts[i].current != ts[i].previous
    && (ts[i].isInitial ==> i == 0)
  }

  lemma ChainedAppend(ts: seq<Transition>, tr: Transition)
    requires Chained(ts) && tr.current != tr.previous
    requires tr.previous == if ts == [] then Okay else ts[|ts| - 1].current
    requires tr.isInitial ==> ts == []
    ensures Chained(ts + [tr])
  {
    forall i | 0 <= i < |ts| + 1 ensures Linked(ts + [tr], i) {
      if i < |ts| { assert Linked(ts, i); }
    }
  }

  lemma SawOkayStep(items: seq<Item>)
    requires items != []
    ensures SawOkay(items) <==> SawOkay(items[..|items| - 1]) || SeenLevel(items[|items| - 1], Okay)
  {
    var prefix := items[..|items| - 1];
    if SawOkay(prefix) {
      var i :| 0 <= i < |prefix| && SeenLevel(prefix[i], Okay);
      assert SeenLevel(items[i], Okay);
    }
    if SawOkay(items) && !SeenLevel(items[|items| - 1], Okay) {
      var i :| 0 <= i < |items| && SeenLevel(items[i], Okay);
      assert SeenLevel(prefix[i], Okay);
    }
  }

  /**
   * The transitions of a lifetime form a chain from `Okay` to the committed level, and
   * a transition is marked initial exactly when it is the first one and no `Okay` was seen before it.
   */
  lemma {:induction false} TransitionsChain(items: seq<Item>, minDuration: nat)
    ensures var ts := Transitions(items, minDuration);
            && Chained(ts)
            && Fold(items, minDuration).committedLevel == (if ts == [] then Okay else ts[|ts| - 1].current)
            && (Fold(items, minDuration).hasCommitted <==> ts != [] || SawOkay(items))
    ensures var tr := LastTransition(items, minDuration);
            tr.Some? ==>
              (tr.value.isInitial <==>
                Transitions(items[..|items| - 1], minDuration) == [] && !SawOkay(items[..|items| - 1]))
    decreases |items|
  {
    if items != [] {
      var prefix := items[..|items| - 1];
      TransitionsChain(prefix, minDuration);
      SawOkayStep(items);
      var tr := LastTransition(items, minDuration);
      if tr.Some? {
        ChainedAppend(Transitions(prefix, minDuration), tr.value);
      } else {
        assert Transitions(items, minDuration) == Transitions(prefix, minDuration);
      }
    }
  }
}
