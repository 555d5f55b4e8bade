/**
 * Counter differences between consecutive samples: the `step` of src/plugins/network.rs:189-257 and
 * of src/plugins/diskio.rs:133-200, and the state that `collect` keeps between cycles. Both files
 * hold the same loop around different items, so the loop is written once over `build`.
 */
module Rates {
  import opened Wrappers
  import opened Strings
  import opened Rounding
  import opened Filters

  const U64_MAX: int := 0xFFFF_FFFF_FFFF_FFFF

  type u64 = x: int | 0 <= x <= 0xFFFF_FFFF_FFFF_FFFF

  function SaturatingSub(a: u64, b: u64): u64 {
    if a >= b then a - b else 0
  }

  function SaturatingAdd(a: u64, b: u64): u64 {
    if a + b <= U64_MAX then a + b else U64_MAX
  }

  /** Seconds between two nanosecond readings of the monotonic clock, never negative. */
  function Elapsed(earlier: nat, later: nat): (seconds: real)
    ensures seconds >= 0.0
  {
    if later >= earlier then (later - earlier) as real / 1000000000.0 else 0.0
  }

  lemma ElapsedInNanos(earlier: nat, later: nat)
    ensures Elapsed(earlier, later) * 1000000000.0 == if later >= earlier then (later - earlier) as real else 0.0
  {
  }

  /** A rate with one decimal; no time passed means no rate. */
  function PerSec(delta: u64, elapsed: real): (rate: real)
    ensures elapsed <= 0.0 ==> rate == 0.0
    ensures elapsed > 0.0 ==> -0.05 <= rate - delta as real / elapsed <= 0.05
  {
    if elapsed > 0.0 then
      Round1Close(delta as real / elapsed);
      Round1(delta as real / elapsed)
    else 0.0
  }

  /** A rate reads 0 exactly when the counter rose by less than one in twenty seconds. */
  lemma RateIsZeroExactly(delta: u64, elapsed: real)
    requires elapsed > 0.0
    ensures PerSec(delta, elapsed) >= 0.0
    ensures PerSec(delta, elapsed) == 0.0 <==> (delta as real) < 0.05 * elapsed
  {
    var exact := delta as real / elapsed;
    QuotientAtLeast(delta as real, elapsed, 0.0);
    QuotientAtLeast(delta as real, elapsed, 0.05);
    RoundsToZeroExactly(exact);
  }

  lemma QuotientCombines(a: real, b: real, c: real, t: real)
    requires t > 0.0
    ensures (a + b - c) / t == a / t + b / t - c / t
  {
  }

  /** What a sum exceeds the largest counter by. */
  function Overflow(a: u64, b: u64): (over: nat)
    ensures SaturatingAdd(a, b) == a + b - over
  {
    if a + b <= U64_MAX then 0 else a + b - U64_MAX
  }

  /** The rate of a saturating sum falls short of the sum of the rates by that of the overflow, up to rounding. */
  lemma RatesAdd(a: u64, b: u64, elapsed: real)
    requires elapsed > 0.0
    ensures var lost := Overflow(a, b) as real / elapsed;
            -0.15 <= PerSec(SaturatingAdd(a, b), elapsed) + lost - (PerSec(a, elapsed) + PerSec(b, elapsed)) <= 0.15
  {
    QuotientCombines(a as real, b as real, Overflow(a, b) as real, elapsed);
  }

  // ---------------------------------------------------------------------
  // One step
  // ---------------------------------------------------------------------

  ghost predicate Ascending<V>(s: seq<(string, V)>) {
    forall i, j :: 0 <= i < j < |s| ==> Less(s[i].0, s[j].0)
  }

  /** Every record describes a key that both samples hold. */
  ghost predicate Built<C, V>(items: seq<(string, V)>, before: map<string, C>, now: map<string, C>,
                              build: (string, C, C) -> V) {
    forall i :: 0 <= i < |items| ==>
      && items[i].0 in before && items[i].0 in now
      && items[i].1 == build(items[i].0, before[items[i].0], now[items[i].0])
  }

  /** `items` is the sorted intersection of two samples, one record for each common key. */
  ghost predicate IsDiff<C, V>(items: seq<(string, V)>, before: map<string, C>, now: map<string, C>,
                               build: (string, C, C) -> V) {
    && Ascending(items)
    && before.Keys * now.Keys <= Keys(items)
    && Built(items, before, now, build)
  }

  lemma AscendingIsDistinct<V>(s: seq<(string, V)>)
    requires Ascending(s)
    ensures DistinctKeys(s) && Sorted(s)
  {
    forall i, j | 0 <= i < j < |s| ensures s[i].0 != s[j].0 && !Less(s[j].0, s[i].0) {
      LessIrreflexive(s[i].0);
      LessAsymmetric(s[i].0, s[j].0);
    }
  }

  lemma SortMember<V>(s: seq<(string, V)>, x: (string, V))
    ensures x in Sort(s) <==> x in s
  {
    SortIsSorted(s);
    assert x in multiset(Sort(s)) <==> x in multiset(s);
  }

  lemma SortAscends<V>(s: seq<(string, V)>)
    requires DistinctKeys(s)
    ensures Ascending(Sort(s)) && Keys(Sort(s)) == Keys(s)
  {
    var t := Sort(s);
    SortIsSorted(s);
    DistinctByMultiset(s, t);
    forall i, j | 0 <= i < j < |t| ensures Less(t[i].0, t[j].0) {
      LessTotal(t[i].0, t[j].0);
    }
    forall i | 0 <= i < |s| ensures s[i].0 in Keys(t) { SortMember(s, s[i]); }
    forall i | 0 <= i < |t| ensures t[i].0 in Keys(s) { SortMember(s, t[i]); }
  }

  /** Two ascending lists of the same records are the same list. */
  lemma AscendingUnique<V>(a: seq<(string, V)>, b: seq<(string, V)>)
    requires Ascending(a) && Ascending(b) && forall x :: x in a <==> x in b
    ensures a == b
  {
    AscendingIsDistinct(a);
    AscendingIsDistinct(b);
    forall x ensures multiset(a)[x] == multiset(b)[x] {
      if x in a {
        OccursOnce(a, x);
        OccursOnce(b, x);
      } else {
        assert x !in multiset(a) && x !in multiset(b);
      }
    }
    SortedUnique(a, b);
  }

  lemma DiffHolds<C, V>(items: seq<(string, V)>, before: map<string, C>, now: map<string, C>,
                        build: (string, C, C) -> V, x: (string, V))
    requires IsDiff(items, before, now, build)
    ensures x in items <==> x.0 in before && x.0 in now && x.1 == build(x.0, before[x.0], now[x.0])
  {
    if x.0 in before && x.0 in now && x.1 == build(x.0, before[x.0], now[x.0]) {
      assert x.0 in Keys(items);
      var i :| 0 <= i < |items| && items[i].0 == x.0;
      assert items[i] == x;
    }
  }

  /** The items of a step are determined by the two samples. */
  lemma DiffUnique<C, V>(a: seq<(string, V)>, b: seq<(string, V)>, before: map<string, C>, now: map<string, C>,
                         build: (string, C, C) -> V)
    requires IsDiff(a, before, now, build) && IsDiff(b, before, now, build)
    ensures a == b
  {
    forall x ensures x in a <==> x in b {
      DiffHolds(a, before, now, build, x);
      DiffHolds(b, before, now, build, x);
    }
    AscendingUnique(a, b);
  }

  /** What the records say after the keys in `visited`. */
  ghost predicate Covers<C, V>(items: seq<(string, V)>, visited: set<string>, before: map<string, C>,
                               now: map<string, C>, build: (string, C, C) -> V) {
    DistinctKeys(items) && Built(items, before, now, build) && Keys(items) == visited * before.Keys
  }

  lemma CoversOneMore<C, V>(items: seq<(string, V)>, visited: set<string>, name: string, before: map<string, C>,
                            now: map<string, C>, build: (string, C, C) -> V)
    requires Covers(items, visited, before, now, build)
    requires name in before && name in now && name !in visited
    ensures Covers(items + [(name, build(name, before[name], now[name]))], visited + {name}, before, now, build)
  {
    var t := items + [(name, build(name, before[name], now[name]))];
    assert t[|items|].0 == name;
    forall i | 0 <= i < |items| ensures items[i].0 in Keys(items) && t[i] == items[i] {
    }
    forall k ensures k in Keys(t) <==> k in Keys(items) || k == name {
      if k in Keys(items) {
        var i :| 0 <= i < |items| && items[i].0 == k;
        assert t[i].0 == k;
      }
    }
  }

  lemma BuiltSorted<C, V>(items: seq<(string, V)>, before: map<string, C>, now: map<string, C>,
                          build: (string, C, C) -> V)
    requires Covers(items, now.Keys, before, now, build)
    ensures IsDiff(Sort(items), before, now, build)
  {
    SortAscends(items);
    var sorted := Sort(items);
    forall i | 0 <= i < |sorted| ensures sorted[i] in items {
      SortMember(items, sorted[i]);
    }
  }

  /** One step; the table of samples is visited in any order. */
  method Step<C, V>(previous: map<string, C>, current: map<string, C>, build: (string, C, C) -> V)
    returns (items: seq<(string, V)>, next: map<string, C>)
    ensures IsDiff(items, previous, current, build)
    ensures next == current
  {
    items := [];
    var rest := current.Keys;
    while rest != {}
      invariant rest <= current.Keys
      invariant Covers(items, current.Keys - rest, previous, current, build)
      decreases |rest|
    {
      var name :| name in rest;
      ghost var visited := current.Keys - rest;
      rest := rest - {name};
      assert current.Keys - rest == visited + {name};
      if name in previous {
        CoversOneMore(items, visited, name, previous, current, build);
        items := items + [(name, build(name, previous[name], current[name]))];
      }
    }
    assert current.Keys - rest == current.Keys;
    BuiltSorted(items, previous, current, build);
    items := Sort(items);
    next := current;
  }

  // ---------------------------------------------------------------------
  // Filtering before the step and after it
  // ---------------------------------------------------------------------

  function Restrict<C>(table: map<string, C>, shown: string -> bool): map<string, C> {
    map k | k in table && shown(k) :: table[k]
  }

  function Select<V>(items: seq<(string, V)>, shown: string -> bool): seq<(string, V)> {
    if items == [] then []
    else (if shown(items[0].0) then [items[0]] else []) + Select(items[1..], shown)
  }

  lemma {:induction false} SelectMember<V>(items: seq<(string, V)>, shown: string -> bool, x: (string, V))
    ensures x in Select(items, shown) <==> x in items && shown(x.0)
  {
    if items != [] {
      SelectMember(items[1..], shown, x);
      assert items == [items[0]] + items[1..];
    }
  }

  lemma {:induction false} SelectAscends<V>(items: seq<(string, V)>, shown: string -> bool)
    requires Ascending(items)
    ensures Ascending(Select(items, shown))
  {
    if items != [] {
      SelectAscends(items[1..], shown);
      var rest := Select(items[1..], shown);
      forall j | 0 <= j < |rest| ensures Less(items[0].0, rest[j].0) {
        SelectMember(items[1..], shown, rest[j]);
      }
    }
  }

  /** A hidden key costs no difference and changes no other: filtering commutes with the step. */
  lemma FilterCommutes<C, V>(all: seq<(string, V)>, kept: seq<(string, V)>, before: map<string, C>,
                             now: map<string, C>, shown: string -> bool, build: (string, C, C) -> V)
    requires IsDiff(all, before, now, build)
    requires IsDiff(kept, Restrict(before, shown), Restrict(now, shown), build)
    ensures kept == Select(all, shown)
  {
    SelectAscends(all, shown);
    forall x ensures x in kept <==> x in Select(all, shown) {
      SelectMember(all, shown, x);
      DiffHolds(all, before, now, build, x);
      DiffHolds(kept, Restrict(before, shown), Restrict(now, shown), build, x);
    }
    AscendingUnique(kept, Select(all, shown));
  }

  // ---------------------------------------------------------------------
  // Whole runs of a collector
  // ---------------------------------------------------------------------

  /** What the machine shows at one instant; `extra` is read only to describe the items. */
  datatype Reading<C, E> = Reading(table: map<string, C>, at: nat, extra: E)

  /** Cycle `i` publishes the difference of readings `i` and `i + 1`, over the measured interval. */
  ghost predicate Follows<C, E, V>(readings: seq<Reading<C, E>>, published: seq<seq<(string, V)>>,
                                   shown: string -> bool, item: (E, real) -> (string, C, C) -> V) {
    && |readings| == (if published == [] then |readings| else |published| + 1)
    && (published == [] ==> readings == [])
    && forall i :: 0 <= i < |published| ==>
         IsDiff(published[i], Restrict(readings[i].table, shown), Restrict(readings[i + 1].table, shown),
                item(readings[i + 1].extra, Elapsed(readings[i].at, readings[i + 1].at)))
  }

  /** One more cycle, over the interval since the last reading. */
  lemma FollowsNext<C, E, V>(readings: seq<Reading<C, E>>, published: seq<seq<(string, V)>>, shown: string -> bool,
                             item: (E, real) -> (string, C, C) -> V, now: Reading<C, E>, items: seq<(string, V)>)
    requires readings != []
    requires Follows(readings, published, shown, item) || (published == [] && |readings| == 1)
    requires var last := readings[|readings| - 1];
             IsDiff(items, Restrict(last.table, shown), Restrict(now.table, shown),
                    item(now.extra, Elapsed(last.at, now.at)))
    ensures Follows(readings + [now], published + [items], shown, item)
  {
  }

  /** The state a rate plugin keeps between cycles. */
  class RateState<C, E, V> {
    const shown: string -> bool
    const item: (E, real) -> (string, C, C) -> V
    var previous: map<string, C>
    var last: Option<nat>
    ghost var readings: seq<Reading<C, E>>
    ghost var published: seq<seq<(string, V)>>

    /** The state is the latest sample and nothing older. */
    ghost predicate Valid()
      reads this
    {
      && Follows(readings, published, shown, item)
      && match last
         case None => readings == [] && previous == map[]
         case Some(at) =>
           && readings != [] && at == readings[|readings| - 1].at
           && previous == Restrict(readings[|readings| - 1].table, shown)
    }

    constructor (shown: string -> bool, item: (E, real) -> (string, C, C) -> V)
      ensures Valid() && readings == [] && published == []
      ensures this.shown == shown && this.item == item
    {
      this.shown, this.item := shown, item;
      previous, last := map[], None;
      readings, published := [], [];
    }

    /** One cycle; `baseline` is the sample that the first cycle takes before its warm-up. */
    method Collect(baseline: Reading<C, E>, now: Reading<C, E>) returns (items: seq<(string, V)>, elapsed: real)
      requires Valid()
      modifies this
      ensures Valid()
      ensures readings == (if old(readings) == [] then [baseline] else old(readings)) + [now]
      ensures published == old(published) + [items]
      ensures var before := readings[|readings| - 2].at;
              elapsed * 1000000000.0 == if now.at >= before then (now.at - before) as real else 0.0
    {
      if last.None? {
        previous := Restrict(baseline.table, shown);
        last := Some(baseline.at);
        readings := [baseline];
      }
      elapsed := Elapsed(last.value, now.at);
      ElapsedInNanos(last.value, now.at);
      last := Some(now.at);
      var current := Restrict(now.table, shown);
      items, previous := Step(previous, current, item(now.extra, elapsed));
      FollowsNext(readings, published, shown, item, now, items);
      readings := readings + [now];
      published := published + [items];
    }
  }

  /** Over a whole run, filtering the samples publishes what filtering the output would. */
  lemma FilterFirstOrLast<C, E, V>(readings: seq<Reading<C, E>>, all: seq<seq<(string, V)>>,
                                   kept: seq<seq<(string, V)>>, shown: string -> bool,
                                   item: (E, real) -> (string, C, C) -> V, i: nat)
    requires Follows(readings, all, _ => true, item) && Follows(readings, kept, shown, item)
    requires i < |kept|
    ensures |all| == |kept| && kept[i] == Select(all[i], shown)
  {
    var before, now := readings[i].table, readings[i + 1].table;
    assert Restrict(before, _ => true) == before && Restrict(now, _ => true) == now;
    FilterCommutes(all[i], kept[i], before, now, shown,
                   item(readings[i + 1].extra, Elapsed(readings[i].at, readings[i + 1].at)));
  }

  // ---------------------------------------------------------------------
  // Conservation
  // ---------------------------------------------------------------------

  /** One counter of one item, as the run saw it. */
  datatype Point = Point(count: u64, at: nat)

  function Rises(points: seq<Point>): nat {
    var n := |points|;
    if n <= 1 then 0 else Rises(points[..n - 1]) + SaturatingSub(points[n - 1].count, points[n - 2].count)
  }

  function Falls(points: seq<Point>): nat {
    var n := |points|;
    if n <= 1 then 0 else Falls(points[..n - 1]) + SaturatingSub(points[n - 2].count, points[n - 1].count)
  }

  /** Rises between two samples taken at one instant: no time passed, so no rate reports them. */
  function Unmeasured(points: seq<Point>): nat {
    var n := |points|;
    if n <= 1 then 0
    else
      Unmeasured(points[..n - 1])
      + if points[n - 2].at < points[n - 1].at then 0 else SaturatingSub(points[n - 1].count, points[n - 2].count)
  }

  ghost predicate NeverFalls(points: seq<Point>) {
    forall i :: 0 < i < |points| ==> points[i - 1].count <= points[i].count
  }

  /** What the clamped differences add up to: the net change, and whatever was lost to resets. */
  lemma {:induction false} RisesLessFalls(points: seq<Point>)
    requires points != []
    ensures Rises(points) - Falls(points) == points[|points| - 1].count - points[0].count
    ensures Falls(points) == 0 <==> NeverFalls(points)
  {
    var n := |points|;
    if n > 1 {
      RisesLessFalls(points[..n - 1]);
      assert NeverFalls(points) <==> NeverFalls(points[..n - 1]) && points[n - 2].count <= points[n - 1].count;
    }
  }

  function Trace<C, E>(readings: seq<Reading<C, E>>, key: string, count: C -> u64): seq<Point>
    requires forall i :: 0 <= i < |readings| ==> key in readings[i].table
  {
    seq(|readings|, i requires 0 <= i < |readings| => Point(count(readings[i].table[key]), readings[i].at))
  }

  /** The record of `key` in a list of items. */
  ghost function Lookup<V>(items: seq<(string, V)>, key: string): V
    requires key in Keys(items)
  {
    var i :| 0 <= i < |items| && items[i].0 == key;
    items[i].1
  }

  ghost predicate ListedThroughout<V>(published: seq<seq<(string, V)>>, key: string) {
    forall i :: 0 <= i < |published| ==> key in Keys(published[i])
  }

  function Total(xs: seq<real>): real {
    if xs == [] then 0.0 else Total(xs[..|xs| - 1]) + xs[|xs| - 1]
  }

  /** What each cycle of a run reports of an item: its rate times the nanoseconds it was measured over. */
  ghost function Amounts<C, E, V>(readings: seq<Reading<C, E>>, published: seq<seq<(string, V)>>, key: string,
                                  rate: V -> real): seq<real>
    requires |readings| == |published| + 1 && ListedThroughout(published, key)
  {
    seq(|published|, i requires 0 <= i < |published| =>
      rate(Lookup(published[i], key)) * (readings[i + 1].at - readings[i].at) as real)
  }

  /** A rise that time passed over, 10^9 times. */
  function IncrementOf(before: Point, now: Point): real {
    if before.at < now.at then 1000000000.0 * SaturatingSub(now.count, before.count) as real else 0.0
  }

  function Increments(points: seq<Point>): seq<real>
    requires points != []
  {
    seq(|points| - 1, i requires 0 <= i < |points| - 1 => IncrementOf(points[i], points[i + 1]))
  }

  function Intervals(points: seq<Point>): seq<real>
    requires points != []
  {
    seq(|points| - 1, i requires 0 <= i < |points| - 1 => (points[i + 1].at - points[i].at) as real)
  }

  /** Equal up to half a tenth for each unit of time. */
  predicate Within(x: real, y: real, time: real) {
    -0.05 * time <= x - y <= 0.05 * time
  }

  lemma {:induction false} TotalsWithin(xs: seq<real>, ys: seq<real>, ts: seq<real>)
    requires |xs| == |ys| == |ts|
    requires forall i :: 0 <= i < |xs| ==> Within(xs[i], ys[i], ts[i])
    ensures Within(Total(xs), Total(ys), Total(ts))
  {
    if xs != [] {
      var n := |xs| - 1;
      TotalsWithin(xs[..n], ys[..n], ts[..n]);
      assert Within(xs[n], ys[n], ts[n]);
    }
  }

  lemma LastIncrement(points: seq<Point>)
    requires |points| > 1
    ensures var n := |points| - 1;
            Increments(points) == Increments(points[..n]) + [IncrementOf(points[n - 1], points[n])]
  {
  }

  lemma TotalAppend(xs: seq<real>, x: real)
    ensures Total(xs + [x]) == Total(xs) + x
  {
    assert (xs + [x])[..|xs|] == xs;
  }

  lemma {:induction false} IncrementsAreRises(points: seq<Point>)
    requires points != []
    ensures Total(Increments(points)) == 1000000000.0 * (Rises(points) - Unmeasured(points)) as real
  {
    var n := |points| - 1;
    if n > 0 {
      IncrementsAreRises(points[..n]);
      LastIncrement(points);
      TotalAppend(Increments(points[..n]), IncrementOf(points[n - 1], points[n]));
    }
  }

  lemma {:induction false} IntervalsAreSpan(points: seq<Point>)
    requires points != []
    ensures Total(Intervals(points)) == (points[|points| - 1].at - points[0].at) as real
  {
    var n := |points| - 1;
    if n > 0 {
      IntervalsAreSpan(points[..n]);
      assert Intervals(points)[..n - 1] == Intervals(points[..n]);
    }
  }

  lemma RateTimesInterval(delta: u64, elapsed: real)
    requires elapsed > 0.0
    ensures Within(PerSec(delta, elapsed) * elapsed, delta as real, elapsed)
  {
    var exact := delta as real / elapsed;
    var rate := PerSec(delta, elapsed);
    assert exact * elapsed == delta as real;
    assert (rate - exact) * elapsed <= 0.05 * elapsed;
    assert -0.05 * elapsed <= (rate - exact) * elapsed;
  }

  lemma ScaledWithin(x: real, y: real, time: real, factor: real)
    requires Within(x, y, time) && factor > 0.0
    ensures Within(x * factor, y * factor, time * factor)
  {
    ScaledSign(x - y - 0.05 * time, factor);
    ScaledSign(y - x - 0.05 * time, factor);
  }

  lemma Regroup(a: real, b: real, c: real)
    ensures a * b * c == a * (b * c)
  {
  }

  /** A rate times the nanoseconds it was measured over gives back its rise, 10^9 times. */
  lemma RateTimesNanos(delta: u64, earlier: nat, later: nat)
    requires earlier < later
    ensures var nanos := (later - earlier) as real;
            Within(PerSec(delta, Elapsed(earlier, later)) * nanos, 1000000000.0 * delta as real, nanos)
  {
    var elapsed := Elapsed(earlier, later);
    ElapsedInNanos(earlier, later);
    RateTimesInterval(delta, elapsed);
    ScaledWithin(PerSec(delta, elapsed) * elapsed, delta as real, elapsed, 1000000000.0);
    Regroup(PerSec(delta, elapsed), elapsed, 1000000000.0);
  }

  /** On the item of cycle `i`, `rate` reads the rate of the counter `count`. */
  ghost predicate IsRateOf<C, E, V>(readings: seq<Reading<C, E>>, item: (E, real) -> (string, C, C) -> V, key: string,
                                    count: C -> u64, rate: V -> real, i: nat)
    requires i + 1 < |readings|
    requires key in readings[i].table && key in readings[i + 1].table
  {
    var before, now := readings[i].table[key], readings[i + 1].table[key];
    var elapsed := Elapsed(readings[i].at, readings[i + 1].at);
    rate(item(readings[i + 1].extra, elapsed)(key, before, now)) ==
      PerSec(SaturatingSub(count(now), count(before)), elapsed)
  }

  /** `key` is in every sample, and the clock never runs back. */
  ghost predicate Steady<C, E>(readings: seq<Reading<C, E>>, key: string) {
    && (forall i :: 0 <= i < |readings| ==> key in readings[i].table)
    && forall i, j :: 0 <= i < j < |readings| ==> readings[i].at <= readings[j].at
  }

  /** A cycle lists exactly the shown items of both its readings, each described by its own two samples. */
  lemma ListedExactly<C, E, V>(readings: seq<Reading<C, E>>, published: seq<seq<(string, V)>>,
                               shown: string -> bool, item: (E, real) -> (string, C, C) -> V, key: string, i: nat)
    requires Follows(readings, published, shown, item) && i < |published|
    ensures key in Keys(published[i]) <==> shown(key) && key in readings[i].table && key in readings[i + 1].table
    ensures key in Keys(published[i]) ==>
              Lookup(published[i], key) ==
              item(readings[i + 1].extra, Elapsed(readings[i].at, readings[i + 1].at))
                (key, readings[i].table[key], readings[i + 1].table[key])
  {
    var before, now := Restrict(readings[i].table, shown), Restrict(readings[i + 1].table, shown);
    if key in before && key in now { assert key in Keys(published[i]); }
    if key in Keys(published[i]) {
      var j :| 0 <= j < |published[i]| && published[i][j].0 == key;
      assert key in before && key in now;
    }
  }

  /** An item is listed exactly when two consecutive readings hold it and the configured filter shows it. */
  lemma ListedByFilter<C, E, V>(shows: seq<string>, hides: seq<string>, defaults: seq<string>,
                                matches: (string, string) -> bool, readings: seq<Reading<C, E>>,
                                published: seq<seq<(string, V)>>, item: (E, real) -> (string, C, C) -> V,
                                key: string, i: nat)
    requires Follows(readings, published, ShownBy(FilterOf(shows, hides, defaults), matches), item)
    requires i < |published|
    ensures key in Keys(published[i]) <==>
            && key in readings[i].table && key in readings[i + 1].table
            && (shows == [] || AnyMatch(shows, matches, key))
            && (hides == [] ==> !AnyMatch(defaults, matches, key)) && !AnyMatch(hides, matches, key)
  {
    ListedExactly(readings, published, ShownBy(FilterOf(shows, hides, defaults), matches), item, key, i);
  }

  /** The rate published in cycle `i` is that of the counter between readings `i` and `i + 1`. */
  ghost predicate Measured<C, E, V>(readings: seq<Reading<C, E>>, published: seq<seq<(string, V)>>, key: string,
                                    count: C -> u64, rate: V -> real, i: nat)
    requires i + 1 < |readings| && i < |published|
    requires key in readings[i].table && key in readings[i + 1].table
  {
    && key in Keys(published[i])
    && rate(Lookup(published[i], key)) ==
       PerSec(SaturatingSub(count(readings[i + 1].table[key]), count(readings[i].table[key])),
              Elapsed(readings[i].at, readings[i + 1].at))
  }

  lemma PublishedRate<C, E, V>(
      readings: seq<Reading<C, E>>, published: seq<seq<(string, V)>>, shown: string -> bool,
      item: (E, real) -> (string, C, C) -> V, key: string, count: C -> u64, rate: V -> real, i: nat)
    requires Follows(readings, published, shown, item) && i < |published|
    requires shown(key) && Steady(readings, key) && IsRateOf(readings, item, key, count, rate, i)
    ensures Measured(readings, published, key, count, rate, i)
  {
    ListedExactly(readings, published, shown, item, key, i);
  }

  lemma RateAmount(amount: real, increment: real, interval: real, rate: real, delta: u64, earlier: nat, later: nat)
    requires earlier <= later && interval == (later - earlier) as real
    requires rate == PerSec(delta, Elapsed(earlier, later)) && amount == rate * interval
    requires increment == if earlier < later then 1000000000.0 * delta as real else 0.0
    ensures Within(amount, increment, interval)
  {
    if earlier < later { RateTimesNanos(delta, earlier, later); }
  }

  lemma AmountAt<C, E, V>(readings: seq<Reading<C, E>>, published: seq<seq<(string, V)>>, key: string,
                          rate: V -> real, i: nat)
    requires |readings| == |published| + 1 && ListedThroughout(published, key) && i < |published|
    ensures Amounts(readings, published, key, rate)[i] ==
            rate(Lookup(published[i], key)) * (readings[i + 1].at - readings[i].at) as real
  {
  }

  /** Increment and interval `i` of a trace, by its readings. */
  lemma StepAt<C, E>(readings: seq<Reading<C, E>>, key: string, count: C -> u64, i: nat)
    requires Steady(readings, key) && i + 1 < |readings|
    ensures var points, before, now := Trace(readings, key, count), readings[i], readings[i + 1];
            && Intervals(points)[i] == (now.at - before.at) as real
            && Increments(points)[i] ==
               if before.at < now.at
               then 1000000000.0 * SaturatingSub(count(now.table[key]), count(before.table[key])) as real
               else 0.0
  {
  }

  lemma MeasuredAmount<C, E, V>(readings: seq<Reading<C, E>>, published: seq<seq<(string, V)>>, key: string,
                                count: C -> u64, rate: V -> real, i: nat)
    requires |readings| == |published| + 1 && Steady(readings, key) && ListedThroughout(published, key)
    requires i < |published| && Measured(readings, published, key, count, rate, i)
    ensures var points := Trace(readings, key, count);
            Within(Amounts(readings, published, key, rate)[i], Increments(points)[i], Intervals(points)[i])
  {
    var before, now := readings[i], readings[i + 1];
    var points := Trace(readings, key, count);
    AmountAt(readings, published, key, rate, i);
    StepAt(readings, key, count, i);
    RateAmount(Amounts(readings, published, key, rate)[i], Increments(points)[i], Intervals(points)[i],
               rate(Lookup(published[i], key)),
               SaturatingSub(count(now.table[key]), count(before.table[key])), before.at, now.at);
  }

  lemma MeasuredAddsUp<C, E, V>(readings: seq<Reading<C, E>>, published: seq<seq<(string, V)>>, key: string,
                                count: C -> u64, rate: V -> real)
    requires |readings| == |published| + 1 && Steady(readings, key) && ListedThroughout(published, key)
    requires forall i :: 0 <= i < |published| ==> Measured(readings, published, key, count, rate, i)
    ensures var span := (readings[|published|].at - readings[0].at) as real;
            var points := Trace(readings, key, count);
            var rises := Rises(points) - Unmeasured(points);
            Within(Total(Amounts(readings, published, key, rate)), 1000000000.0 * rises as real, span)
  {
    var points := Trace(readings, key, count);
    var xs, ys, ts := Amounts(readings, published, key, rate), Increments(points), Intervals(points);
    forall i | 0 <= i < |xs| ensures Within(xs[i], ys[i], ts[i]) {
      MeasuredAmount(readings, published, key, count, rate, i);
    }
    TotalsWithin(xs, ys, ts);
    IncrementsAreRises(points);
    IntervalsAreSpan(points);
  }

  /**
   * An item present in every sample of a run is published in every cycle, and its rates, times their
   * intervals, add up to the measured rises of its counter, within the rounding of a rate over the run.
   */
  lemma RatesIntegrateToRises<C, E, V>(
      readings: seq<Reading<C, E>>, published: seq<seq<(string, V)>>, shown: string -> bool,
      item: (E, real) -> (string, C, C) -> V, key: string, count: C -> u64, rate: V -> real)
    requires published != [] && Follows(readings, published, shown, item)
    requires shown(key) && Steady(readings, key)
    requires forall i :: 0 <= i < |published| ==> IsRateOf(readings, item, key, count, rate, i)
    ensures ListedThroughout(published, key)
    ensures readings[0].at <= readings[|published|].at
    ensures var span := (readings[|published|].at - readings[0].at) as real;
            var points := Trace(readings, key, count);
            var rises := Rises(points) - Unmeasured(points);
            Within(Total(Amounts(readings, published, key, rate)), 1000000000.0 * rises as real, span)
  {
    forall i | 0 <= i < |published|
      ensures Measured(readings, published, key, count, rate, i) && key in Keys(published[i])
    {
      assert IsRateOf(readings, item, key, count, rate, i);
      PublishedRate(readings, published, shown, item, key, count, rate, i);
    }
    MeasuredAddsUp(readings, published, key, count, rate);
  }

  /** A counter that never falls: the rates give back its last value less its first, but for unmeasured rises. */
  lemma RatesIntegrateToNetChange<C, E, V>(
      readings: seq<Reading<C, E>>, published: seq<seq<(string, V)>>, shown: string -> bool,
      item: (E, real) -> (string, C, C) -> V, key: string, count: C -> u64, rate: V -> real)
    requires published != [] && Follows(readings, published, shown, item)
    requires shown(key) && Steady(readings, key)
    requires forall i :: 0 <= i < |published| ==> IsRateOf(readings, item, key, count, rate, i)
    requires NeverFalls(Trace(readings, key, count))
    ensures ListedThroughout(published, key)
    ensures var n := |published|;
            var span := (readings[n].at - readings[0].at) as real;
            var net := count(readings[n].table[key]) - count(readings[0].table[key])
                       - Unmeasured(Trace(readings, key, count));
            Within(Total(Amounts(readings, published, key, rate)), 1000000000.0 * net as real, span)
  {
    RatesIntegrateToRises(readings, published, shown, item, key, count, rate);
    RisesLessFalls(Trace(readings, key, count));
  }

  /** On the item of cycle `i`, `cumulative` reads the raw counter, if the item publishes it. */
  ghost predicate IsRawOf<C, E, V>(readings: seq<Reading<C, E>>, item: (E, real) -> (string, C, C) -> V, key: string,
                                   count: C -> u64, cumulative: V -> Option<u64>, i: nat)
    requires i + 1 < |readings|
    requires key in readings[i].table && key in readings[i + 1].table
  {
    var before, now := readings[i].table[key], readings[i + 1].table[key];
    var raw := cumulative(item(readings[i + 1].extra, Elapsed(readings[i].at, readings[i + 1].at))(key, before, now));
    raw.Some? ==> raw.value == count(now)
  }

  /**
   * A run accounts for a counter: the published rates give back its measured rises, and the raw
   * counter published last differs from the first sample by rises less falls.
   */
  ghost predicate Accounted<C, E, V>(readings: seq<Reading<C, E>>, published: seq<seq<(string, V)>>, key: string,
                                     count: C -> u64, rate: V -> real, cumulative: V -> Option<u64>)
    requires published != [] && |readings| == |published| + 1
    requires Steady(readings, key) && ListedThroughout(published, key)
  {
    var n, points := |published|, Trace(readings, key, count);
    var rises, span := Rises(points) - Unmeasured(points), (readings[n].at - readings[0].at) as real;
    var raw := cumulative(Lookup(published[n - 1], key));
    && Within(Total(Amounts(readings, published, key, rate)), 1000000000.0 * rises as real, span)
    && (raw.Some? ==> raw.value - count(readings[0].table[key]) == Rises(points) - Falls(points))
  }

  lemma LastRaw<C, E, V>(
      readings: seq<Reading<C, E>>, published: seq<seq<(string, V)>>, shown: string -> bool,
      item: (E, real) -> (string, C, C) -> V, key: string, count: C -> u64, cumulative: V -> Option<u64>)
    requires published != [] && Follows(readings, published, shown, item) && shown(key) && Steady(readings, key)
    requires ListedThroughout(published, key) && IsRawOf(readings, item, key, count, cumulative, |published| - 1)
    ensures var raw, points := cumulative(Lookup(published[|published| - 1], key)), Trace(readings, key, count);
            raw.Some? ==> raw.value - count(readings[0].table[key]) == Rises(points) - Falls(points)
  {
    ListedExactly(readings, published, shown, item, key, |published| - 1);
    RisesLessFalls(Trace(readings, key, count));
  }

  lemma RunAccounts<C, E, V>(
      readings: seq<Reading<C, E>>, published: seq<seq<(string, V)>>, shown: string -> bool,
      item: (E, real) -> (string, C, C) -> V, key: string, count: C -> u64, rate: V -> real,
      cumulative: V -> Option<u64>)
    requires published != [] && Follows(readings, published, shown, item) && shown(key) && Steady(readings, key)
    requires forall i :: 0 <= i < |published| ==> IsRateOf(readings, item, key, count, rate, i)
    requires IsRawOf(readings, item, key, count, cumulative, |published| - 1)
    ensures ListedThroughout(published, key)
    ensures Accounted(readings, published, key, count, rate, cumulative)
  {
    RatesIntegrateToRises(readings, published, shown, item, key, count, rate);
    LastRaw(readings, published, shown, item, key, count, cumulative);
  }
}
