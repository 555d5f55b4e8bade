/** The items of the network plugin (src/plugins/network.rs). */
module Network {
  import opened Wrappers
  import opened Strings
  import opened Filters
  import opened Rates

  const DEFAULT_HIDE: seq<string> := ["docker.*", "lo"]

  datatype Pair = Pair(inward: u64, outward: u64)

  datatype Counters = Counters(rx: u64, tx: u64, errIn: u64, errOut: u64, drops: Option<Pair>)

  datatype IfaceMeta = IfaceMeta(isUp: Option<bool>, speed: Option<u64>, bytesSpeedRatePerSec: Option<u64>)

  datatype Item = Item(
    interfaceName: string, bytesRecv: real, bytesSent: real, bytesAll: real, bytesRecvCumul: u64, bytesSentCumul: u64,
    errorsIn: real, errorsOut: real, hidden: bool, droppedIn: Option<real>, droppedOut: Option<real>,
    alias: Option<string>, isUp: Option<bool>, speed: Option<u64>, bytesSpeedRatePerSec: Option<u64>)

  function Describe(meta: map<string, IfaceMeta>, alias: map<string, string>, elapsed: real, name: string,
                    prev: Counters, cur: Counters): Item {
    var recv, sent := SaturatingSub(cur.rx, prev.rx), SaturatingSub(cur.tx, prev.tx);
    var drops := cur.drops.Some? && prev.drops.Some?;
    var status := if name in meta then meta[name] else IfaceMeta(None, None, None);
    Item(
      interfaceName := name,
      bytesRecv := PerSec(recv, elapsed),
      bytesSent := PerSec(sent, elapsed),
      bytesAll := PerSec(SaturatingAdd(recv, sent), elapsed),
      bytesRecvCumul := cur.rx,
      bytesSentCumul := cur.tx,
      errorsIn := PerSec(SaturatingSub(cur.errIn, prev.errIn), elapsed),
      errorsOut := PerSec(SaturatingSub(cur.errOut, prev.errOut), elapsed),
      hidden := false,
      droppedIn :=
        if drops then Some(PerSec(SaturatingSub(cur.drops.value.inward, prev.drops.value.inward), elapsed)) else None,
      droppedOut :=
        if drops then Some(PerSec(SaturatingSub(cur.drops.value.outward, prev.drops.value.outward), elapsed)) else None,
      alias := if name in alias then Some(alias[name]) else None,
      isUp := status.isUp,
      speed := status.speed,
      bytesSpeedRatePerSec := status.bytesSpeedRatePerSec)
  }

  function Describer(alias: map<string, string>):
    (map<string, IfaceMeta>, real) -> (string, Counters, Counters) -> Item
  {
    (meta: map<string, IfaceMeta>, elapsed: real) =>
      (name: string, prev: Counters, cur: Counters) => Describe(meta, alias, elapsed, name, prev, cur)
  }

  /**
   * The total rate of an interface is the sum of its two rates, up to rounding and less the rate of what
   * their differences exceed 64 bits by.
   */
  lemma TotalIsSum(meta: map<string, IfaceMeta>, alias: map<string, string>, elapsed: real, name: string,
                   prev: Counters, cur: Counters)
    requires elapsed > 0.0
    ensures var item := Describe(meta, alias, elapsed, name, prev, cur);
            var recv, sent := SaturatingSub(cur.rx, prev.rx), SaturatingSub(cur.tx, prev.tx);
            var lost := Overflow(recv, sent) as real / elapsed;
            && -0.15 <= item.bytesAll + lost - (item.bytesRecv + item.bytesSent) <= 0.15
            && (recv + sent > U64_MAX ==> item.bytesAll == PerSec(U64_MAX, elapsed))
  {
    RatesAdd(SaturatingSub(cur.rx, prev.rx), SaturatingSub(cur.tx, prev.tx), elapsed);
  }

  /**
   * In any run, a listed interface carries drops exactly when both its samples expose them, the alias
   * configured for it and nothing else, and the status gathered with the later sample.
   */
  lemma PublishedFields(alias: map<string, string>, shown: string -> bool, name: string,
                        readings: seq<Reading<Counters, map<string, IfaceMeta>>>,
                        published: seq<seq<(string, Item)>>, i: nat)
    requires Follows(readings, published, shown, Describer(alias)) && i < |published| && name in Keys(published[i])
    ensures name in readings[i].table && name in readings[i + 1].table
    ensures var item, meta := Lookup(published[i], name), readings[i + 1].extra;
            var before, now := readings[i].table[name], readings[i + 1].table[name];
            && item.interfaceName == name && !item.hidden
            && (item.droppedIn.Some? <==> item.droppedOut.Some?)
            && (item.droppedIn.Some? <==> before.drops.Some? && now.drops.Some?)
            && (if name in alias then item.alias == Some(alias[name]) else item.alias.None?)
            && (if name in meta then IfaceMeta(item.isUp, item.speed, item.bytesSpeedRatePerSec) == meta[name]
                else item.isUp.None? && item.speed.None? && item.bytesSpeedRatePerSec.None?)
  {
    ListedExactly(readings, published, shown, Describer(alias), name, i);
  }

  /**
   * With no pattern configured, an interface that either default pattern matches is never listed, and
   * every other is.
   */
  lemma ListedByDefault(matches: (string, string) -> bool, alias: map<string, string>, name: string,
                        readings: seq<Reading<Counters, map<string, IfaceMeta>>>, published: seq<seq<(string, Item)>>,
                          i: nat)
    requires Follows(readings, published, ShownBy(FilterOf([], [], DEFAULT_HIDE), matches), Describer(alias))
    requires i < |published| && name in readings[i].table && name in readings[i + 1].table
    ensures name in Keys(published[i]) <==> !matches("docker.*", name) && !matches("lo", name)
  {
    ListedByFilter([], [], DEFAULT_HIDE, matches, readings, published, Describer(alias), name, i);
    assert DEFAULT_HIDE[0] == "docker.*" && DEFAULT_HIDE[1] == "lo";
  }

  /** The counters that an item reports a rate of. */
  datatype Series = Received | Sent | ErrorsIn | ErrorsOut | DroppedIn | DroppedOut

  predicate Exposed(series: Series, c: Counters) {
    series.DroppedIn? || series.DroppedOut? ==> c.drops.Some?
  }

  function CountOf(series: Series, c: Counters): u64 {
    match series
    case Received => c.rx
    case Sent => c.tx
    case ErrorsIn => c.errIn
    case ErrorsOut => c.errOut
    case DroppedIn => if c.drops.Some? then c.drops.value.inward else 0
    case DroppedOut => if c.drops.Some? then c.drops.value.outward else 0
  }

  function RateOf(series: Series, i: Item): real {
    match series
    case Received => i.bytesRecv
    case Sent => i.bytesSent
    case ErrorsIn => i.errorsIn
    case ErrorsOut => i.errorsOut
    case DroppedIn => if i.droppedIn.Some? then i.droppedIn.value else 0.0
    case DroppedOut => if i.droppedOut.Some? then i.droppedOut.value else 0.0
  }

  /** The raw counter that an item publishes beside the rate, if it does. */
  function CumulativeOf(series: Series, i: Item): Option<u64> {
    match series
    case Received => Some(i.bytesRecvCumul)
    case Sent => Some(i.bytesSentCumul)
    case _ => None
  }

  /** An item reports of each counter the rate and, if it does, the raw value. */
  lemma ReportsSeries(series: Series, alias: map<string, string>, meta: map<string, IfaceMeta>, elapsed: real,
                      name: string,
                      before: Counters, now: Counters)
    requires Exposed(series, before) && Exposed(series, now)
    ensures var item := Describer(alias)(meta, elapsed)(name, before, now);
            && RateOf(series, item) == PerSec(SaturatingSub(CountOf(series, now), CountOf(series, before)), elapsed)
            && (CumulativeOf(series, item).Some? ==> CumulativeOf(series, item).value == CountOf(series, now))
  {
  }

  function CountBy(series: Series): Counters -> u64 {
    (c: Counters) => CountOf(series, c)
  }

  function RateBy(series: Series): Item -> real {
    (i: Item) => RateOf(series, i)
  }

  function CumulativeBy(series: Series): Item -> Option<u64> {
    (i: Item) => CumulativeOf(series, i)
  }

  lemma ReportedAt(series: Series, alias: map<string, string>, name: string,
                   readings: seq<Reading<Counters, map<string, IfaceMeta>>>, i: nat)
    requires i + 1 < |readings| && Steady(readings, name)
    requires forall j :: 0 <= j < |readings| ==> Exposed(series, readings[j].table[name])
    ensures IsRateOf(readings, Describer(alias), name, CountBy(series), RateBy(series), i)
    ensures IsRawOf(readings, Describer(alias), name, CountBy(series), CumulativeBy(series), i)
  {
    ReportsSeries(series, alias, readings[i + 1].extra, Elapsed(readings[i].at, readings[i + 1].at), name,
                  readings[i].table[name], readings[i + 1].table[name]);
  }

  /** Every run accounts for every counter of an item that is there throughout. */
  lemma SeriesConserved(series: Series, alias: map<string, string>, shown: string -> bool, name: string,
                        readings: seq<Reading<Counters, map<string, IfaceMeta>>>, published: seq<seq<(string, Item)>>)
    requires published != [] && Follows(readings, published, shown, Describer(alias))
    requires shown(name) && Steady(readings, name)
    requires forall j :: 0 <= j < |readings| ==> Exposed(series, readings[j].table[name])
    ensures ListedThroughout(published, name)
    ensures Accounted(readings, published, name, CountBy(series), RateBy(series), CumulativeBy(series))
  {
    forall i | 0 <= i < |published|
      ensures IsRateOf(readings, Describer(alias), name, CountBy(series), RateBy(series), i)
    {
      ReportedAt(series, alias, name, readings, i);
    }
    ReportedAt(series, alias, name, readings, |published| - 1);
    RunAccounts(readings, published, shown, Describer(alias), name, CountBy(series), RateBy(series),
                CumulativeBy(series));
  }
}
