/** The items of the diskio plugin on Linux (src/plugins/diskio.rs). */
module Diskio {
  import opened Wrappers
  import opened Strings
  import opened Filters
  import opened Rates

  const DEFAULT_HIDE: seq<string> := ["loop.*", "/dev/loop.*"]

  datatype Counters = Counters(readCount: u64, writeCount: u64, readBytes: u64, writeBytes: u64, readTime: u64,
                               writeTime: u64)

  datatype Item = Item(
    diskName: string, readCount: real, writeCount: real, readBytes: real, writeBytes: real, readTime: real,
    writeTime: real, readLatency: u64, writeLatency: u64, readCountCumul: u64, writeCountCumul: u64,
    readBytesCumul: u64, writeBytesCumul: u64, hidden: bool, alias: Option<string>)

  /** Whole milliseconds per operation, rounded down; 0 when there was no operation. */
  function Latency(time: u64, ops: u64): (mean: u64)
    ensures ops > 0 ==> ops * mean <= time < ops * (mean + 1)
    ensures ops == 0 ==> mean == 0
  {
    if ops == 0 then 0
    else
      Quotient(time, ops);
      time / ops
  }

  lemma QuotientBounds(a: nat, b: nat, q: nat, r: nat)
    requires a == b * q + r && r < b
    ensures b * q <= a < b * (q + 1) && q <= a
  {
    assert b * (q + 1) == b * q + b;
    assert (b - 1) * q == b * q - q;
    ScaledOrder(q, 1, b);
  }

  lemma Quotient(a: nat, b: nat)
    requires b > 0
    ensures b * (a / b) <= a < b * (a / b + 1) && a / b <= a
  {
    QuotientBounds(a, b, a / b, a % b);
  }

  lemma ScaledOrder(ops: nat, a: nat, b: nat)
    requires a <= b
    ensures ops * a <= ops * b
  {
  }

  function Describe(alias: map<string, string>, elapsed: real, name: string, prev: Counters, cur: Counters): Item {
    var readTime, writeTime :=
      SaturatingSub(cur.readTime, prev.readTime), SaturatingSub(cur.writeTime, prev.writeTime);
    var readOps, writeOps :=
      SaturatingSub(cur.readCount, prev.readCount), SaturatingSub(cur.writeCount, prev.writeCount);
    Item(
      diskName := name,
      readCount := PerSec(readOps, elapsed),
      writeCount := PerSec(writeOps, elapsed),
      readBytes := PerSec(SaturatingSub(cur.readBytes, prev.readBytes), elapsed),
      writeBytes := PerSec(SaturatingSub(cur.writeBytes, prev.writeBytes), elapsed),
      readTime := PerSec(readTime, elapsed),
      writeTime := PerSec(writeTime, elapsed),
      readLatency := Latency(readTime, readOps),
      writeLatency := Latency(writeTime, writeOps),
      readCountCumul := cur.readCount,
      writeCountCumul := cur.writeCount,
      readBytesCumul := cur.readBytes,
      writeBytesCumul := cur.writeBytes,
      hidden := false,
      alias := if name in alias then Some(alias[name]) else None)
  }

  function Describer(alias: map<string, string>): ((), real) -> (string, Counters, Counters) -> Item {
    (_: (), elapsed: real) =>
      (name: string, prev: Counters, cur: Counters) => Describe(alias, elapsed, name, prev, cur)
  }

  /** In any run, a listed disk carries its name and the alias configured for it, and is never hidden. */
  lemma PublishedFields(alias: map<string, string>, shown: string -> bool, name: string,
                        readings: seq<Reading<Counters, ()>>, published: seq<seq<(string, Item)>>, i: nat)
    requires Follows(readings, published, shown, Describer(alias)) && i < |published| && name in Keys(published[i])
    ensures var item := Lookup(published[i], name);
            && item.diskName == name && !item.hidden
            && (if name in alias then item.alias == Some(alias[name]) else item.alias.None?)
  {
    ListedExactly(readings, published, shown, Describer(alias), name, i);
  }

  /** With no pattern configured, a disk that either default pattern matches is never listed, and every other is. */
  lemma ListedByDefault(matches: (string, string) -> bool, alias: map<string, string>, name: string,
                        readings: seq<Reading<Counters, ()>>, published: seq<seq<(string, Item)>>, i: nat)
    requires Follows(readings, published, ShownBy(FilterOf([], [], DEFAULT_HIDE), matches), Describer(alias))
    requires i < |published| && name in readings[i].table && name in readings[i + 1].table
    ensures name in Keys(published[i]) <==> !matches("loop.*", name) && !matches("/dev/loop.*", name)
  {
    ListedByFilter([], [], DEFAULT_HIDE, matches, readings, published, Describer(alias), name, i);
    assert DEFAULT_HIDE[0] == "loop.*" && DEFAULT_HIDE[1] == "/dev/loop.*";
  }

  /** The counters that an item reports a rate of. */
  datatype Series = ReadCount | WriteCount | ReadBytes | WriteBytes | ReadTime | WriteTime

  function CountOf(series: Series, c: Counters): u64 {
    match series
    case ReadCount => c.readCount
    case WriteCount => c.writeCount
    case ReadBytes => c.readBytes
    case WriteBytes => c.writeBytes
    case ReadTime => c.readTime
    case WriteTime => c.writeTime
  }

  function RateOf(series: Series, i: Item): real {
    match series
    case ReadCount => i.readCount
    case WriteCount => i.writeCount
    case ReadBytes => i.readBytes
    case WriteBytes => i.writeBytes
    case ReadTime => i.readTime
    case WriteTime => i.writeTime
  }

  /** The raw counter that an item publishes beside the rate, if it does. */
  function CumulativeOf(series: Series, i: Item): Option<u64> {
    match series
    case ReadCount => Some(i.readCountCumul)
    case WriteCount => Some(i.writeCountCumul)
    case ReadBytes => Some(i.readBytesCumul)
    case WriteBytes => Some(i.writeBytesCumul)
    case _ => None
  }

  /** An item reports of each counter the rate and, if it does, the raw value. */
  lemma ReportsSeries(series: Series, alias: map<string, string>, extra: (), elapsed: real, name: string,
                      before: Counters, now: Counters)
    ensures var item := Describer(alias)(extra, elapsed)(name, before, now);
            && RateOf(series, item) == PerSec(SaturatingSub(CountOf(series, now), CountOf(series, before)), elapsed)
            && (CumulativeOf(series, item).Some? ==> CumulativeOf(series, item).value == CountOf(series, now))
  {
  }

  function CountBy(series: Series): Counters -> u64 {
    (c: Counters) => CountOf(series, c)
  }

  function RateBy(series: Series): Item -> real {
    (i: Item) => RateOf(series, i)
  }

  function CumulativeBy(series: Series): Item -> Option<u64> {
    (i: Item) => CumulativeOf(series, i)
  }

  lemma ReportedAt(series: Series, alias: map<string, string>, name: string,
                   readings: seq<Reading<Counters, ()>>, i: nat)
    requires i + 1 < |readings| && Steady(readings, name)
    ensures IsRateOf(readings, Describer(alias), name, CountBy(series), RateBy(series), i)
    ensures IsRawOf(readings, Describer(alias), name, CountBy(series), CumulativeBy(series), i)
  {
    ReportsSeries(series, alias, readings[i + 1].extra, Elapsed(readings[i].at, readings[i + 1].at), name,
                  readings[i].table[name], readings[i + 1].table[name]);
  }

  /** Every run accounts for every counter of an item that is there throughout. */
  lemma SeriesConserved(series: Series, alias: map<string, string>, shown: string -> bool, name: string,
                        readings: seq<Reading<Counters, ()>>, published: seq<seq<(string, Item)>>)
    requires published != [] && Follows(readings, published, shown, Describer(alias))
    requires shown(name) && Steady(readings, name)
    ensures ListedThroughout(published, name)
    ensures Accounted(readings, published, name, CountBy(series), RateBy(series), CumulativeBy(series))
  {
    forall i | 0 <= i < |published|
      ensures IsRateOf(readings, Describer(alias), name, CountBy(series), RateBy(series), i)
    {
      ReportedAt(series, alias, name, readings, i);
    }
    ReportedAt(series, alias, name, readings, |published| - 1);
    RunAccounts(readings, published, shown, Describer(alias), name, CountBy(series), RateBy(series),
                CumulativeBy(series));
  }

  /** A published latency accounts for the time of the operations in the interval, and is 0 without any. */
  lemma LatencyAccountsForTime(alias: map<string, string>, elapsed: real, name: string, prev: Counters, cur: Counters)
    ensures var item := Describe(alias, elapsed, name, prev, cur);
            var readOps := SaturatingSub(cur.readCount, prev.readCount);
            var writeOps := SaturatingSub(cur.writeCount, prev.writeCount);
            && (if readOps > 0 then
                  readOps * item.readLatency <= SaturatingSub(cur.readTime, prev.readTime)
                  < readOps * (item.readLatency + 1)
                else item.readLatency == 0)
            && (if writeOps > 0 then
                  writeOps * item.writeLatency <= SaturatingSub(cur.writeTime, prev.writeTime)
                  < writeOps * (item.writeLatency + 1)
                else item.writeLatency == 0)
  {
  }
}
