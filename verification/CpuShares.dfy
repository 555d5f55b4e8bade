/** CPU shares from two cumulative samples: `cpu_percents` (src/plugins/linux.rs:72-119). */
module CpuShares {
  import opened Rounding

  datatype CpuSample = CpuSample(
    user: nat, nice: nat, system: nat, idle: nat, iowait: nat, irq: nat, softirq: nat, steal: nat,
    guest: nat, guestNice: nat)

  datatype CpuPercents = CpuPercents(
    total: real, user: real, nice: real, system: real, idle: real, iowait: real, irq: real, steal: real, guest: real)

  /** `saturating_sub` of two counters. */
  function Delta(cur: nat, prev: nat): nat {
    if cur < prev then 0 else cur - prev
  }

  function Deltas(prev: CpuSample, cur: CpuSample): CpuSample {
    CpuSample(
      Delta(cur.user, prev.user), Delta(cur.nice, prev.nice), Delta(cur.system, prev.system),
      Delta(cur.idle, prev.idle), Delta(cur.iowait, prev.iowait), Delta(cur.irq, prev.irq),
      Delta(cur.softirq, prev.softirq), Delta(cur.steal, prev.steal),
      Delta(cur.guest, prev.guest), Delta(cur.guestNice, prev.guestNice))
  }

  function Total(d: CpuSample): nat {
    d.user + d.nice + d.system + d.idle + d.iowait + d.irq + d.softirq + d.steal
  }

  /** The share of `x` jiffies in `total`, in percent, before rounding. */
  function Share(x: int, total: int): real
    requires total > 0
  {
    x as real / total as real * 100.0
  }

  function Excess(x: nat, y: nat): nat {
    if x < y then 0 else x - y
  }

  const ZERO := CpuPercents(0.0, 0.0, 0.0, 0.0, 0.0, 0.0, 0.0, 0.0, 0.0)

  /** The shares before rounding. */
  function Exact(d: CpuSample): CpuPercents
    requires Total(d) > 0
  {
    var t := Total(d);
    CpuPercents(
      Share(t - d.idle, t), Share(Excess(d.user, d.guest), t), Share(Excess(d.nice, d.guestNice), t),
      Share(d.system, t), Share(d.idle, t), Share(d.iowait, t), Share(d.irq, t), Share(d.steal, t), Share(d.guest, t))
  }

  function RoundAll(p: CpuPercents): CpuPercents {
    CpuPercents(
      Round1(p.total), Round1(p.user), Round1(p.nice), Round1(p.system), Round1(p.idle), Round1(p.iowait),
      Round1(p.irq), Round1(p.steal), Round1(p.guest))
  }

  function Percents(prev: CpuSample, cur: CpuSample): CpuPercents {
    var d := Deltas(prev, cur);
    if Total(d) == 0 then ZERO else RoundAll(Exact(d))
  }

  function Min(x: nat, y: nat): nat {
    if x < y then x else y
  }

  lemma ShareAdds(x: int, y: int, t: int)
    requires t > 0
    ensures Share(x, t) + Share(y, t) == Share(x + y, t)
  {
    assert x as real / t as real + y as real / t as real == (x + y) as real / t as real;
  }

  lemma ShareOfAll(t: int)
    requires t > 0
    ensures Share(t, t) == 100.0
  {
    SelfQuotient(t as real);
  }

  lemma SelfQuotient(u: real)
    requires u > 0.0
    ensures u / u == 1.0
  {
  }

  lemma ShareMonotone(x: int, y: int, t: int)
    requires t > 0 && x <= y
    ensures Share(x, t) <= Share(y, t)
  {
    var u := t as real;
    assert y as real / u - x as real / u == (y - x) as real / u >= 0.0;
  }

  /**
   * Before rounding, busy and idle make up exactly 100, and so do the reported categories with the
   * three that are not reported: softirq and the guest time inside user and nice.
   */
  lemma SharesPartition(d: CpuSample)
    requires Total(d) > 0
    ensures var p, t := Exact(d), Total(d);
            && p.total + p.idle == 100.0
            && p.user + p.nice + p.system + p.idle + p.iowait + p.irq + p.steal
               + Share(d.softirq, t) + Share(Min(d.guest, d.user), t) + Share(Min(d.guestNice, d.nice), t) == 100.0
  {
    var t := Total(d);
    var u, n := Excess(d.user, d.guest), Excess(d.nice, d.guestNice);
    var gu, gn := Min(d.guest, d.user), Min(d.guestNice, d.nice);
    ShareAdds(t - d.idle, d.idle, t);
    ShareOfAll(t);
    ShareAdds(u, n, t);
    ShareAdds(u + n, d.system, t);
    ShareAdds(u + n + d.system, d.idle, t);
    ShareAdds(u + n + d.system + d.idle, d.iowait, t);
    ShareAdds(u + n + d.system + d.idle + d.iowait, d.irq, t);
    ShareAdds(u + n + d.system + d.idle + d.iowait + d.irq, d.steal, t);
    ShareAdds(u + n + d.system + d.idle + d.iowait + d.irq + d.steal, d.softirq, t);
    ShareAdds(u + n + d.system + d.idle + d.iowait + d.irq + d.steal + d.softirq, gu, t);
    ShareAdds(u + n + d.system + d.idle + d.iowait + d.irq + d.steal + d.softirq + gu, gn, t);
  }

  /** `share` is `x` parts of `total` in percent, to within half a tenth. */
  predicate Near(share: real, x: int, total: int) {
    Bracketed(share, 100.0 * x as real, total as real)
  }

  predicate Bracketed(share: real, parts: real, total: real) {
    -0.05 * total <= share * total - parts <= 0.05 * total
  }

  lemma RoundedShare(x: int, t: int)
    requires t > 0
    ensures Near(Round1(Share(x, t)), x, t)
  {
    ShareTimesTotal(x as real, t as real);
    Round1Close(Share(x, t));
    BracketedBy(Round1(Share(x, t)), Share(x, t), 100.0 * x as real, t as real);
  }

  lemma BracketedBy(rounded: real, share: real, parts: real, total: real)
    requires total > 0.0 && share * total == parts && -0.05 <= rounded - share <= 0.05
    ensures Bracketed(rounded, parts, total)
  {
    Distributes(rounded, share, total);
    ScaledOrder(rounded - share, 0.05, total);
    ScaledOrder(share - rounded, 0.05, total);
  }

  lemma Distributes(a: real, b: real, u: real)
    ensures (a - b) * u == a * u - b * u && (b - a) * u == b * u - a * u
  {
  }

  lemma ShareTimesTotal(x: real, u: real)
    requires u > 0.0
    ensures x / u * 100.0 * u == 100.0 * x
  {
  }

  lemma ScaledOrder(a: real, b: real, u: real)
    requires u > 0.0 && a <= b
    ensures a * u <= b * u
  {
    ScaledSign(a - b, u);
  }

  /** Each reported share is that of its own category, guest time taken out of user and nice. */
  lemma SharesAreTheirOwn(prev: CpuSample, cur: CpuSample)
    requires Total(Deltas(prev, cur)) > 0
    ensures var d, p := Deltas(prev, cur), Percents(prev, cur);
            var t := Total(d);
            && Near(p.user, d.user - Min(d.guest, d.user), t) && Near(p.nice, d.nice - Min(d.guestNice, d.nice), t)
            && Near(p.system, d.system, t) && Near(p.idle, d.idle, t) && Near(p.iowait, d.iowait, t)
            && Near(p.irq, d.irq, t) && Near(p.steal, d.steal, t) && Near(p.guest, d.guest, t)
            && Near(p.total, d.user + d.nice + d.system + d.iowait + d.irq + d.softirq + d.steal, t)
  {
    var d := Deltas(prev, cur);
    var t := Total(d);
    RoundedShare(t - d.idle, t);
    RoundedShare(Excess(d.user, d.guest), t);
    RoundedShare(Excess(d.nice, d.guestNice), t);
    RoundedShare(d.system, t);
    RoundedShare(d.idle, t);
    RoundedShare(d.iowait, t);
    RoundedShare(d.irq, t);
    RoundedShare(d.steal, t);
    RoundedShare(d.guest, t);
  }

  predicate InRange(x: real) {
    0.0 <= x <= 100.0
  }

  /** All shares but `guest` lie in 0..100, and `guest` is not negative. */
  predicate AllInRange(p: CpuPercents) {
    && InRange(p.total) && InRange(p.user) && InRange(p.nice) && InRange(p.system) && InRange(p.idle)
    && InRange(p.iowait) && InRange(p.irq) && InRange(p.steal) && p.guest >= 0.0
  }

  lemma ShareInRange(x: int, t: int)
    requires t > 0 && 0 <= x <= t
    ensures InRange(Share(x, t))
  {
    ShareMonotone(0, x, t);
    ShareMonotone(x, t, t);
    ShareOfAll(t);
  }

  lemma ExactInRange(d: CpuSample)
    requires Total(d) > 0
    ensures AllInRange(Exact(d))
  {
    var t := Total(d);
    ShareInRange(t - d.idle, t);
    ShareInRange(Excess(d.user, d.guest), t);
    ShareInRange(Excess(d.nice, d.guestNice), t);
    ShareInRange(d.system, t);
    ShareInRange(d.idle, t);
    ShareInRange(d.iowait, t);
    ShareInRange(d.irq, t);
    ShareInRange(d.steal, t);
    ShareMonotone(0, d.guest, t);
  }

  lemma Round1InRange(x: real)
    ensures InRange(x) ==> InRange(Round1(x))
    ensures x >= 0.0 ==> Round1(x) >= 0.0
  {
    Round1Fixes(0);
    Round1Fixes(1000);
    if x >= 0.0 { Round1Monotone(0.0, x); }
    if x <= 100.0 { Round1Monotone(x, 100.0); }
  }

  lemma RoundAllInRange(p: CpuPercents)
    requires AllInRange(p)
    ensures AllInRange(RoundAll(p))
  {
    Round1InRange(p.total);
    Round1InRange(p.user);
    Round1InRange(p.nice);
    Round1InRange(p.system);
    Round1InRange(p.idle);
    Round1InRange(p.iowait);
    Round1InRange(p.irq);
    Round1InRange(p.steal);
    Round1InRange(p.guest);
  }

  /** Every reported share but `guest` lies in 0..100, whatever the samples. */
  lemma PercentsInRange(prev: CpuSample, cur: CpuSample)
    ensures AllInRange(Percents(prev, cur))
  {
    var d := Deltas(prev, cur);
    if Total(d) > 0 {
      ExactInRange(d);
      RoundAllInRange(Exact(d));
    }
  }

  /**
   * `guest` is the one share that may leave the range: it stays within 100 exactly when the guest
   * delta exceeds the total by less than one part in two thousand.
   */
  lemma GuestInRangeExactly(prev: CpuSample, cur: CpuSample)
    ensures var d := Deltas(prev, cur);
            InRange(Percents(prev, cur).guest) <==> Total(d) == 0 || 2000 * d.guest < 2001 * Total(d)
  {
    var d := Deltas(prev, cur);
    var t := Total(d);
    PercentsInRange(prev, cur);
    if t > 0 {
      var x := Share(d.guest, t);
      assert x * 10.0 < 1000.5 <==> 2000 * d.guest < 2001 * t by { GuestBound(d.guest, t); }
      ShareMonotone(0, d.guest, t);
      var f := (x * 10.0 + 0.5).Floor;
      assert f as real <= x * 10.0 + 0.5 < f as real + 1.0;
    }
  }

  lemma GuestBound(g: nat, t: nat)
    requires t > 0
    ensures Share(g, t) * 10.0 < 1000.5 <==> 2000 * g < 2001 * t
  {
    var q := g as real / t as real;
    assert q * t as real == g as real;
    assert (1.0005 - q) * t as real == 1.0005 * t as real - g as real;
    ScaledSign(1.0005 - q, t as real);
  }

  /** In particular when the guest time is part of the user time, as the kernel counts it. */
  lemma GuestWithinUser(prev: CpuSample, cur: CpuSample)
    requires Deltas(prev, cur).guest <= Deltas(prev, cur).user
    ensures InRange(Percents(prev, cur).guest)
  {
    GuestInRangeExactly(prev, cur);
  }

  lemma RoundedPercent(x: int, t: int, percent: int)
    requires t > 0 && 100 * x == percent * t
    ensures Round1(Share(x, t)) == percent as real
  {
    ShareTimesTotal(x as real, t as real);
    assert (Share(x, t) - percent as real) * t as real == 0.0;
    ScaledSign(Share(x, t) - percent as real, t as real);
    ScaledSign(percent as real - Share(x, t), t as real);
    Round1Fixes(10 * percent);
  }

  /** A user counter that runs back from 500 to 100 while 100 jiffies of guest time and 10 of idle pass. */
  lemma SamplesAroundReset() returns (prev: CpuSample, cur: CpuSample)
    ensures prev.user == 500 && cur.user == 100
    ensures Deltas(prev, cur).guest == 100 && Total(Deltas(prev, cur)) == 10
  {
    prev := CpuSample(500, 0, 0, 0, 0, 0, 0, 0, 0, 0);
    cur := CpuSample(100, 0, 0, 10, 0, 0, 0, 0, 100, 0);
  }

  /** There the guest share is reported as 1000 percent. */
  lemma GuestExceedsAfterReset() returns (prev: CpuSample, cur: CpuSample)
    ensures prev.user == 500 && cur.user == 100
    ensures Percents(prev, cur).guest == 1000.0
  {
    prev, cur := SamplesAroundReset();
    RoundedPercent(100, 10, 1000);
  }

  /** After rounding, busy and idle still make up 100 to within a tenth. */
  lemma BusyAndIdle(prev: CpuSample, cur: CpuSample)
    requires Total(Deltas(prev, cur)) > 0
    ensures var p := Percents(prev, cur);
            99.9 <= p.total + p.idle <= 100.1
  {
    var d := Deltas(prev, cur);
    SharesPartition(d);
    Round1Close(Exact(d).total);
    Round1Close(Exact(d).idle);
  }

  /** No counted category has moved on between two samples. */
  predicate AtRest(prev: CpuSample, cur: CpuSample) {
    && cur.user <= prev.user && cur.nice <= prev.nice && cur.system <= prev.system && cur.idle <= prev.idle
    && cur.iowait <= prev.iowait && cur.irq <= prev.irq && cur.softirq <= prev.softirq && cur.steal <= prev.steal
  }

  lemma RestsExactly(prev: CpuSample, cur: CpuSample)
    ensures AtRest(prev, cur) <==> Total(Deltas(prev, cur)) == 0
  {
  }

  lemma NoTotalNoShares(prev: CpuSample, cur: CpuSample)
    requires Total(Deltas(prev, cur)) == 0
    ensures Percents(prev, cur) == CpuPercents(0.0, 0.0, 0.0, 0.0, 0.0, 0.0, 0.0, 0.0, 0.0)
  {
  }

  /** Busy and idle both read 0 exactly when no counted category has moved on, and then every share does. */
  lemma ZeroExactlyAtRest(prev: CpuSample, cur: CpuSample)
    ensures var p := Percents(prev, cur);
            && (p.total == 0.0 && p.idle == 0.0 <==> AtRest(prev, cur))
            && (AtRest(prev, cur) ==>
                  && p.user == 0.0 && p.nice == 0.0 && p.system == 0.0 && p.iowait == 0.0 && p.irq == 0.0
                  && p.steal == 0.0 && p.guest == 0.0)
  {
    RestsExactly(prev, cur);
    if AtRest(prev, cur) {
      NoTotalNoShares(prev, cur);
    } else {
      BusyAndIdle(prev, cur);
    }
  }
}
