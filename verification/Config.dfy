/** The parsed configuration and its startup validation (src/config.rs). */
module Configs {
  import opened Wrappers
  import opened Plugins

  /** A parsed floating-point number. Finite ones are exact reals here. */
  datatype Float = Finite(value: real) | Infinite(negative: bool) | NaN

  /** IEEE `<=`. */
  predicate AtMost(a: Float, b: Float) {
    match (a, b)
    case (Finite(x), Finite(y)) => x <= y
    case (Infinite(n), Infinite(m)) => n || !m
    case (Infinite(n), Finite(_)) => n
    case (Finite(_), Infinite(m)) => !m
    case (NaN, _) => false
    case (_, NaN) => false
  }

  datatype Thresholds = Thresholds(careful: Option<Float>, warning: Option<Float>, critical: Option<Float>)

  datatype PluginConfig = PluginConfig(
    enabled: Option<bool>,
    refresh: Option<Float>,
    show: seq<string>,
    hide: seq<string>,
    thresholds: map<string, Thresholds>,
    thresholdsByItem: map<string, map<string, Thresholds>>,
    minDuration: Option<Float>)

  datatype Config = Config(
    refresh: Float,
    idleCycles: nat,
    guardTimeout: Float,
    plugins: map<string, PluginConfig>,
    historySize: nat,
    minDuration: Float,
    useBuiltinDefaults: bool)

  // ---------------------------------------------------------------------
  // Accessors
  // ---------------------------------------------------------------------

  const NANOS_PER_SECOND: real := 1000000000.0

  /** `Duration::from_secs_f64`, to the nearest nanosecond. Only validated values reach it. */
  function Nanos(f: Float): nat {
    if f.Finite? && f.value >= 0.0 then (f.value * NANOS_PER_SECOND + 0.5).Floor else 0
  }

  function Section(c: Config, id: PluginId): Option<PluginConfig> {
    if Name(id) in c.plugins then Some(c.plugins[Name(id)]) else None
  }

  function RefreshSetting(c: Config, id: PluginId): Float {
    match Section(c, id)
    case Some(p) => if p.refresh.Some? then p.refresh.value else c.refresh
    case None => c.refresh
  }

  function RefreshFor(c: Config, id: PluginId): nat {
    Nanos(RefreshSetting(c, id))
  }

  function IdleTimeoutFor(c: Config, id: PluginId): nat {
    RefreshFor(c, id) * c.idleCycles
  }

  function GuardTimeout(c: Config): nat {
    Nanos(c.guardTimeout)
  }

  predicate PluginEnabled(c: Config, id: PluginId) {
    var p := Section(c, id);
    p.Some? && p.value.enabled.Some? ==> p.value.enabled.value
  }

  /** Glances' built-in ladder for `field`, if it has one. */
  function BuiltinThresholds(id: PluginId, field: string): Option<Thresholds> {
    match Find(AlertFields(id), field)
    case None => None
    case Some(f) =>
      if f.defaults.None? then None
      else
        var (careful, warning, critical) := f.defaults.value;
        Some(Thresholds(Some(Finite(careful)), Some(Finite(warning)), Some(Finite(critical))))
  }

  // ---------------------------------------------------------------------
  // Ladders
  // ---------------------------------------------------------------------

  datatype LadderFault = NotFinite | OutOfOrder

  predicate FiniteLimit(v: Option<Float>) {
    v.Some? ==> v.value.Finite?
  }

  predicate OrderedPair(lo: Option<Float>, hi: Option<Float>) {
    lo.Some? && hi.Some? ==> AtMost(lo.value, hi.value)
  }

  function CheckThresholdOrder(t: Thresholds): Option<LadderFault> {
    if !(FiniteLimit(t.careful) && FiniteLimit(t.warning) && FiniteLimit(t.critical)) then Some(NotFinite)
    else if OrderedPair(t.careful, t.warning) && OrderedPair(t.warning, t.critical)
            && OrderedPair(t.careful, t.critical) then None
    else Some(OutOfOrder)
  }

  /** A ladder whose limits are finite and rise, whichever of them are set. */
  predicate SoundLadder(t: Thresholds) {
    CheckThresholdOrder(t).None?
  }

  /** An override laid over the limits below it, limit by limit. */
  function Merge(specific: Thresholds, global: Option<Thresholds>): Thresholds {
    Thresholds(
      if specific.careful.Some? || global.None? then specific.careful else global.value.careful,
      if specific.warning.Some? || global.None? then specific.warning else global.value.warning,
      if specific.critical.Some? || global.None? then specific.critical else global.value.critical)
  }

  /** The limits that startup validation lays an override of section `name` over. */
  function GlobalForSection(c: Config, name: string, field: string): Option<Thresholds>
    requires name in c.plugins
  {
    if field in c.plugins[name].thresholds then Some(c.plugins[name].thresholds[field])
    else if c.useBuiltinDefaults && ParseName(name).Some? then BuiltinThresholds(ParseName(name).value, field)
    else None
  }

  // ---------------------------------------------------------------------
  // Validation
  // ---------------------------------------------------------------------

  datatype ConfigError =
    | BadRefresh
    | BadGuardTimeout
    | BadIdleCycles
    | UnknownPlugin(name: string)
    | BadPluginRefresh(name: string)
    | BadPattern(name: string, pattern: string)
    | BadLadder(name: string, item: Option<string>, field: string, merged: bool, fault: LadderFault)
    | BadPluginMinDuration(name: string)
    | BadHistorySize
    | BadMinDuration

  predicate Positive(f: Float) {
    f.Finite? && f.value > 0.0
  }

  predicate NonNegative(f: Float) {
    f.Finite? && f.value >= 0.0
  }

  predicate PatternsOk(ps: seq<string>, regexOk: string -> bool) {
    forall p <- ps :: regexOk(p)
  }

  predicate GlobalLaddersSound(p: PluginConfig) {
    forall field <- p.thresholds.Keys :: SoundLadder(p.thresholds[field])
  }

  predicate OverrideSound(c: Config, name: string, item: string, field: string)
    requires name in c.plugins && item in c.plugins[name].thresholdsByItem
    requires field in c.plugins[name].thresholdsByItem[item]
  {
    var specific := c.plugins[name].thresholdsByItem[item][field];
    SoundLadder(specific) && SoundLadder(Merge(specific, GlobalForSection(c, name, field)))
  }

  predicate ItemSound(c: Config, name: string, item: string)
    requires name in c.plugins && item in c.plugins[name].thresholdsByItem
  {
    forall field <- c.plugins[name].thresholdsByItem[item].Keys :: OverrideSound(c, name, item, field)
  }

  predicate LaddersSound(c: Config, name: string)
    requires name in c.plugins
  {
    && GlobalLaddersSound(c.plugins[name])
    && forall item <- c.plugins[name].thresholdsByItem.Keys :: ItemSound(c, name, item)
  }

  predicate SectionAccepted(c: Config, name: string, regexOk: string -> bool)
    requires name in c.plugins
  {
    var p := c.plugins[name];
    && ParseName(name).Some?
    && (p.refresh.Some? ==> Positive(p.refresh.value))
    && PatternsOk(p.show, regexOk) && PatternsOk(p.hide, regexOk)
    && LaddersSound(c, name)
    && (p.minDuration.Some? ==> NonNegative(p.minDuration.value))
  }

  /** What a valid configuration is. */
  predicate Accepted(c: Config, regexOk: string -> bool) {
    && Positive(c.refresh) && Positive(c.guardTimeout) && c.idleCycles >= 1
    && (forall name <- c.plugins.Keys :: SectionAccepted(c, name, regexOk))
    && c.historySize >= 1 && NonNegative(c.minDuration)
  }

  /** The fault that `e` names is really in `c`. */
  predicate FaultPresent(c: Config, regexOk: string -> bool, e: ConfigError) {
    match e
    case BadRefresh => !Positive(c.refresh)
    case BadGuardTimeout => !Positive(c.guardTimeout)
    case BadIdleCycles => c.idleCycles == 0
    case UnknownPlugin(name) => name in c.plugins && ParseName(name).None?
    case BadPluginRefresh(name) =>
      name in c.plugins && c.plugins[name].refresh.Some? && !Positive(c.plugins[name].refresh.value)
    case BadPattern(name, pattern) =>
      name in c.plugins && pattern in c.plugins[name].show + c.plugins[name].hide && !regexOk(pattern)
    case BadLadder(name, None, field, merged, fault) =>
      && !merged && name in c.plugins && field in c.plugins[name].thresholds
      && CheckThresholdOrder(c.plugins[name].thresholds[field]) == Some(fault)
    case BadLadder(name, Some(item), field, merged, fault) =>
      && name in c.plugins && item in c.plugins[name].thresholdsByItem
      && field in c.plugins[name].thresholdsByItem[item]
      && var specific := c.plugins[name].thresholdsByItem[item][field];
         var checked := if merged then Merge(specific, GlobalForSection(c, name, field)) else specific;
         CheckThresholdOrder(checked) == Some(fault)
    case BadPluginMinDuration(name) =>
      name in c.plugins && c.plugins[name].minDuration.Some? && !NonNegative(c.plugins[name].minDuration.value)
    case BadHistorySize => c.historySize == 0
    case BadMinDuration => !NonNegative(c.minDuration)
  }

  /** The first invalid pattern of a list, if any. */
  method CheckPatterns(ps: seq<string>, regexOk: string -> bool) returns (bad: Option<string>)
    ensures bad.None? <==> PatternsOk(ps, regexOk)
    ensures bad.Some? ==> bad.value in ps && !regexOk(bad.value)
  {
    for i := 0 to |ps|
      invariant forall j :: 0 <= j < i ==> regexOk(ps[j])
    {
      if !regexOk(ps[i]) { return Some(ps[i]); }
    }
    return None;
  }

  method CheckGlobals(c: Config, name: string, regexOk: string -> bool) returns (bad: Option<ConfigError>)
    requires name in c.plugins
    ensures bad.None? <==> GlobalLaddersSound(c.plugins[name])
    ensures bad.Some? ==> FaultPresent(c, regexOk, bad.value)
  {
    var t := c.plugins[name].thresholds;
    var left := t.Keys;
    while left != {}
      invariant left <= t.Keys
      invariant forall field <- t.Keys - left :: SoundLadder(t[field])
      decreases left
    {
      var field :| field in left;
      var fault := CheckThresholdOrder(t[field]);
      if fault.Some? { return Some(BadLadder(name, None, field, false, fault.value)); }
      left := left - {field};
    }
    return None;
  }

  method CheckItem(c: Config, name: string, item: string, regexOk: string -> bool) returns (bad: Option<ConfigError>)
    requires name in c.plugins && item in c.plugins[name].thresholdsByItem
    ensures bad.None? <==> ItemSound(c, name, item)
    ensures bad.Some? ==> FaultPresent(c, regexOk, bad.value)
  {
    var t := c.plugins[name].thresholdsByItem[item];
    var left := t.Keys;
    while left != {}
      invariant left <= t.Keys
      invariant forall field <- t.Keys - left :: OverrideSound(c, name, item, field)
      decreases left
    {
      var field :| field in left;
      var fault := CheckThresholdOrder(t[field]);
      if fault.Some? { return Some(BadLadder(name, Some(item), field, false, fault.value)); }
      fault := CheckThresholdOrder(Merge(t[field], GlobalForSection(c, name, field)));
      if fault.Some? { return Some(BadLadder(name, Some(item), field, true, fault.value)); }
      left := left - {field};
    }
    return None;
  }

  method CheckItems(c: Config, name: string, regexOk: string -> bool) returns (bad: Option<ConfigError>)
    requires name in c.plugins
    ensures bad.None? <==> forall item <- c.plugins[name].thresholdsByItem.Keys :: ItemSound(c, name, item)
    ensures bad.Some? ==> FaultPresent(c, regexOk, bad.value)
  {
    var t := c.plugins[name].thresholdsByItem;
    var left := t.Keys;
    while left != {}
      invariant left <= t.Keys
      invariant forall item <- t.Keys - left :: ItemSound(c, name, item)
      decreases left
    {
      var item :| item in left;
      bad := CheckItem(c, name, item, regexOk);
      if bad.Some? { return; }
      left := left - {item};
    }
    return None;
  }

  method CheckSection(c: Config, name: string, regexOk: string -> bool) returns (bad: Option<ConfigError>)
    requires name in c.plugins
    ensures bad.None? <==> SectionAccepted(c, name, regexOk)
    ensures bad.Some? ==> FaultPresent(c, regexOk, bad.value)
  {
    var p := c.plugins[name];
    if ParseName(name).None? { return Some(UnknownPlugin(name)); }
    if p.refresh.Some? && !Positive(p.refresh.value) { return Some(BadPluginRefresh(name)); }
    var pattern := CheckPatterns(p.show, regexOk);
    if pattern.Some? { return Some(BadPattern(name, pattern.value)); }
    pattern := CheckPatterns(p.hide, regexOk);
    if pattern.Some? { return Some(BadPattern(name, pattern.value)); }
    bad := CheckGlobals(c, name, regexOk);
    if bad.Some? { return; }
    bad := CheckItems(c, name, regexOk);
    if bad.Some? { return; }
    if p.minDuration.Some? && !NonNegative(p.minDuration.value) { return Some(BadPluginMinDuration(name)); }
    return None;
  }

  /**
   * `Config::validate`. Sections, fields and items are visited in any order,
   * as the code's hash maps do, so which fault is reported is not determined.
   */
  method Validate(c: Config, regexOk: string -> bool) returns (r: Result<(), ConfigError>)
    ensures r.Success? <==> Accepted(c, regexOk)
    ensures r.Failure? ==> FaultPresent(c, regexOk, r.error)
  {
    if !Positive(c.refresh) { return Failure(BadRefresh); }
    if !Positive(c.guardTimeout) { return Failure(BadGuardTimeout); }
    if c.idleCycles == 0 { return Failure(BadIdleCycles); }
    var left := c.plugins.Keys;
    while left != {}
      invariant left <= c.plugins.Keys
      invariant forall name <- c.plugins.Keys - left :: SectionAccepted(c, name, regexOk)
      decreases left
    {
      var name :| name in left;
      var bad := CheckSection(c, name, regexOk);
      if bad.Some? { return Failure(bad.value); }
      left := left - {name};
    }
    if c.historySize == 0 { return Failure(BadHistorySize); }
    if !NonNegative(c.minDuration) { return Failure(BadMinDuration); }
    return Success(());
  }

  /** What an accepted configuration cannot hold, and all that one without sections has to meet. */
  lemma NumbersOfAccepted(c: Config, regexOk: string -> bool)
    ensures Accepted(c, regexOk) ==>
              && c.refresh.Finite? && c.refresh.value > 0.0 && c.guardTimeout.Finite? && c.guardTimeout.value > 0.0
              && c.minDuration.Finite? && c.minDuration.value >= 0.0 && c.idleCycles > 0 && c.historySize > 0
    ensures Accepted(c, regexOk) ==>
              forall name | name in c.plugins ::
                var p := c.plugins[name];
                && (exists id: PluginId :: name == Name(id))
                && (p.refresh.Some? ==> p.refresh.value.Finite? && p.refresh.value.value > 0.0)
                && (p.minDuration.Some? ==> p.minDuration.value.Finite? && p.minDuration.value.value >= 0.0)
                && forall pattern :: pattern in p.show || pattern in p.hide ==> regexOk(pattern)
    ensures c.plugins == map[] && c.refresh.Finite? && c.refresh.value > 0.0
            && c.guardTimeout.Finite? && c.guardTimeout.value > 0.0
            && c.minDuration.Finite? && c.minDuration.value >= 0.0 && c.idleCycles > 0 && c.historySize > 0 ==>
              Accepted(c, regexOk)
  {
    if Accepted(c, regexOk) {
      forall name | name in c.plugins ensures exists id: PluginId :: name == Name(id) {
        assert SectionAccepted(c, name, regexOk);
        ParseInvertsName(ParseName(name).value, name);
      }
    }
  }

  // ---------------------------------------------------------------------
  // Durations that do not fit
  // ---------------------------------------------------------------------

  /** The longest `Duration`: 2^64 seconds less a nanosecond. */
  const DURATION_MAX: nat := 18446744073709551615999999999

  /** `Duration::from_secs_f64`, with `None` for its panic. */
  function CheckedNanos(f: Float): Option<nat> {
    if NonNegative(f) && Nanos(f) <= DURATION_MAX then Some(Nanos(f)) else None
  }

  /** `Duration * u32`, with `None` for its panic. */
  function CheckedTimes(d: nat, k: nat): Option<nat> {
    if d * k <= DURATION_MAX then Some(d * k) else None
  }

  predicate RefreshFits(c: Config, id: PluginId) {
    var d := CheckedNanos(RefreshSetting(c, id));
    d.Some? && CheckedTimes(d.value, c.idleCycles).Some?
  }

  /** Neither `guard_timeout` nor, for any plugin, `refresh_for` or `idle_timeout_for` panics. */
  ghost predicate DurationsFit(c: Config) {
    CheckedNanos(c.guardTimeout).Some? && forall id: PluginId :: RefreshFits(c, id)
  }

  lemma NanosFit(f: Float)
    requires NonNegative(f)
    ensures Nanos(f) <= DURATION_MAX <==> f.value < 18446744073709551615.9999999995
  {
    var x := f.value * NANOS_PER_SECOND + 0.5;
    assert x.Floor as real <= x < x.Floor as real + 1.0;
  }

  lemma TimesAtLeast(d: nat, k: nat)
    requires k >= 1
    ensures d <= d * k
  {
  }

  lemma AcceptedRefresh(c: Config, regexOk: string -> bool, id: PluginId)
    requires Accepted(c, regexOk)
    ensures Positive(RefreshSetting(c, id))
  {
    if Name(id) in c.plugins { assert SectionAccepted(c, Name(id), regexOk); }
  }

  /**
   * An accepted configuration never asks for a duration that does not fit, exactly when its guard timeout
   * is under 2^64 seconds, to the nanosecond, and no plugin's idle timeout is longer than the longest one.
   */
  lemma DurationsFitExactly(c: Config, regexOk: string -> bool)
    requires Accepted(c, regexOk)
    ensures DurationsFit(c) <==>
            && c.guardTimeout.value < 18446744073709551615.9999999995
            && forall id: PluginId :: IdleTimeoutFor(c, id) <= DURATION_MAX
  {
    NanosFit(c.guardTimeout);
    forall id: PluginId ensures RefreshFits(c, id) <==> IdleTimeoutFor(c, id) <= DURATION_MAX {
      AcceptedRefresh(c, regexOk, id);
      TimesAtLeast(RefreshFor(c, id), c.idleCycles);
    }
  }

  /** A refresh of 10^20 seconds is accepted, and does not fit. */
  lemma AcceptedRefreshOverflows(regexOk: string -> bool) returns (c: Config)
    ensures c.refresh == Finite(100000000000000000000.0) && c.idleCycles == 5
    ensures Accepted(c, regexOk) && !DurationsFit(c)
  {
    c := Config(Finite(100000000000000000000.0), 5, Finite(30.0), map[], 100, Finite(0.0), false);
    NanosFit(c.refresh);
    assert !RefreshFits(c, Cpu);
  }
}
