/** Plugin names, primary keys and the watched-field table (src/plugins/mod.rs, src/plugins/fields.rs). */
module Plugins {
  import opened Wrappers

  datatype PluginId = Cpu | Diskio | Fs | Load | Mem | MemSwap | Network | System | Uptime

  function Name(id: PluginId): string {
    match id
    case Cpu => "cpu"
    case Diskio => "diskio"
    case Fs => "fs"
    case Load => "load"
    case Mem => "mem"
    case MemSwap => "memswap"
    case Network => "network"
    case System => "system"
    case Uptime => "uptime"
  }

  function ParseName(name: string): Option<PluginId> {
    if name == "cpu" then Some(Cpu)
    else if name == "diskio" then Some(Diskio)
    else if name == "fs" then Some(Fs)
    else if name == "load" then Some(Load)
    else if name == "mem" then Some(Mem)
    else if name == "memswap" then Some(MemSwap)
    else if name == "network" then Some(Network)
    else if name == "system" then Some(System)
    else if name == "uptime" then Some(Uptime)
    else None
  }

  /** Names and ids are in one-to-one correspondence. */
  lemma ParseInvertsName(id: PluginId, name: string)
    ensures ParseName(name) == Some(id) <==> name == Name(id)
  {
    if name == Name(id) {
      assert |Name(Cpu)| == |Name(Mem)| == 3 && Name(Cpu)[0] == 'c' && Name(Mem)[0] == 'm';
      assert |Name(Diskio)| == |Name(System)| == |Name(Uptime)| == 6;
      assert Name(Diskio)[0] == 'd' && Name(System)[0] == 's' && Name(Uptime)[0] == 'u';
      assert |Name(Fs)| == 2 && |Name(Load)| == 4;
      assert |Name(MemSwap)| == |Name(Network)| == 7 && Name(MemSwap)[0] == 'm' && Name(Network)[0] == 'n';
    }
  }

  /** The field that names an item of a collection plugin; `None` for a scalar plugin. */
  function KeyField(id: PluginId): Option<string> {
    match id
    case Network => Some("interface_name")
    case Fs => Some("mnt_point")
    case Diskio => Some("disk_name")
    case _ => None
  }

  datatype Direction = High | Low

  /** What the alert engine reads of a watched field. */
  datatype FieldInfo = FieldInfo(
    field: string,
    direction: Direction,
    prominent: bool,
    normalizeBy: Option<string>,
    defaults: Option<(real, real, real)>)

  function Watched(field: string, prominent: bool, normalizeBy: Option<string>,
                   defaults: Option<(real, real, real)>): FieldInfo {
    FieldInfo(field, High, prominent, normalizeBy, defaults)
  }

  /** The watched fields of each plugin, in table order. */
  function AlertFields(id: PluginId): seq<FieldInfo> {
    match id
    case Mem => [Watched("percent", true, None, Some((50.0, 70.0, 90.0)))]
    case Cpu => [
      Watched("total", true, None, Some((50.0, 70.0, 90.0))),
      Watched("system", false, None, Some((50.0, 70.0, 90.0))),
      Watched("user", false, None, Some((50.0, 70.0, 90.0))),
      Watched("iowait", false, None, Some((50.0, 70.0, 90.0))),
      Watched("steal", false, None, Some((5.0, 15.0, 30.0))),
      Watched("ctx_switches", false, Some("cpucore"), Some((25000.0, 37500.0, 50000.0)))]
    case Load => [
      Watched("min5", false, Some("cpucore"), Some((0.7, 1.0, 5.0))),
      Watched("min15", true, Some("cpucore"), Some((0.7, 1.0, 5.0)))]
    case Network => [
      Watched("bytes_recv", false, Some("bytes_speed_rate_per_sec"), Some((0.7, 0.8, 0.9))),
      Watched("bytes_sent", false, Some("bytes_speed_rate_per_sec"), Some((0.7, 0.8, 0.9)))]
    case MemSwap => [
      Watched("percent", true, None, Some((60.0, 80.0, 95.0))),
      Watched("sin", false, None, None),
      Watched("sout", false, None, None)]
    case Fs => [Watched("percent", false, None, Some((70.0, 80.0, 90.0)))]
    case Diskio => [
      Watched("read_bytes", false, None, None),
      Watched("write_bytes", false, None, None)]
    case System => []
    case Uptime => []
  }

  /** The first entry of `fs` named `field`. */
  function Find(fs: seq<FieldInfo>, field: string): (r: Option<FieldInfo>)
    ensures r.Some? ==> r.value in fs && r.value.field == field
    ensures r.None? ==> forall i :: 0 <= i < |fs| ==> fs[i].field != field
  {
    if fs == [] then None
    else if fs[0].field == field then Some(fs[0])
    else Find(fs[1..], field)
  }

  ghost function FieldNamesOf(fs: seq<FieldInfo>): set<string> {
    set i | 0 <= i < |fs| :: fs[i].field
  }

  lemma NamesOfPrefix(fs: seq<FieldInfo>, i: nat)
    requires i < |fs|
    ensures FieldNamesOf(fs[..i + 1]) == FieldNamesOf(fs[..i]) + {fs[i].field}
  {
    forall f | f in FieldNamesOf(fs[..i + 1]) ensures f in FieldNamesOf(fs[..i]) + {fs[i].field} {
      var j :| 0 <= j < i + 1 && fs[..i + 1][j].field == f;
      if j < i { assert fs[..i][j].field == f; }
    }
    forall f | f in FieldNamesOf(fs[..i]) ensures f in FieldNamesOf(fs[..i + 1]) {
      var j :| 0 <= j < i && fs[..i][j].field == f;
      assert fs[..i + 1][j].field == f;
    }
    assert fs[..i + 1][i].field == fs[i].field;
  }

  ghost predicate DistinctFields(fs: seq<FieldInfo>) {
    forall i, j :: 0 <= i < j < |fs| ==> fs[i].field != fs[j].field
  }

  ghost predicate OrderedDefaults(f: FieldInfo) {
    f.defaults.Some? ==> f.defaults.value.0 <= f.defaults.value.1 <= f.defaults.value.2
  }

  ghost predicate SoundTable(fs: seq<FieldInfo>) {
    DistinctFields(fs) && forall i :: 0 <= i < |fs| ==> fs[i].direction == High && OrderedDefaults(fs[i])
  }

  lemma CpuTable()
    ensures SoundTable(AlertFields(Cpu))
  {
    assert "total"[0] == 't' && "system"[0] == 's' && "steal"[1] == 't' && "system"[1] == 'y';
    var names := ["total", "system", "user", "iowait", "steal", "ctx_switches"];
    assert forall i :: 0 <= i < 6 ==> AlertFields(Cpu)[i].field == names[i];
  }

  lemma LoadTable()
    ensures SoundTable(AlertFields(Load))
  {
    assert |"min5"| != |"min15"|;
  }

  lemma NetworkTable()
    ensures SoundTable(AlertFields(Network))
  {
    assert "bytes_recv"[6] != "bytes_sent"[6];
  }

  lemma OtherTables(id: PluginId)
    requires id != Cpu && id != Load && id != Network
    ensures SoundTable(AlertFields(id))
  {
    assert |"read_bytes"| != |"write_bytes"|;
    assert |"percent"| == 7 && |"sin"| == 3 && |"sout"| == 4;
  }

  /** The table names each field once, and every built-in ladder is ordered and rises. */
  lemma TableIsSound(id: PluginId)
    ensures DistinctFields(AlertFields(id))
    ensures forall f <- AlertFields(id) :: f.direction == High && OrderedDefaults(f)
  {
    match id
    case Cpu => CpuTable();
    case Load => LoadTable();
    case Network => NetworkTable();
    case _ => OtherTables(id);
  }
}
