/** format_table_row: the values one row of the combined table shows for a merged group.
    The column padding of the f-string is left to the caller; what is modelled is which
    value lands in each column and the memory, disk and service arithmetic behind them. */
module NodeRows {
  import opened Wrappers
  import opened HostNames
  import opened NodeTables
  import PyNumbers
  import Strings

  /** The Elasticsearch columns: `es_data.get(key, placeholder)` for each. */
  datatype EsColumns = EsColumns(
    role: Json, version: Json, master: Json, diskTotal: Json,
    diskUsedPercent: Json, heapPercent: Json, ramPercent: Json, cpuPercent: Json)

  /** The Elasticsearch columns of a group with no Elasticsearch record. */
  const Placeholders: EsColumns := EsColumns(
    JStr("unknown"), JStr("unknown"), JStr("-"), JStr("unknown"),
    JStr("unknown"), JStr("unknown"), JStr("unknown"), JStr("unknown"))

  /** The service columns and the data-usage column. */
  datatype Services = Services(es: string, kb: string, fb: string, mb: string, dataUsage: Json)

  /** The values of one row, column by column, and the free-memory figure the used one is
      computed from. */
  datatype Row = Row(
    host: string,
    ip: string,
    es: EsColumns,
    cpuCount: Json,
    memUsedGb: int,
    memTotalGb: int,
    memFreeGb: int,
    serverDiskUsed: real,
    serverDiskTotal: Json,
    services: Services)

  /** `d.get(key)` of a dict d: the value, or None. */
  function Lookup(d: Json, key: string): Json
  {
    if d.JObj? && key in d.fields then d.fields[key] else JNull
  }

  /** `c[0] or c[1] or ... or last`: the first truthy candidate, else the last operand. */
  function FirstTruthy(c: seq<Json>, last: Json): (r: Json)
    ensures (forall j :: 0 <= j < |c| ==> !Truthy(c[j])) ==> r == last
    ensures forall i :: 0 <= i < |c| && Truthy(c[i]) && (forall j :: 0 <= j < i ==> !Truthy(c[j])) ==> r == c[i]
    decreases |c|
  {
    if c == [] then last
    else if Truthy(c[0]) then c[0]
    else
      var r := FirstTruthy(c[1..], last);
      assert forall j :: 1 <= j < |c| ==> c[1..][j - 1] == c[j];
      r
  }

  /** The `or` of three candidates and a last operand. */
  lemma FirstTruthyOfThree(a: Json, b: Json, c: Json, last: Json)
    ensures FirstTruthy([a, b, c], last) ==
      if Truthy(a) then a else if Truthy(b) then b else if Truthy(c) then c else last
  {
    var s := [a, b, c];
    assert s[0] == a && s[1] == b && s[2] == c;
  }

  /** A memory value: the first truthy of `server_data.get(k0)`, `ansible_facts.get(k1)` and
      `resources.get(k2)`, else the default. The `or` chain stops at the first truthy value,
      so a later source that is not a dict raises only when it is reached. */
  function MemSource(sd: Json, facts: Json, res: Json, k0: string, k1: string, k2: string, dflt: real)
    : (r: Result<Json, string>)
    ensures r.Success? <==>
      sd.JObj? && (Truthy(Lookup(sd, k0)) || (facts.JObj? && (Truthy(Lookup(facts, k1)) || res.JObj?)))
    ensures r.Success? ==> r.value == FirstTruthy([Lookup(sd, k0), Lookup(facts, k1), Lookup(res, k2)], JNum(dflt))
    ensures sd.JObj? && Truthy(Lookup(sd, k0)) ==> r == Success(Lookup(sd, k0))
  {
    var a :- Get(sd, k0, JNull);
    FirstTruthyOfThree(a, Lookup(facts, k1), Lookup(res, k2), JNum(dflt));
    if Truthy(a) then Success(a)
    else
      var b :- Get(facts, k1, JNull);
      FirstTruthyOfThree(a, b, Lookup(res, k2), JNum(dflt));
      if Truthy(b) then Success(b)
      else
        var c :- Get(res, k2, JNull);
        FirstTruthyOfThree(a, b, c, JNum(dflt));
        Success(if Truthy(c) then c else JNum(dflt))
  }

  /** `float(v)` of a decoded JSON value. A bool counts 1 or 0; a list, a dict or None
      raises TypeError, here a malformed number. */
  function FloatOf(v: Json): PyNumbers.Parsed
  {
    match v
    case JBool(b) => PyNumbers.Finite(if b then 1.0 else 0.0)
    case JNum(n) => PyNumbers.Finite(n)
    case JStr(s) => PyNumbers.FloatOfText(s)
    case _ => PyNumbers.Malformed
  }

  /** `int(float(v)) // 1024`, with the default for a result of 0 and for the ValueError and
      TypeError the script catches. An infinity passes float() and then makes int() raise
      OverflowError, which nothing catches. */
  function MemGb(v: Json, dflt: int): (r: Result<int, string>)
    ensures r.Failure? <==> FloatOf(v) == PyNumbers.Infinite
    ensures FloatOf(v).Finite? ==> (
      var n := PyNumbers.Trunc(FloatOf(v).x);
      r.Success? && if 0 <= n < 1024 then r.value == dflt else r.value * 1024 <= n < r.value * 1024 + 1024)
    ensures FloatOf(v).NotANumber? || FloatOf(v).Malformed? ==> r == Success(dflt)
  {
    match FloatOf(v)
    case Finite(x) =>
      var gb := PyNumbers.Trunc(x) / 1024;
      Success(if gb == 0 then dflt else gb)
    case Infinite => Failure("OverflowError: cannot convert float infinity to integer")
    case _ => Success(dflt)
  }

  /** A whole megabyte count gives the default below 1 GB and the floor of mb / 1024
      otherwise. */
  lemma MemGbOfMegabytes(mb: nat, dflt: int)
    ensures MemGb(JNum(mb as real), dflt) == Success(if mb < 1024 then dflt else mb / 1024)
  {
    assert PyNumbers.Trunc(mb as real) == mb;
  }

  /** A megabyte count stored as its decimal text gives what the number gives. */
  lemma MemGbOfText(mb: nat, dflt: int)
    ensures MemGb(JStr(Strings.NatToString(mb)), dflt) == MemGb(JNum(mb as real), dflt)
  {
    FloatOfDecimalText(mb);
  }

  lemma FloatOfDecimalText(mb: nat)
    ensures FloatOf(JStr(Strings.NatToString(mb))) == PyNumbers.Finite(mb as real)
  {
    PyNumbers.FloatOfNatText(mb);
  }

  /** `'OK' if comp.get('status') == 'running' else 'NO'`; comp must be a dict. */
  function Status(comp: Json): (r: Result<string, string>)
    ensures r == Success("OK") <==> comp.JObj? && At(comp, ["status"]) == Some(JStr("running"))
    ensures r == Success("NO") <==> comp.JObj? && At(comp, ["status"]) != Some(JStr("running"))
    ensures r.Failure? <==> !comp.JObj?
  {
    var st :- Get(comp, "status", JNull);
    Success(if st == JStr("running") then "OK" else "NO")
  }

  /** isinstance(v, (int, float)); a bool is an int in Python. */
  predicate IsNumber(v: Json) { v.JNum? || v.JBool? }

  function NumberValue(v: Json): real
    requires IsNumber(v)
  {
    if v.JNum? then v.n else if v.b then 1.0 else 0.0
  }

  /** `d.get(key, dflt)` of a dict d. */
  function FieldOr(d: Json, key: string, dflt: Json): Json
  {
    if d.JObj? && key in d.fields then d.fields[key] else dflt
  }

  /** The eight `es_data.get` calls; es_data must be a dict. */
  function EsColumnsOf(es: Json): (r: Result<EsColumns, string>)
    ensures r.Success? <==> es.JObj?
    ensures es == EmptyObj ==> r == Success(Placeholders)
    ensures r.Success? && "version" in es.fields ==> r.value.version == es.fields["version"]
    ensures r.Success? && "master" in es.fields ==> r.value.master == es.fields["master"]
  {
    if !es.JObj? then Failure("AttributeError: 'get'")
    else Success(EsColumns(
      FieldOr(es, "node.role", JStr("unknown")), FieldOr(es, "version", JStr("unknown")),
      FieldOr(es, "master", JStr("-")), FieldOr(es, "disk.total", JStr("unknown")),
      FieldOr(es, "disk.used_percent", JStr("unknown")), FieldOr(es, "heap.percent", JStr("unknown")),
      FieldOr(es, "ram.percent", JStr("unknown")), FieldOr(es, "cpu", JStr("unknown"))))
  }

  /** No memory figure in any of the three places the script looks. */
  predicate NoMemoryFigures(sd: Json, resources: Json)
  {
    var facts := Lookup(sd, "ansible_facts");
    !Truthy(Lookup(sd, "ansible_memtotal_mb")) && !Truthy(Lookup(sd, "ansible_memfree_mb"))
    && !Truthy(Lookup(facts, "memtotal_mb")) && !Truthy(Lookup(facts, "memfree_mb"))
    && !Truthy(Lookup(resources, "memory_total_mb")) && !Truthy(Lookup(resources, "memory_free_mb"))
  }

  /** Total and free memory in whole gigabytes, neither ever 0. */
  function MemoryOf(sd: Json, resources: Json): (r: Result<(int, int), string>)
    requires resources.JObj?
    ensures r.Success? ==> r.value.0 != 0 && r.value.1 != 0
  {
    var facts :- Get(sd, "ansible_facts", EmptyObj);
    var total :- MemSource(sd, facts, resources, "ansible_memtotal_mb", "memtotal_mb", "memory_total_mb", 16384.0);
    var free :- MemSource(sd, facts, resources, "ansible_memfree_mb", "memfree_mb", "memory_free_mb", 2048.0);
    var totalGb :- MemGb(total, 16);
    var freeGb :- MemGb(free, 2);
    Success((totalGb, freeGb))
  }

  /** With no memory figure anywhere, total and free are the 16 GB and 2 GB defaults. */
  lemma MemoryDefaults(sd: Json, resources: Json)
    requires resources.JObj? && sd.JObj? && FieldOr(sd, "ansible_facts", EmptyObj).JObj?
    requires NoMemoryFigures(sd, resources)
    ensures MemoryOf(sd, resources) == Success((16, 2))
  {
    var facts := FieldOr(sd, "ansible_facts", EmptyObj);
    assert Lookup(facts, "memtotal_mb") == Lookup(Lookup(sd, "ansible_facts"), "memtotal_mb");
    FirstTruthyOfThree(Lookup(sd, "ansible_memtotal_mb"), Lookup(facts, "memtotal_mb"), Lookup(resources, "memory_total_mb"), JNum(16384.0));
    FirstTruthyOfThree(Lookup(sd, "ansible_memfree_mb"), Lookup(facts, "memfree_mb"), Lookup(resources, "memory_free_mb"), JNum(2048.0));
    MemGbOfMegabytes(16384, 16);
    MemGbOfMegabytes(2048, 2);
  }

  /** A total reported as ansible_memtotal_mb, as a number or as any text float() reads
      as that number (FloatOfDecimalText: its decimal digits), wins over the other sources
      and is converted to whole gigabytes. */
  lemma MemoryFromFacts(sd: Json, resources: Json, mb: nat)
    requires resources.JObj? && 1024 <= mb
    requires Truthy(Lookup(sd, "ansible_memtotal_mb"))
    requires FloatOf(Lookup(sd, "ansible_memtotal_mb")) == PyNumbers.Finite(mb as real)
    ensures MemoryOf(sd, resources).Success? ==> MemoryOf(sd, resources).value.0 == mb / 1024
  {
    assert PyNumbers.Trunc(mb as real) == mb;
  }

  /** `server_data['components'][name][field]`, when every step is a dict holding the key. */
  function ComponentField(sd: Json, name: string, field: string): Option<Json>
  {
    At(sd, ["components", name, field])
  }

  /** Looking up a path one key at a time. */
  lemma AtStep(j: Json, key: string, rest: seq<string>)
    ensures At(j, [key] + rest) == if j.JObj? && key in j.fields then At(j.fields[key], rest) else None
  {
    assert ([key] + rest)[0] == key && ([key] + rest)[1..] == rest;
  }

  lemma ComponentFieldSteps(sd: Json, name: string, field: string)
    ensures ComponentField(sd, name, field) ==
      if sd.JObj? && "components" in sd.fields then
        var c := sd.fields["components"];
        if c.JObj? && name in c.fields then At(c.fields[name], [field]) else None
      else None
  {
    AtStep(sd, "components", [name, field]);
    assert ["components", name, field] == ["components"] + [name, field];
    if sd.JObj? && "components" in sd.fields {
      AtStep(sd.fields["components"], name, [field]);
      assert [name, field] == [name] + [field];
    }
  }

  /** The data-usage column: data_usage when data_dir_exists is truthy, else "N/A". */
  function DataUsage(esComponent: Json): (r: Json)
    requires esComponent.JObj?
    ensures r != JStr("N/A") ==>
      Truthy(FieldOr(esComponent, "data_dir_exists", JBool(false))) && At(esComponent, ["data_usage"]) == Some(r)
    ensures Truthy(FieldOr(esComponent, "data_dir_exists", JBool(false))) ==>
      r == FieldOr(esComponent, "data_usage", JStr("N/A"))
  {
    if Truthy(FieldOr(esComponent, "data_dir_exists", JBool(false)))
    then FieldOr(esComponent, "data_usage", JStr("N/A"))
    else JStr("N/A")
  }

  /** The four service columns and the data-usage column, in the order the script reads
      them; only the components dict and the component dicts may fail to be dicts. */
  function ServicesOf(sd: Json): (r: Result<Services, string>)
    requires sd.JObj?
    ensures r.Success? ==> (r.value.es == "OK" <==> ComponentField(sd, "elasticsearch", "status") == Some(JStr("running")))
    ensures r.Success? ==> (r.value.kb == "OK" <==> ComponentField(sd, "kibana", "status") == Some(JStr("running")))
    ensures r.Success? ==> (r.value.fb == "OK" <==> ComponentField(sd, "filebeat", "status") == Some(JStr("running")))
    ensures r.Success? ==> (r.value.mb == "OK" <==> ComponentField(sd, "metricbeat", "status") == Some(JStr("running")))
    ensures r.Success? ==> r.value.es in {"OK", "NO"} && r.value.kb in {"OK", "NO"}
    ensures r.Success? ==> r.value.fb in {"OK", "NO"} && r.value.mb in {"OK", "NO"}
  {
    var components :- Get(sd, "components", EmptyObj);
    var esComponent :- Get(components, "elasticsearch", EmptyObj);
    var es :- Status(esComponent);
    var kb :- Status(FieldOr(components, "kibana", EmptyObj));
    var fb :- Status(FieldOr(components, "filebeat", EmptyObj));
    var mb :- Status(FieldOr(components, "metricbeat", EmptyObj));
    ComponentFieldSteps(sd, "elasticsearch", "status");
    ComponentFieldSteps(sd, "kibana", "status");
    ComponentFieldSteps(sd, "filebeat", "status");
    ComponentFieldSteps(sd, "metricbeat", "status");
    Success(Services(es, kb, fb, mb, DataUsage(esComponent)))
  }

  /** Used disk: total less free when both are numbers, else 0. */
  function DiskUsed(total: Json, free: Json): real
  {
    if IsNumber(total) && IsNumber(free) then NumberValue(total) - NumberValue(free) else 0.0
  }

  /** `resources.get(key, 0)`. */
  function Resource(g: Group, key: string): Json
  {
    FieldOr(FieldOr(g.serverData, "resources", EmptyObj), key, JNum(0.0))
  }

  /** The row a group gives, or the exception that building it raises. A row names the
      group by its canonical name and shows its address as extract_ip leaves it; used
      memory is total less free, neither of them 0; used disk is total less free when both
      are numbers and 0 otherwise; each service reads OK exactly when its status is
      "running". A row exists only when both of the group's records are dicts. */
  function FormatRow(g: Group): (r: Result<Row, string>)
    ensures r.Success? ==> g.esData.JObj? && g.serverData.JObj?
    ensures r.Success? ==> r.value.host == g.canonicalName
    ensures r.Success? ==> (Extracted(g.ip) ==> r.value.ip == g.ip) && (r.value.ip == g.ip || IsDottedQuad(r.value.ip))
    ensures r.Success? && g.esData == EmptyObj ==> r.value.es == Placeholders
    ensures r.Success? ==>
      r.value.memUsedGb == r.value.memTotalGb - r.value.memFreeGb && r.value.memTotalGb != 0 && r.value.memFreeGb != 0
    ensures r.Success? ==> r.value.serverDiskTotal == Resource(g, "disk_total_gb")
    ensures r.Success? ==> r.value.serverDiskUsed == DiskUsed(Resource(g, "disk_total_gb"), Resource(g, "disk_free_gb"))
    ensures r.Success? ==>
      (r.value.services.es == "OK" <==> ComponentField(g.serverData, "elasticsearch", "status") == Some(JStr("running")))
  {
    ExtractIpShape(g.ip);
    var es :- EsColumnsOf(g.esData);
    var sd := g.serverData;
    var resources :- Get(sd, "resources", EmptyObj);
    var cpuCount :- Get(resources, "cpu_count", JStr("unknown"));
    var mem :- MemoryOf(sd, resources);
    var diskTotal := FieldOr(resources, "disk_total_gb", JNum(0.0));
    var diskFree := FieldOr(resources, "disk_free_gb", JNum(0.0));
    var services :- ServicesOf(sd);
    Success(Row(
      g.canonicalName, ExtractIp(g.ip), es, cpuCount,
      mem.0 - mem.1, mem.0, mem.1,
      DiskUsed(diskTotal, diskFree), diskTotal,
      services))
  }
}
