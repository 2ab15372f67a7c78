/** The node-table join: Elasticsearch node records and server records, both decoded JSON,
    are grouped by short host name, filtered to the hosts whose Elasticsearch component is
    running, measured for the host column and put in host-name order, and each kept group
    is turned into the values of one table row. A Python exception (a `get` on something
    that is not a dict, a regular expression applied to a non-string, iterating a value that
    cannot be iterated) ends the run; it is a `Failure` here. */
module NodeTables {
  import opened Wrappers
  import opened HostNames
  import Strings

  /** A value as json.load decodes it. Numbers are reals: Python's int/float distinction is
      not kept. */
  datatype Json =
    | JNull
    | JBool(b: bool)
    | JNum(n: real)
    | JStr(s: string)
    | JArr(items: seq<Json>)
    | JObj(fields: map<string, Json>)

  /** The `{}` the script passes as a default. */
  const EmptyObj: Json := JObj(map[])

  /** Python truthiness. */
  predicate Truthy(j: Json)
  {
    match j
    case JNull => false
    case JBool(b) => b
    case JNum(n) => n != 0.0
    case JStr(s) => s != ""
    case JArr(items) => items != []
    case JObj(fields) => fields != map[]
  }

  /** `j.get(key, dflt)`. Only a dict has `get`; anything else raises AttributeError. */
  function Get(j: Json, key: string, dflt: Json): Result<Json, string>
  {
    match j
    case JObj(fields) => Success(if key in fields then fields[key] else dflt)
    case _ => Failure("AttributeError: 'get'")
  }

  /** The value reached from j through nested dicts holding each key of the path in turn. */
  function At(j: Json, path: seq<string>): Option<Json>
    decreases |path|
  {
    if path == [] then Some(j)
    else if j.JObj? && path[0] in j.fields then At(j.fields[path[0]], path[1..])
    else None
  }

  /** The record's host name under `key`: None when it is missing or falsy (the record is
      skipped), the name when it is a string. A truthy name that is not a string has no
      `split` and raises AttributeError. */
  function RecordName(node: Json, key: string): (r: Result<Option<string>, string>)
    ensures r.Success? ==> node.JObj?
    ensures r.Success? && r.value.Some? ==> At(node, [key]) == Some(JStr(r.value.value)) && r.value.value != ""
    ensures r == Success(None) <==> node.JObj? && (key !in node.fields || !Truthy(node.fields[key]))
  {
    var v :- Get(node, key, JStr(""));
    if !Truthy(v) then Success(None)
    else if v.JStr? then Success(Some(v.s))
    else Failure("AttributeError: 'split'")
  }

  /** `extract_ip(node.get('ip', dflt))`; re.search on a non-string raises TypeError. */
  function RecordIp(node: Json, dflt: string): (r: Result<string, string>)
    ensures r.Success? ==> ExtractIp(r.value) == r.value
    ensures r.Success? ==> node.JObj?
    ensures node.JObj? && "ip" !in node.fields ==> r == Success(ExtractIp(dflt))
  {
    var v :- Get(node, "ip", JStr(dflt));
    if v.JStr? then
      ExtractIpIdempotent(v.s);
      Success(ExtractIp(v.s))
    else Failure("TypeError: expected string")
  }

  /** One entry of `node_groups`. */
  datatype Group = Group(esData: Json, serverData: Json, ip: string, canonicalName: string)

  /** `node_groups` and `canonical_hostnames`, both keyed by short host name. */
  datatype Tables = Tables(groups: map<string, Group>, canonical: map<string, string>)

  const NoTables: Tables := Tables(map[], map[])

  /** The record's host name, when it has a usable one. */
  function NameOf(node: Json, key: string): Option<string>
  {
    match RecordName(node, key)
    case Success(Some(h)) => Some(h)
    case _ => None
  }

  /** The record's short host name, when it has a usable name. */
  function ShortOf(node: Json, key: string): Option<string>
  {
    match NameOf(node, key)
    case Some(h) => Some(ShortName(h))
    case None => None
  }

  /** The key a record adds: its short name, or nothing. */
  function KeyOf(node: Json, key: string): set<string>
  {
    match ShortOf(node, key)
    case Some(k) => {k}
    case None => {}
  }

  /** The short names of the usable records of a list. */
  function Shorts(nodes: seq<Json>, key: string): set<string>
    decreases |nodes|
  {
    if nodes == [] then {} else Shorts(nodes[..|nodes| - 1], key) + KeyOf(nodes[|nodes| - 1], key)
  }

  /** The last record of a list whose short name is k. */
  function LastWith(nodes: seq<Json>, key: string, k: string): Option<Json>
    decreases |nodes|
  {
    if nodes == [] then None
    else if ShortOf(nodes[|nodes| - 1], key) == Some(k) then Some(nodes[|nodes| - 1])
    else LastWith(nodes[..|nodes| - 1], key, k)
  }

  /** The host name of the first record of a list whose short name is k. */
  function FirstNameWith(nodes: seq<Json>, key: string, k: string): Option<string>
    decreases |nodes|
  {
    if nodes == [] then None
    else
      var earlier := FirstNameWith(nodes[..|nodes| - 1], key, k);
      if earlier.Some? then earlier
      else if ShortOf(nodes[|nodes| - 1], key) == Some(k) then NameOf(nodes[|nodes| - 1], key)
      else None
  }

  /** Every group has an entry in `canonical_hostnames` and the other way round. */
  predicate Coherent(t: Tables)
  {
    t.canonical.Keys == t.groups.Keys
  }

  /** Every group's address is one extract_ip leaves as it is. */
  predicate IpsExtracted(t: Tables)
  {
    forall k :: k in t.groups ==> ExtractIp(t.groups[k].ip) == t.groups[k].ip
  }

  /** A later Elasticsearch record for an existing group: its data replaces the group's, and
      its address replaces the group's when it looks like one. */
  function EsRefresh(g: Group, node: Json): Result<Group, string>
  {
    var g := g.(esData := node);
    var ip :- RecordIp(node, "");
    Success(if ip != "" && LooksLikeIp(ip) then g.(ip := ip) else g)
  }

  /** One iteration of the loop over Elasticsearch records. */
  function EsStep(t: Tables, node: Json): Result<Tables, string>
  {
    var name :- RecordName(node, "name");
    match name
    case None => Success(t)
    case Some(hostname) =>
      var short := ShortName(hostname);
      var canonicalName := if '.' in hostname then hostname else short;
      var canonical := t.canonical[short := canonicalName];
      if short !in t.groups then
        var ip :- RecordIp(node, "unknown");
        Success(Tables(t.groups[short := Group(node, EmptyObj, ip, canonicalName)], canonical))
      else
        var g :- EsRefresh(t.groups[short], node);
        Success(Tables(t.groups[short := g], canonical))
  }

  /** A later server record for an existing group: its data replaces the group's; only a
      group whose address does not look like one takes the record's address, and only when
      that looks like one. */
  function ServerRefresh(g: Group, node: Json): Result<Group, string>
  {
    var g := g.(serverData := node);
    if LooksLikeIp(g.ip) then Success(g)
    else
      var ip :- RecordIp(node, "");
      Success(if ip != "" && LooksLikeIp(ip) then g.(ip := ip) else g)
  }

  /** One iteration of the loop over server records. */
  function ServerStep(t: Tables, node: Json): Result<Tables, string>
  {
    var name :- RecordName(node, "hostname");
    match name
    case None => Success(t)
    case Some(hostname) =>
      var short := ShortName(hostname);
      var canonicalName := if '.' in hostname then hostname else short;
      var canonical := if short !in t.canonical then t.canonical[short := canonicalName] else t.canonical;
      if short !in t.groups then
        var ip :- RecordIp(node, "unknown");
        Success(Tables(t.groups[short := Group(EmptyObj, node, ip, canonical[short])], canonical))
      else
        var g :- ServerRefresh(t.groups[short], node);
        Success(Tables(t.groups[short := g], canonical))
  }

  /** The Elasticsearch loop over a list of records, from state t0. */
  function EsFold(t0: Tables, nodes: seq<Json>): Result<Tables, string>
    decreases |nodes|
  {
    if nodes == [] then Success(t0)
    else
      var t :- EsFold(t0, nodes[..|nodes| - 1]);
      EsStep(t, nodes[|nodes| - 1])
  }

  /** The server loop over a list of records, from state t0. */
  function ServerFold(t0: Tables, nodes: seq<Json>): Result<Tables, string>
    decreases |nodes|
  {
    if nodes == [] then Success(t0)
    else
      var t :- ServerFold(t0, nodes[..|nodes| - 1]);
      ServerStep(t, nodes[|nodes| - 1])
  }

  /** Once a loop crashes, the rest of the records make no difference. */
  lemma {:induction false} EsFoldCrashSticks(t0: Tables, nodes: seq<Json>, n: nat)
    requires n <= |nodes| && EsFold(t0, nodes[..n]).Failure?
    ensures EsFold(t0, nodes) == EsFold(t0, nodes[..n])
    decreases |nodes| - n
  {
    if n < |nodes| {
      assert nodes[..n + 1][..n] == nodes[..n];
      EsFoldCrashSticks(t0, nodes, n + 1);
    } else {
      assert nodes[..n] == nodes;
    }
  }

  lemma {:induction false} ServerFoldCrashSticks(t0: Tables, nodes: seq<Json>, n: nat)
    requires n <= |nodes| && ServerFold(t0, nodes[..n]).Failure?
    ensures ServerFold(t0, nodes) == ServerFold(t0, nodes[..n])
    decreases |nodes| - n
  {
    if n < |nodes| {
      assert nodes[..n + 1][..n] == nodes[..n];
      ServerFoldCrashSticks(t0, nodes, n + 1);
    } else {
      assert nodes[..n] == nodes;
    }
  }

  /** Updating an existing group's entry in place for a later Elasticsearch record. */
  method RefreshEsGroup(g0: Group, node: Json) returns (r: Result<Group, string>)
    ensures r == EsRefresh(g0, node)
  {
    var g := g0.(esData := node);
    var ip := RecordIp(node, "");
    if ip.Failure? {
      return Failure(ip.error);
    }
    if ip.value != "" && LooksLikeIp(ip.value) {
      g := g.(ip := ip.value);
    }
    return Success(g);
  }

  /** Updating an existing group's entry in place for a later server record. */
  method RefreshServerGroup(g0: Group, node: Json) returns (r: Result<Group, string>)
    ensures r == ServerRefresh(g0, node)
  {
    var g := g0.(serverData := node);
    var currentIp := g.ip;
    if !LooksLikeIp(currentIp) {
      var ip := RecordIp(node, "");
      if ip.Failure? {
        return Failure(ip.error);
      }
      if ip.value != "" && LooksLikeIp(ip.value) {
        g := g.(ip := ip.value);
      }
    }
    return Success(g);
  }

  /** The body of the loop over Elasticsearch records, updating the two dicts in place. */
  method AddEsNode(groups0: map<string, Group>, canonical0: map<string, string>, node: Json)
    returns (r: Result<Tables, string>)
    ensures r == EsStep(Tables(groups0, canonical0), node)
  {
    var groups, canonical := groups0, canonical0;
    var name := RecordName(node, "name");
    if name.Failure? {
      return Failure(name.error);
    }
    if name.value.Some? {
      var hostname := name.value.value;
      var short := ShortName(hostname);
      var canonicalName := if '.' in hostname then hostname else short;
      canonical := canonical[short := canonicalName];
      if short !in groups {
        var ip := RecordIp(node, "unknown");
        if ip.Failure? {
          return Failure(ip.error);
        }
        groups := groups[short := Group(node, EmptyObj, ip.value, canonicalName)];
      } else {
        var g := RefreshEsGroup(groups[short], node);
        if g.Failure? {
          return Failure(g.error);
        }
        groups := groups[short := g.value];
      }
    }
    return Success(Tables(groups, canonical));
  }

  /** The body of the loop over server records, updating the two dicts in place. */
  method AddServerNode(groups0: map<string, Group>, canonical0: map<string, string>, node: Json)
    returns (r: Result<Tables, string>)
    ensures r == ServerStep(Tables(groups0, canonical0), node)
  {
    var groups, canonical := groups0, canonical0;
    var name := RecordName(node, "hostname");
    if name.Failure? {
      return Failure(name.error);
    }
    if name.value.Some? {
      var hostname := name.value.value;
      var short := ShortName(hostname);
      var canonicalName := if '.' in hostname then hostname else short;
      if short !in canonical {
        canonical := canonical[short := canonicalName];
      }
      if short !in groups {
        var ip := RecordIp(node, "unknown");
        if ip.Failure? {
          return Failure(ip.error);
        }
        groups := groups[short := Group(EmptyObj, node, ip.value, canonical[short])];
      } else {
        var g := RefreshServerGroup(groups[short], node);
        if g.Failure? {
          return Failure(g.error);
        }
        groups := groups[short := g.value];
      }
    }
    return Success(Tables(groups, canonical));
  }

  /** The loop over Elasticsearch records. */
  method MergeEsNodes(t0: Tables, nodes: seq<Json>) returns (r: Result<Tables, string>)
    ensures r == EsFold(t0, nodes)
  {
    var t := t0;
    var i := 0;
    while i < |nodes|
      invariant 0 <= i <= |nodes|
      invariant EsFold(t0, nodes[..i]) == Success(t)
    {
      assert nodes[..i + 1][..i] == nodes[..i];
      var step := AddEsNode(t.groups, t.canonical, nodes[i]);
      if step.Failure? {
        EsFoldCrashSticks(t0, nodes, i + 1);
        return step;
      }
      t := step.value;
      i := i + 1;
    }
    assert nodes[..i] == nodes;
    return Success(t);
  }

  /** The loop over server records. */
  method MergeServerNodes(t0: Tables, nodes: seq<Json>) returns (r: Result<Tables, string>)
    ensures r == ServerFold(t0, nodes)
  {
    var t := t0;
    var i := 0;
    while i < |nodes|
      invariant 0 <= i <= |nodes|
      invariant ServerFold(t0, nodes[..i]) == Success(t)
    {
      assert nodes[..i + 1][..i] == nodes[..i];
      var step := AddServerNode(t.groups, t.canonical, nodes[i]);
      if step.Failure? {
        ServerFoldCrashSticks(t0, nodes, i + 1);
        return step;
      }
      t := step.value;
      i := i + 1;
    }
    assert nodes[..i] == nodes;
    return Success(t);
  }

  /** A later Elasticsearch record becomes the group's Elasticsearch data, and its address
      replaces the group's only when it looks like one; the rest of the group stays. */
  lemma EsRefreshFacts(g: Group, node: Json, g': Group)
    requires EsRefresh(g, node) == Success(g')
    ensures g'.esData == node && g'.serverData == g.serverData && g'.canonicalName == g.canonicalName
    ensures g'.ip == g.ip || LooksLikeIp(g'.ip)
    ensures ExtractIp(g.ip) == g.ip ==> ExtractIp(g'.ip) == g'.ip
  {
  }

  /** A later server record becomes the group's server data; an address that looks like one
      stays, any other is replaced only by one that looks like an address. */
  lemma ServerRefreshFacts(g: Group, node: Json, g': Group)
    requires ServerRefresh(g, node) == Success(g')
    ensures g'.serverData == node && g'.esData == g.esData && g'.canonicalName == g.canonicalName
    ensures LooksLikeIp(g.ip) ==> g'.ip == g.ip
    ensures g'.ip == g.ip || LooksLikeIp(g'.ip)
    ensures ExtractIp(g.ip) == g.ip ==> ExtractIp(g'.ip) == g'.ip
  {
  }

  /** The address of a group created by a record is extract_ip's answer. */
  predicate Extracted(ip: string) { ExtractIp(ip) == ip }

  /** One Elasticsearch record, seen from one key k: the record's short name joins both
      dicts; the record becomes the Elasticsearch data of its group; a new group has no server
      data and the record's host name as canonical name; an existing group keeps its server
      data and canonical name, and its address unless the new one looks like an address. */
  lemma EsStepAt(t: Tables, node: Json, t': Tables, k: string)
    requires EsStep(t, node) == Success(t')
    ensures k in t'.groups <==> k in t.groups || ShortOf(node, "name") == Some(k)
    ensures k in t'.canonical <==> k in t.canonical || ShortOf(node, "name") == Some(k)
    ensures k in t'.groups ==>
      t'.groups[k].esData == if ShortOf(node, "name") == Some(k) then node else t.groups[k].esData
    ensures k in t.groups ==>
      t'.groups[k].serverData == t.groups[k].serverData && t'.groups[k].canonicalName == t.groups[k].canonicalName
    ensures k in t'.groups && k !in t.groups ==>
      t'.groups[k].serverData == EmptyObj && NameOf(node, "name") == Some(t'.groups[k].canonicalName)
    ensures k in t.groups ==>
      t'.groups[k].ip == t.groups[k].ip || (ShortOf(node, "name") == Some(k) && LooksLikeIp(t'.groups[k].ip))
    ensures k in t'.groups && (k in t.groups ==> Extracted(t.groups[k].ip)) ==> Extracted(t'.groups[k].ip)
  {
    match RecordName(node, "name")
    case Success(Some(h)) =>
      CanonicalIsHostname(h);
      var short := ShortName(h);
      if short in t.groups {
        EsRefreshFacts(t.groups[short], node, t'.groups[short]);
      }
    case _ =>
  }

  /** One server record, seen from one key k: the record's short name joins both dicts; the
      record becomes the server data of its group; a new group has no Elasticsearch data and,
      when the dicts share their keys, the record's host name as canonical name; an existing
      group keeps its Elasticsearch data and canonical name, keeps an address that looks like
      one, and takes a new address only when that looks like one. */
  lemma ServerStepAt(t: Tables, node: Json, t': Tables, k: string)
    requires ServerStep(t, node) == Success(t')
    ensures k in t'.groups <==> k in t.groups || ShortOf(node, "hostname") == Some(k)
    ensures k in t'.canonical <==> k in t.canonical || ShortOf(node, "hostname") == Some(k)
    ensures k in t'.groups ==>
      t'.groups[k].serverData == if ShortOf(node, "hostname") == Some(k) then node else t.groups[k].serverData
    ensures k in t.groups ==>
      t'.groups[k].esData == t.groups[k].esData && t'.groups[k].canonicalName == t.groups[k].canonicalName
    ensures Coherent(t) && k in t'.groups && k !in t.groups ==>
      t'.groups[k].esData == EmptyObj && NameOf(node, "hostname") == Some(t'.groups[k].canonicalName)
    ensures k in t.groups && LooksLikeIp(t.groups[k].ip) ==> t'.groups[k].ip == t.groups[k].ip
    ensures k in t.groups ==>
      t'.groups[k].ip == t.groups[k].ip || (ShortOf(node, "hostname") == Some(k) && LooksLikeIp(t'.groups[k].ip))
    ensures k in t'.groups && (k in t.groups ==> Extracted(t.groups[k].ip)) ==> Extracted(t'.groups[k].ip)
  {
    match RecordName(node, "hostname")
    case Success(Some(h)) =>
      CanonicalIsHostname(h);
      var short := ShortName(h);
      if short in t.groups {
        ServerRefreshFacts(t.groups[short], node, t'.groups[short]);
      }
    case _ =>
  }

  /** A record with short name k exists exactly when k is among the short names. */
  lemma {:induction false} WithIffShorts(nodes: seq<Json>, key: string, k: string)
    ensures LastWith(nodes, key, k).Some? <==> k in Shorts(nodes, key)
    ensures FirstNameWith(nodes, key, k).Some? <==> k in Shorts(nodes, key)
    decreases |nodes|
  {
    if nodes != [] {
      WithIffShorts(nodes[..|nodes| - 1], key, k);
    }
  }

  /** The Elasticsearch loop, seen from one key k: the groups are those of the start state
      and the short names of the usable records; a group's Elasticsearch data is the last
      record with its short name; a group created by the loop has no server data and the
      first such record's host name as canonical name; a group present at the start keeps
      its server data and canonical name, and its address unless the new one looks like an
      address. */
  lemma {:induction false} EsFoldAt(t0: Tables, nodes: seq<Json>, t: Tables, k: string)
    requires EsFold(t0, nodes) == Success(t)
    ensures k in t.groups <==> k in t0.groups || k in Shorts(nodes, "name")
    ensures k in t.canonical <==> k in t0.canonical || k in Shorts(nodes, "name")
    ensures LastWith(nodes, "name", k).Some? ==> k in t.groups && t.groups[k].esData == LastWith(nodes, "name", k).value
    ensures k in t0.groups && LastWith(nodes, "name", k).None? ==> t.groups[k].esData == t0.groups[k].esData
    ensures k in t0.groups ==>
      t.groups[k].serverData == t0.groups[k].serverData && t.groups[k].canonicalName == t0.groups[k].canonicalName
    ensures k in t.groups && k !in t0.groups ==>
      t.groups[k].serverData == EmptyObj && FirstNameWith(nodes, "name", k) == Some(t.groups[k].canonicalName)
    ensures k in t0.groups ==> t.groups[k].ip == t0.groups[k].ip || LooksLikeIp(t.groups[k].ip)
    ensures k in t.groups && (k in t0.groups ==> Extracted(t0.groups[k].ip)) ==> Extracted(t.groups[k].ip)
    decreases |nodes|
  {
    if nodes != [] {
      var init, last := nodes[..|nodes| - 1], nodes[|nodes| - 1];
      var tm := EsFold(t0, init).value;
      EsFoldAt(t0, init, tm, k);
      EsStepAt(tm, last, t, k);
      WithIffShorts(init, "name", k);
    }
  }

  /** The server loop, seen from one key k, when the dicts start with the same keys: the
      groups are those of the start state and the short names of the usable records; a
      group's server data is the last record with its short name; a group created by the loop
      has no Elasticsearch data and the first such record's host name as canonical name; a
      group present at the start keeps its Elasticsearch data and canonical name, keeps an
      address that looks like one, and takes only addresses that look like one. */
  lemma {:induction false} ServerFoldAt(t0: Tables, nodes: seq<Json>, t: Tables, k: string)
    requires ServerFold(t0, nodes) == Success(t) && Coherent(t0)
    ensures Coherent(t)
    ensures k in t.groups <==> k in t0.groups || k in Shorts(nodes, "hostname")
    ensures LastWith(nodes, "hostname", k).Some? ==>
      k in t.groups && t.groups[k].serverData == LastWith(nodes, "hostname", k).value
    ensures k in t0.groups && LastWith(nodes, "hostname", k).None? ==> t.groups[k].serverData == t0.groups[k].serverData
    ensures k in t0.groups ==>
      t.groups[k].esData == t0.groups[k].esData && t.groups[k].canonicalName == t0.groups[k].canonicalName
    ensures k in t.groups && k !in t0.groups ==>
      t.groups[k].esData == EmptyObj && FirstNameWith(nodes, "hostname", k) == Some(t.groups[k].canonicalName)
    ensures k in t0.groups && LooksLikeIp(t0.groups[k].ip) ==> t.groups[k].ip == t0.groups[k].ip
    ensures k in t0.groups ==> t.groups[k].ip == t0.groups[k].ip || LooksLikeIp(t.groups[k].ip)
    ensures k in t.groups && (k in t0.groups ==> Extracted(t0.groups[k].ip)) ==> Extracted(t.groups[k].ip)
    decreases |nodes|
  {
    if nodes != [] {
      var init, last := nodes[..|nodes| - 1], nodes[|nodes| - 1];
      var tm := ServerFold(t0, init).value;
      ServerFoldAt(t0, init, tm, k);
      WithIffShorts(init, "hostname", k);
      forall k' ensures k' in t.groups <==> k' in t.canonical {
        ServerStepAt(tm, last, t, k');
      }
      ServerStepAt(tm, last, t, k);
    }
  }
}
