/** main() of the node-table join, without the file reading and the printing: both decoded
    inputs are merged, the groups whose Elasticsearch component is running are kept, the
    host column is measured, and one row per kept group is built and put in short-name
    order. */
module NodeJoin {
  import opened Wrappers
  import opened HostNames
  import opened NodeTables
  import opened NodeRows

  /** `for node in data`: a list yields its items; an empty dict or string yields nothing;
      a non-empty dict or string yields strings, whose missing `get` raises
      AttributeError at the first one; anything else cannot be iterated. */
  function Items(data: Json): (r: Result<seq<Json>, string>)
    ensures data.JArr? ==> r == Success(data.items)
    ensures r.Success? && r.value != [] ==> data.JArr?
    ensures data.JNull? || data.JBool? || data.JNum? ==> r.Failure?
  {
    match data
    case JArr(items) => Success(items)
    case JObj(fields) => if fields == map[] then Success([]) else Failure("AttributeError: 'str' object has no attribute 'get'")
    case JStr(s) => if s == "" then Success([]) else Failure("AttributeError: 'str' object has no attribute 'get'")
    case _ => Failure("TypeError: object is not iterable")
  }

  /** `data.get('server_data', {}).get('components', {}).get('elasticsearch', {}).get('status') == 'running'`. */
  function Running(g: Group): (r: Result<bool, string>)
    ensures r == Success(true) <==> ComponentField(g.serverData, "elasticsearch", "status") == Some(JStr("running"))
    ensures r.Failure? <==>
      !g.serverData.JObj? || !FieldOr(g.serverData, "components", EmptyObj).JObj?
      || !FieldOr(FieldOr(g.serverData, "components", EmptyObj), "elasticsearch", EmptyObj).JObj?
  {
    ComponentFieldSteps(g.serverData, "elasticsearch", "status");
    var components :- Get(g.serverData, "components", EmptyObj);
    var es :- Get(components, "elasticsearch", EmptyObj);
    var status :- Get(es, "status", JNull);
    assert At(es, ["status"]) == if "status" in es.fields then Some(es.fields["status"]) else None by {
      assert ["status"][1..] == [];
    }
    Success(status == JStr("running"))
  }

  /** Both loops over lists of records, from empty dicts. */
  function Merge(esNodes: seq<Json>, serverNodes: seq<Json>): Result<Tables, string>
  {
    var t :- EsFold(NoTables, esNodes);
    ServerFold(t, serverNodes)
  }

  /** Both decoded inputs, iterated and merged. */
  function Merged(esData: Json, serverData: Json): Result<Tables, string>
  {
    var esNodes :- Items(esData);
    var t :- EsFold(NoTables, esNodes);
    var serverNodes :- Items(serverData);
    ServerFold(t, serverNodes)
  }

  /** The merged groups, seen from one short name k: there is a group exactly when some
      usable record of either list has short name k; its canonical name is the host name
      of the first Elasticsearch record with that short name or, when there is none, of
      the first server record; its data is the last record of each list with that short
      name, or `{}`; its address is one extract_ip leaves as it is. */
  lemma MergeAt(esNodes: seq<Json>, serverNodes: seq<Json>, t: Tables, k: string)
    requires Merge(esNodes, serverNodes) == Success(t)
    ensures Coherent(t)
    ensures k in t.groups <==> k in Shorts(esNodes, "name") || k in Shorts(serverNodes, "hostname")
    ensures k in t.groups && FirstNameWith(esNodes, "name", k).Some? ==>
      t.groups[k].canonicalName == FirstNameWith(esNodes, "name", k).value
    ensures k in t.groups && FirstNameWith(esNodes, "name", k).None? ==>
      Some(t.groups[k].canonicalName) == FirstNameWith(serverNodes, "hostname", k)
    ensures k in t.groups ==>
      t.groups[k].esData == (match LastWith(esNodes, "name", k) case Some(n) => n case None => EmptyObj)
    ensures k in t.groups ==>
      t.groups[k].serverData == (match LastWith(serverNodes, "hostname", k) case Some(n) => n case None => EmptyObj)
    ensures k in t.groups ==> Extracted(t.groups[k].ip)
  {
    var t1 := EsFold(NoTables, esNodes).value;
    forall k' ensures k' in t1.groups <==> k' in t1.canonical {
      EsFoldAt(NoTables, esNodes, t1, k');
    }
    EsFoldAt(NoTables, esNodes, t1, k);
    ServerFoldAt(t1, serverNodes, t, k);
    WithIffShorts(esNodes, "name", k);
    WithIffShorts(serverNodes, "hostname", k);
  }

  /** Merged is Merge of the two iterated inputs. */
  lemma MergedIsMerge(esData: Json, serverData: Json)
    requires Items(esData).Success? && Items(serverData).Success?
    ensures Merged(esData, serverData) == Merge(Items(esData).value, Items(serverData).value)
  {
  }

  /** The groups among those named in done that the filter keeps. */
  function KeptAmong(groups: map<string, Group>, done: set<string>): map<string, Group>
  {
    map k | k in done && k in groups && Running(groups[k]) == Success(true) :: groups[k]
  }

  /** The groups the filter keeps. */
  function KeptGroups(groups: map<string, Group>): map<string, Group>
  {
    KeptAmong(groups, groups.Keys)
  }

  /** The kept groups are, unchanged, exactly those whose Elasticsearch component has
      status "running". */
  lemma KeptGroupsAt(groups: map<string, Group>, k: string)
    ensures k in KeptGroups(groups) <==>
      k in groups && ComponentField(groups[k].serverData, "elasticsearch", "status") == Some(JStr("running"))
    ensures k in KeptGroups(groups) ==> KeptGroups(groups)[k] == groups[k]
  {
  }

  /** Looking at one more group adds it to the kept ones exactly when its component runs. */
  lemma KeptAmongStep(groups: map<string, Group>, done: set<string>, k: string)
    requires k in groups && k !in done
    ensures KeptAmong(groups, done + {k}) ==
      if Running(groups[k]) == Success(true) then KeptAmong(groups, done)[k := groups[k]] else KeptAmong(groups, done)
  {
  }

  /** The filter loop: it keeps the groups KeptGroups names, and raises when some group's
      server data, components or Elasticsearch component is not a dict. */
  method FilterRunning(groups: map<string, Group>) returns (r: Result<map<string, Group>, string>)
    ensures r.Failure? <==> exists k :: k in groups && Running(groups[k]).Failure?
    ensures r.Success? ==> r.value == KeptGroups(groups)
  {
    var remaining := groups.Keys;
    var kept := map[];
    while remaining != {}
      invariant remaining <= groups.Keys
      invariant forall k :: k in groups && k !in remaining ==> Running(groups[k]).Success?
      invariant kept == KeptAmong(groups, groups.Keys - remaining)
      decreases remaining
    {
      var k :| k in remaining;
      var running := Running(groups[k]);
      if running.Failure? {
        return Failure(running.error);
      }
      KeptAmongStep(groups, groups.Keys - remaining, k);
      if running.value {
        kept := kept[k := groups[k]];
      }
      assert groups.Keys - (remaining - {k}) == (groups.Keys - remaining) + {k};
      remaining := remaining - {k};
    }
    assert groups.Keys - remaining == groups.Keys;
    return Success(kept);
  }

  /** w is the longest canonical name among the kept groups, but at least 25, plus 2. */
  predicate WidthFor(kept: map<string, Group>, w: int)
  {
    w >= 27
    && (forall k :: k in kept ==> |kept[k].canonicalName| + 2 <= w)
    && (w == 27 || exists k :: k in kept && |kept[k].canonicalName| + 2 == w)
  }

  /** The loop measuring the host column. */
  method HostColumnWidth(kept: map<string, Group>) returns (w: int)
    ensures WidthFor(kept, w)
  {
    var maxLen := 25;
    var remaining := kept.Keys;
    while remaining != {}
      invariant remaining <= kept.Keys
      invariant maxLen >= 25
      invariant forall k :: k in kept && k !in remaining ==> |kept[k].canonicalName| <= maxLen
      invariant maxLen == 25 || exists k :: k in kept && |kept[k].canonicalName| == maxLen
      decreases remaining
    {
      var k :| k in remaining;
      if |kept[k].canonicalName| > maxLen {
        maxLen := |kept[k].canonicalName|;
      }
      remaining := remaining - {k};
    }
    w := maxLen + 2;
  }

  /** Python's `a <= b` on str: code point by code point, a proper prefix first. */
  predicate LexLeq(a: string, b: string)
    decreases |a|
  {
    a == [] || (b != [] && (a[0] < b[0] || (a[0] == b[0] && LexLeq(a[1..], b[1..]))))
  }

  lemma {:induction false} LexLeqTotal(a: string, b: string)
    ensures LexLeq(a, b) || LexLeq(b, a)
    decreases |a|
  {
    if a != [] && b != [] && a[0] == b[0] {
      LexLeqTotal(a[1..], b[1..]);
    }
  }

  lemma {:induction false} LexLeqTrans(a: string, b: string, c: string)
    requires LexLeq(a, b) && LexLeq(b, c)
    ensures LexLeq(a, c)
    decreases |a|
  {
    if a != [] && a[0] == b[0] && b[0] == c[0] {
      LexLeqTrans(a[1..], b[1..], c[1..]);
    }
  }

  lemma {:induction false} LexLeqAntisym(a: string, b: string)
    requires LexLeq(a, b) && LexLeq(b, a)
    ensures a == b
    decreases |a|
  {
    if a != [] {
      LexLeqAntisym(a[1..], b[1..]);
      assert a == [a[0]] + a[1..] && b == [b[0]] + b[1..];
    }
  }

  /** Rows in ascending order of their short names. */
  predicate Sorted(rows: seq<(string, Row)>)
  {
    forall i, j :: 0 <= i < j < |rows| ==> LexLeq(rows[i].0, rows[j].0)
  }

  /** Every row's short name is at least k. */
  predicate AllAtLeast(k: string, rows: seq<(string, Row)>)
  {
    forall i :: 0 <= i < |rows| ==> LexLeq(k, rows[i].0)
  }

  /** Put one row into a sorted list, before the first row whose short name is not smaller. */
  function Insert(x: (string, Row), rows: seq<(string, Row)>): seq<(string, Row)>
    decreases |rows|
  {
    if rows == [] then [x]
    else if LexLeq(x.0, rows[0].0) then [x] + rows
    else [rows[0]] + Insert(x, rows[1..])
  }

  /** `rows.sort()`. The short names are distinct dict keys, so the comparison of the
      tuples never reaches the formatted rows. */
  function SortRows(rows: seq<(string, Row)>): seq<(string, Row)>
    decreases |rows|
  {
    if rows == [] then [] else Insert(rows[0], SortRows(rows[1..]))
  }

  lemma {:induction false} InsertKeepsBound(k: string, x: (string, Row), rows: seq<(string, Row)>)
    requires AllAtLeast(k, rows) && LexLeq(k, x.0)
    ensures AllAtLeast(k, Insert(x, rows))
    decreases |rows|
  {
    if rows != [] && !LexLeq(x.0, rows[0].0) {
      InsertKeepsBound(k, x, rows[1..]);
    }
  }

  lemma SortedCons(x: (string, Row), rows: seq<(string, Row)>)
    requires Sorted(rows) && AllAtLeast(x.0, rows)
    ensures Sorted([x] + rows)
  {
    var s := [x] + rows;
    forall i, j | 0 <= i < j < |s| ensures LexLeq(s[i].0, s[j].0) {
      if i > 0 {
        assert s[i] == rows[i - 1] && s[j] == rows[j - 1];
      } else {
        assert s[j] == rows[j - 1];
      }
    }
  }

  lemma {:induction false} InsertSorted(x: (string, Row), rows: seq<(string, Row)>)
    requires Sorted(rows)
    ensures Sorted(Insert(x, rows))
    ensures multiset(Insert(x, rows)) == multiset(rows) + multiset{x}
    decreases |rows|
  {
    if rows == [] {
    } else if LexLeq(x.0, rows[0].0) {
      forall i | 0 <= i < |rows| ensures LexLeq(x.0, rows[i].0) {
        if i > 0 {
          LexLeqTrans(x.0, rows[0].0, rows[i].0);
        }
      }
      SortedCons(x, rows);
    } else {
      var tail := rows[1..];
      assert Sorted(tail) by {
        forall i, j | 0 <= i < j < |tail| ensures LexLeq(tail[i].0, tail[j].0) {
          assert tail[i] == rows[i + 1] && tail[j] == rows[j + 1];
        }
      }
      InsertSorted(x, tail);
      LexLeqTotal(x.0, rows[0].0);
      assert AllAtLeast(rows[0].0, tail) by {
        forall i | 0 <= i < |tail| ensures LexLeq(rows[0].0, tail[i].0) {
          assert tail[i] == rows[i + 1];
        }
      }
      InsertKeepsBound(rows[0].0, x, tail);
      SortedCons(rows[0], Insert(x, tail));
      assert rows == [rows[0]] + tail;
    }
  }

  /** The sort puts the rows in order and neither loses nor adds one. */
  lemma {:induction false} SortRowsSorted(rows: seq<(string, Row)>)
    ensures Sorted(SortRows(rows))
    ensures multiset(SortRows(rows)) == multiset(rows)
    decreases |rows|
  {
    if rows != [] {
      SortRowsSorted(rows[1..]);
      InsertSorted(rows[0], SortRows(rows[1..]));
      assert rows == [rows[0]] + rows[1..];
    }
  }

  /** Each row is a kept group's short name and the row FormatRow builds for it. */
  predicate RowsFrom(kept: map<string, Group>, rows: seq<(string, Row)>)
  {
    forall x :: x in rows ==> x.0 in kept && FormatRow(kept[x.0]) == Success(x.1)
  }

  /** Every short name in keys has a row. */
  predicate Covers(keys: set<string>, rows: seq<(string, Row)>)
  {
    forall k :: k in keys ==> exists x :: x in rows && x.0 == k
  }

  /** Appending a row for k covers k as well. */
  lemma CoversStep(keys: set<string>, rows: seq<(string, Row)>, k: string, row: Row)
    requires Covers(keys, rows)
    ensures Covers(keys + {k}, rows + [(k, row)])
  {
    var rows' := rows + [(k, row)];
    forall k' | k' in keys + {k} ensures exists x :: x in rows' && x.0 == k' {
      if k' == k {
        assert (k, row) in rows';
      } else {
        var x :| x in rows && x.0 == k';
        assert x in rows';
      }
    }
  }

  /** Appending the row FormatRow builds for a kept group keeps the rows built. */
  lemma RowsFromStep(kept: map<string, Group>, rows: seq<(string, Row)>, k: string, row: Row)
    requires RowsFrom(kept, rows) && k in kept && FormatRow(kept[k]) == Success(row)
    ensures RowsFrom(kept, rows + [(k, row)])
  {
    forall x | x in rows + [(k, row)] ensures x.0 in kept && FormatRow(kept[x.0]) == Success(x.1) {
      assert x in rows || x == (k, row);
    }
  }

  /** The table body: one row per kept group, built by FormatRow, in short-name order. */
  predicate TableOf(kept: map<string, Group>, rows: seq<(string, Row)>)
  {
    Sorted(rows) && |rows| == |kept| && RowsFrom(kept, rows) && Covers(kept.Keys, rows)
  }

  /** Sorting keeps the rows, only reordered. */
  lemma SortKeepsRows(rows: seq<(string, Row)>)
    ensures Sorted(SortRows(rows)) && |SortRows(rows)| == |rows|
    ensures forall x :: x in SortRows(rows) <==> x in rows
  {
    SortRowsSorted(rows);
    assert |SortRows(rows)| == |multiset(SortRows(rows))| == |multiset(rows)| == |rows|;
    forall x ensures x in SortRows(rows) <==> x in rows {
      assert x in SortRows(rows) <==> x in multiset(SortRows(rows));
    }
  }

  /** Reordering keeps the rows built from the kept groups. */
  lemma RowsFromReordered(kept: map<string, Group>, rows: seq<(string, Row)>, rows': seq<(string, Row)>)
    requires RowsFrom(kept, rows) && forall x :: x in rows' ==> x in rows
    ensures RowsFrom(kept, rows')
  {
  }

  /** Reordering keeps every short name covered. */
  lemma CoversReordered(keys: set<string>, rows: seq<(string, Row)>, rows': seq<(string, Row)>)
    requires Covers(keys, rows) && forall x :: x in rows ==> x in rows'
    ensures Covers(keys, rows')
  {
  }

  /** Sorting the collected rows gives the table body. */
  lemma SortedTable(kept: map<string, Group>, rows: seq<(string, Row)>)
    requires RowsFrom(kept, rows) && Covers(kept.Keys, rows) && |rows| == |kept|
    ensures TableOf(kept, SortRows(rows))
  {
    SortKeepsRows(rows);
    RowsFromReordered(kept, rows, SortRows(rows));
    CoversReordered(kept.Keys, rows, SortRows(rows));
  }

  /** The loop building one row per kept group, then `rows.sort()`. It raises exactly when
      building some kept group's row raises. */
  method TableRows(kept: map<string, Group>) returns (r: Result<seq<(string, Row)>, string>)
    ensures r.Failure? <==> exists k :: k in kept && FormatRow(kept[k]).Failure?
    ensures r.Success? ==> TableOf(kept, r.value)
  {
    var rows: seq<(string, Row)> := [];
    var remaining := kept.Keys;
    ghost var done: set<string> := {};
    while remaining != {}
      invariant remaining <= kept.Keys && done == kept.Keys - remaining
      invariant forall k :: k in done ==> FormatRow(kept[k]).Success?
      invariant RowsFrom(kept, rows)
      invariant Covers(done, rows)
      invariant |rows| == |kept.Keys| - |remaining|
      decreases remaining
    {
      var k :| k in remaining;
      var row := FormatRow(kept[k]);
      if row.Failure? {
        return Failure(row.error);
      }
      CoversStep(done, rows, k, row.value);
      RowsFromStep(kept, rows, k, row.value);
      rows := rows + [(k, row.value)];
      remaining := remaining - {k};
      done := done + {k};
    }
    SortedTable(kept, rows);
    return Success(SortRows(rows));
  }

  /** The two loops of main() that build the groups, over both decoded inputs. */
  method MergeInputs(esData: Json, serverData: Json) returns (r: Result<Tables, string>)
    ensures r == Merged(esData, serverData)
  {
    var esNodes :- Items(esData);
    var t1 :- MergeEsNodes(NoTables, esNodes);
    var serverNodes :- Items(serverData);
    r := MergeServerNodes(t1, serverNodes);
  }

  /** main() between reading the two files and printing: it fails when the script would
      raise, and otherwise gives the host column width and the sorted table body, built
      from the groups the filter keeps. */
  method JoinNodeTables(esData: Json, serverData: Json) returns (r: Result<(int, seq<(string, Row)>), string>)
    ensures Merged(esData, serverData).Failure? ==> r.Failure?
    ensures r.Success? ==> Merged(esData, serverData).Success?
    ensures r.Success? ==>
      var kept := KeptGroups(Merged(esData, serverData).value.groups);
      WidthFor(kept, r.value.0) && TableOf(kept, r.value.1)
    ensures Merged(esData, serverData).Success? ==>
      var groups := Merged(esData, serverData).value.groups;
      (r.Failure? <==>
        (exists k :: k in groups && Running(groups[k]).Failure?)
        || (exists k :: k in KeptGroups(groups) && FormatRow(KeptGroups(groups)[k]).Failure?))
  {
    var t :- MergeInputs(esData, serverData);
    var kept :- FilterRunning(t.groups);
    var width := HostColumnWidth(kept);
    var rows :- TableRows(kept);
    return Success((width, rows));
  }
}
