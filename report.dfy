/** The audit report: one record per (release, cluster, namespace), written
    as a CSV file, and the set of cluster configuration files the audit
    walks over. */
module Report {
  import opened Wrappers
  import opened Text
  import opened System

  /** The identity of a record. */
  datatype ReportKey = ReportKey(name: string, cluster: string, namespace: string)

  /** What is recorded about a release. `overrides` is kept but never
      written. */
  datatype ReportDetail = ReportDetail(version: string, chartPath: string, chartsSource: string, overrides: string, valueFiles: string)

  const DefaultReportFile: string := "auditreport.csv"
  const Header: string := "Name,Cluster,Namespace,Version,ChartPath,ChartsSource,ValueFiles"

  /** The seven written fields of a record, in column order. */
  function Fields(k: ReportKey, d: ReportDetail): seq<string>
  {
    [k.name, k.cluster, k.namespace, d.version, d.chartPath, d.chartsSource, d.valueFiles]
  }

  /** One CSV line (without its line break). */
  function Row(k: ReportKey, d: ReportDetail): string
  {
    Join(Fields(k, d), ",")
  }

  /** A row holds exactly the seven columns of its record, in header order,
      so long as no field contains a comma; the overrides field is not
      among them. */
  lemma {:induction false} RowFields(k: ReportKey, d: ReportDetail)
    requires forall s :: s in Fields(k, d) ==> ',' !in s
    ensures Split(Row(k, d), ',') == [k.name, k.cluster, k.namespace, d.version, d.chartPath, d.chartsSource, d.valueFiles]
  {
    var fs := Fields(k, d);
    assert forall i :: 0 <= i < |fs| ==> fs[i] in fs;
    SplitJoin(fs, ',');
  }

  /** The rows of `lines` listed in the order `keys`. */
  function RowsIn(keys: seq<ReportKey>, lines: map<ReportKey, ReportDetail>): (r: seq<string>)
    requires forall i :: 0 <= i < |keys| ==> keys[i] in lines
    ensures |r| == |keys|
  {
    if keys == [] then []
    else RowsIn(keys[..|keys| - 1], lines) + [Row(keys[|keys| - 1], lines[keys[|keys| - 1]])]
  }

  /** `keys` lists every key of `m` exactly once. */
  predicate Enumerates<K, V>(keys: seq<K>, m: map<K, V>)
  {
    && (forall i, j :: 0 <= i < j < |keys| ==> keys[i] != keys[j])
    && (forall i :: 0 <= i < |keys| ==> keys[i] in m)
    && (forall k :: k in m ==> k in keys)
  }

  /** An enumeration has as many elements as the map has keys. */
  lemma {:induction false} EnumerationSize<K, V>(keys: seq<K>, m: map<K, V>)
    requires Enumerates(keys, m)
    ensures |keys| == |m|
  {
    if keys == [] {
      assert forall k :: k in m ==> k in keys;
      assert m.Keys == {};
    } else {
      var n := |keys| - 1;
      var last := keys[n];
      var m' := map k | k in m && k != last :: m[k];
      assert Enumerates(keys[..n], m') by {
        forall k | k in m' ensures k in keys[..n] {
          var i :| 0 <= i < |keys| && keys[i] == k;
          assert i != n;
        }
      }
      EnumerationSize(keys[..n], m');
      assert m.Keys == m'.Keys + {last};
    }
  }

  /** Removing one listed key from an enumeration enumerates the map
      without that key. */
  lemma {:induction false} EnumeratesRemove<K, V>(keys: seq<K>, i: nat, m: map<K, V>)
    requires Enumerates(keys, m) && i < |keys|
    ensures Enumerates(keys[..i] + keys[i + 1..], m - {keys[i]})
  {
    var ks := keys[..i] + keys[i + 1..];
    assert forall a :: 0 <= a < |ks| ==> ks[a] == keys[if a < i then a else a + 1];
    forall k | k in m - {keys[i]} ensures k in ks {
      var a :| 0 <= a < |keys| && keys[a] == k;
      assert ks[if a < i then a else a - 1] == k;
    }
  }

  /** Rows of a concatenation are the concatenation of the rows. */
  lemma {:induction false} RowsInAppend(xs: seq<ReportKey>, ys: seq<ReportKey>, lines: map<ReportKey, ReportDetail>)
    requires forall i :: 0 <= i < |xs| ==> xs[i] in lines
    requires forall i :: 0 <= i < |ys| ==> ys[i] in lines
    ensures RowsIn(xs + ys, lines) == RowsIn(xs, lines) + RowsIn(ys, lines)
  {
    if ys == [] {
      assert xs + ys == xs;
    } else {
      var n := |ys| - 1;
      assert (xs + ys)[..|xs + ys| - 1] == xs + ys[..n];
      RowsInAppend(xs, ys[..n], lines);
    }
  }

  /** Rows only look at the listed keys: a larger map agreeing on them
      gives the same rows. */
  lemma {:induction false} RowsInSame(keys: seq<ReportKey>, m1: map<ReportKey, ReportDetail>, m2: map<ReportKey, ReportDetail>)
    requires forall i :: 0 <= i < |keys| ==> keys[i] in m1
    requires forall k :: k in m1 ==> k in m2 && m2[k] == m1[k]
    ensures RowsIn(keys, m1) == RowsIn(keys, m2)
  {
    if keys != [] {
      RowsInSame(keys[..|keys| - 1], m1, m2);
    }
  }

  /** Taking one key out of a list takes its row out. */
  lemma {:induction false} RowsInSplit(keys: seq<ReportKey>, i: nat, lines: map<ReportKey, ReportDetail>)
    requires i < |keys|
    requires forall j :: 0 <= j < |keys| ==> keys[j] in lines
    ensures multiset(RowsIn(keys, lines)) == multiset(RowsIn(keys[..i] + keys[i + 1..], lines)) + multiset{Row(keys[i], lines[keys[i]])}
  {
    var a, b := keys[..i], keys[i + 1..];
    assert keys == a + [keys[i]] + b;
    RowsInAppend(a + [keys[i]], b, lines);
    RowsInAppend(a, [keys[i]], lines);
    RowsInAppend(a, b, lines);
    assert RowsIn([keys[i]], lines) == [Row(keys[i], lines[keys[i]])];
  }

  /** Two enumerations of the same map write the same rows, each as often:
      the report's content does not depend on the map's iteration order. */
  lemma {:induction false} RowsInOrderFree(ks: seq<ReportKey>, js: seq<ReportKey>, lines: map<ReportKey, ReportDetail>)
    requires Enumerates(ks, lines) && Enumerates(js, lines)
    ensures multiset(RowsIn(ks, lines)) == multiset(RowsIn(js, lines))
    decreases |ks|, 1
  {
    if ks != [] {
      var n := |ks| - 1;
      assert ks[n] in lines && ks[n] in js;
      var i :| 0 <= i < |js| && js[i] == ks[n];
      RowsInOrderFreeStep(ks, js, n, i, lines);
    } else {
      EnumerationSize(ks, lines);
      EnumerationSize(js, lines);
    }
  }

  lemma {:induction false} RowsInOrderFreeStep(ks: seq<ReportKey>, js: seq<ReportKey>, n: nat, i: nat, lines: map<ReportKey, ReportDetail>)
    requires Enumerates(ks, lines) && Enumerates(js, lines)
    requires n == |ks| - 1 && i < |js| && js[i] == ks[n]
    ensures multiset(RowsIn(ks, lines)) == multiset(RowsIn(js, lines))
    decreases |ks|, 0
  {
    var last := ks[n];
    var ks', js' := ks[..n], js[..i] + js[i + 1..];
    var lines' := lines - {last};
    EnumeratesRemove(ks, n, lines);
    assert ks[..n] + ks[n + 1..] == ks';
    EnumeratesRemove(js, i, lines);
    RowsInOrderFree(ks', js', lines');
    RowsInSame(ks', lines', lines);
    RowsInSame(js', lines', lines);
    RowsInSplit(ks, n, lines);
    RowsInSplit(js, i, lines);
  }

  lemma {:induction false} UpdateTwice<K, V>(m: map<K, V>, k: K, a: V, b: V)
    ensures m[k := a][k := b] == m[k := b]
  {
  }

  /** The report under construction. */
  class Report {
    var reportFile: string
    var reportHeader: string
    var reportLines: map<ReportKey, ReportDetail>

    /** NewReport: the default file name, the column header, no records. */
    constructor ()
      ensures reportFile == DefaultReportFile && reportHeader == Header && reportLines == map[]
    {
      reportFile := DefaultReportFile;
      reportHeader := Header;
      reportLines := map[];
    }

    /** Records `detail` under `key`, replacing an earlier record with the
        same key; every other record stays. */
    method Add(key: ReportKey, detail: ReportDetail)
      modifies this
      ensures reportFile == old(reportFile) && reportHeader == old(reportHeader)
      ensures reportLines == old(reportLines)[key := detail]
    {
      reportLines := reportLines[key := detail];
    }

    /** Creates (or truncates) `fName` and writes the header line and then
        one row per record, in an unspecified order (`order`). Fails, having
        written nothing, when the file cannot be created. */
    method Write(fName: string, h: Host) returns (err: Option<IOError>, ghost order: seq<ReportKey>)
      modifies h
      ensures err == (if fName in h.facts.unwritable then Some(Unwritable(fName)) else None)
      ensures err.Some? ==> h.State() == old(h.State())
      ensures err.None? ==>
        && Enumerates(order, reportLines)
        && h.trace == old(h.trace)
        && h.stat == old(h.stat)[fName := false]
        && h.written == old(h.written)[fName := [reportHeader] + RowsIn(order, reportLines)]
    {
      order := [];
      var ok := h.Create(fName, false);
      if !ok {
        return Some(Unwritable(fName)), order;
      }
      var lines := reportLines;
      h.Emit(fName, reportHeader);
      UpdateTwice(old(h.written), fName, [], [reportHeader] + []);
      assert [] + [reportHeader] == [reportHeader] + [];
      ghost var rows: seq<string> := [];
      var rest := lines.Keys;
      while rest != {}
        invariant rest <= lines.Keys
        invariant forall i :: 0 <= i < |order| ==> order[i] in lines && order[i] !in rest
        invariant forall i, j :: 0 <= i < j < |order| ==> order[i] != order[j]
        invariant forall k :: k in lines && k !in rest ==> k in order
        invariant rows == RowsIn(order, lines)
        invariant h.trace == old(h.trace) && h.stat == old(h.stat)[fName := false]
        invariant h.written == old(h.written)[fName := [reportHeader] + rows]
        decreases rest
      {
        var key :| key in rest;
        h.Emit(fName, Row(key, lines[key]));
        UpdateTwice(old(h.written), fName, [reportHeader] + rows, [reportHeader] + (rows + [Row(key, lines[key])]));
        assert [reportHeader] + rows + [Row(key, lines[key])] == [reportHeader] + (rows + [Row(key, lines[key])]);
        assert (order + [key])[..|order|] == order;
        order := order + [key];
        rows := rows + [Row(key, lines[key])];
        rest := rest - {key};
      }
      err := None;
    }
  }

  /** The set of cluster configuration file names. */
  class Clusters {
    var clusterList: map<string, bool>

    /** NewClusters: no clusters. */
    constructor ()
      ensures clusterList == map[]
    {
      clusterList := map[];
    }

    /** Inserts `cluster` marked present; an existing entry is left alone. */
    method Add(cluster: string)
      modifies this
      ensures cluster in old(clusterList) ==> clusterList == old(clusterList)
      ensures cluster !in old(clusterList) ==> clusterList == old(clusterList)[cluster := true]
    {
      if cluster !in clusterList {
        clusterList := clusterList[cluster := true];
      }
    }
  }
}
