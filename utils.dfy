/** Audit helpers: the value-file summary written into the report, and the
    listing of the cluster configuration directory. */
module Utils {
  import opened Wrappers
  import opened Text
  import opened System
  import opened Report

  /** The summary of an empty value-file list. */
  const NoOverrides: string := "no overrides"

  /** Each file name preceded by " |", in order. */
  function Bars(vfs: seq<string>): string
  {
    if vfs == [] then "" else Bars(vfs[..|vfs| - 1]) + " |" + vfs[|vfs| - 1]
  }

  /** The ValueFiles column of a report row. */
  function ValueFilesSummary(vfs: seq<string>): string
  {
    if vfs == [] then NoOverrides else Bars(vfs)
  }

  /** The total length of the file names. */
  function TotalLength(vfs: seq<string>): nat
  {
    if vfs == [] then 0 else TotalLength(vfs[..|vfs| - 1]) + |vfs[|vfs| - 1]|
  }

  /** The markers of a concatenation are the concatenation of the markers. */
  lemma {:induction false} BarsAppend(xs: seq<string>, ys: seq<string>)
    ensures Bars(xs + ys) == Bars(xs) + Bars(ys)
  {
    if ys == [] {
      assert xs + ys == xs;
    } else {
      var n := |ys| - 1;
      assert (xs + ys)[..|xs + ys| - 1] == xs + ys[..n];
      BarsAppend(xs, ys[..n]);
    }
  }

  /** Every file name appears, in its place, right after its own " |". */
  lemma {:induction false} BarsAt(vfs: seq<string>, i: nat)
    requires i < |vfs|
    ensures Bars(vfs) == Bars(vfs[..i]) + " |" + vfs[i] + Bars(vfs[i + 1..])
  {
    var a, x, b := vfs[..i], vfs[i], vfs[i + 1..];
    assert vfs == (a + [x]) + b;
    BarsAppend(a + [x], b);
    BarsAppend(a, [x]);
    assert Bars([x]) == " |" + x by {
      assert [x][..0] == [];
    }
  }

  /** A non-empty list's summary is two characters per file plus the
      names, and it starts with " |", so it is never "no overrides": the
      summary tells an empty list from any other. */
  lemma {:induction false} SummaryShape(vfs: seq<string>)
    ensures vfs != [] ==> |ValueFilesSummary(vfs)| == 2 * |vfs| + TotalLength(vfs)
    ensures vfs != [] ==> ValueFilesSummary(vfs)[..2] == " |"
    ensures ValueFilesSummary(vfs) == NoOverrides <==> vfs == []
  {
    if vfs != [] {
      BarsLength(vfs);
      BarsAt(vfs, 0);
      assert vfs[..0] == [];
      var r := ValueFilesSummary(vfs);
      assert r[..2] == " |";
      assert NoOverrides[..2] == "no";
    }
  }

  lemma {:induction false} BarsLength(vfs: seq<string>)
    ensures |Bars(vfs)| == 2 * |vfs| + TotalLength(vfs)
  {
    if vfs != [] {
      BarsLength(vfs[..|vfs| - 1]);
    }
  }

  /** GetValueFiles: the summary of a release's value files, built by
      appending one " |name" per file. */
  method GetValueFiles(valueFiles: seq<string>) returns (reportOverrides: string)
    ensures reportOverrides == ValueFilesSummary(valueFiles)
    ensures valueFiles != [] ==> |reportOverrides| == 2 * |valueFiles| + TotalLength(valueFiles)
  {
    reportOverrides := "";
    if |valueFiles| > 0 {
      var i := 0;
      while i < |valueFiles|
        invariant 0 <= i <= |valueFiles|
        invariant reportOverrides == Bars(valueFiles[..i])
      {
        assert valueFiles[..i + 1][..i] == valueFiles[..i];
        reportOverrides := reportOverrides + " |" + valueFiles[i];
        i := i + 1;
      }
      assert valueFiles[..i] == valueFiles;
      SummaryShape(valueFiles);
    } else {
      reportOverrides := NoOverrides;
    }
  }

  /** The names of the entries that are not directories. */
  function FileNames(entries: seq<DirEntry>): set<string>
  {
    if entries == [] then {}
    else
      var e := entries[|entries| - 1];
      FileNames(entries[..|entries| - 1]) + (if e.isDir then {} else {e.name})
  }

  /** A name is listed exactly when some non-directory entry has it. */
  lemma {:induction false} FileNamesExactly(entries: seq<DirEntry>, name: string)
    ensures name in FileNames(entries) <==> exists i :: 0 <= i < |entries| && !entries[i].isDir && entries[i].name == name
  {
    if entries != [] {
      var n := |entries| - 1;
      FileNamesExactly(entries[..n], name);
      if name in FileNames(entries[..n]) {
        var i :| 0 <= i < n && !entries[..n][i].isDir && entries[..n][i].name == name;
        assert entries[i] == entries[..n][i];
      }
      if exists i :: 0 <= i < |entries| && !entries[i].isDir && entries[i].name == name {
        var i :| 0 <= i < |entries| && !entries[i].isDir && entries[i].name == name;
        if i < n {
          assert entries[..n][i] == entries[i];
        }
      }
    }
  }

  /** The cluster set holding exactly `names`. */
  function Marked(names: set<string>): map<string, bool>
  {
    map c | c in names :: true
  }

  /** ListClusters: the cluster set of the configuration directory's
      non-directory entries. A directory that cannot be listed yields an
      error and an empty set. */
  method ListClusters(configPath: string, h: Host) returns (cl: Clusters, err: Option<IOError>)
    ensures fresh(cl)
    ensures err == (if configPath in h.facts.listings then None else Some(Missing(configPath)))
    ensures err.Some? ==> cl.clusterList == map[]
    ensures err.None? ==> cl.clusterList == Marked(FileNames(h.facts.listings[configPath]))
  {
    cl := new Clusters();
    if configPath !in h.facts.listings {
      return cl, Some(Missing(configPath));
    }
    var dirList := h.facts.listings[configPath];
    var i := 0;
    while i < |dirList|
      invariant 0 <= i <= |dirList|
      invariant cl.clusterList == Marked(FileNames(dirList[..i]))
      modifies cl
    {
      assert dirList[..i + 1][..i] == dirList[..i];
      if !dirList[i].isDir {
        cl.Add(dirList[i].name);
      }
      i := i + 1;
    }
    assert dirList[..i] == dirList;
    err := None;
  }
}
