/** The outside world the orchestrator acts on. External programs are black
    boxes: every run is recorded, in order, as an invocation (its exact argv
    and the text fed on its standard input), and whether it exits zero and
    what it prints are read off an oracle indexed by the run's position in
    that record. The environment, file contents and directory listings are
    fixed facts; which paths exist and which files were written change as
    the run proceeds. */
module System {
  import opened Wrappers

  /** One run of an external program: argv[0] is the binary. */
  datatype Invocation = Invocation(argv: seq<string>, stdin: Option<string>)

  /** One entry of a directory listing (os.FileInfo reduced to what the
      orchestrator asks of it). */
  datatype DirEntry = DirEntry(name: string, isDir: bool)

  /** File-system failures the orchestrator reports. */
  datatype IOError = Missing(path: string) | Unwritable(path: string)

  /** What the model does not decide. */
  datatype Facts = Facts(
    env: map<string, string>,              // the process environment
    contents: map<string, string>,         // ioutil.ReadFile; a path not here cannot be read
    listings: map<string, seq<DirEntry>>,  // ioutil.ReadDir; a path not here cannot be listed
    urlPaths: map<string, string>,         // the Path of url.Parse; a URL not here does not parse
    decoded: map<string, string>,          // base64 decoding; a text not here does not decode
    unwritable: set<string>,               // paths where creating a file or directory fails
    succeeds: nat -> bool,                 // whether the n-th external run exits zero
    output: nat -> string)                 // what the n-th external run prints on stdout

  /** The part of the world a run changes. `stat` maps every existing path
      to whether it is a directory (os.Stat); `written` holds what the
      orchestrator wrote to each file it created, one entry per write. */
  datatype World = World(trace: seq<Invocation>, stat: map<string, bool>, written: map<string, seq<string>>)

  /** Whether os.Stat finds `path`: a recorded path, or a recorded
      directory named with one trailing slash. Paths are otherwise compared
      as written. */
  predicate Exists(stat: map<string, bool>, path: string)
  {
    path in stat || (|path| > 1 && path[|path| - 1] == '/' && path[..|path| - 1] in stat && stat[path[..|path| - 1]])
  }

  /** Whether os.Stat reports `path` as a directory: a path recorded as one,
      or a recorded directory named with a trailing slash. */
  predicate IsDirectory(stat: map<string, bool>, path: string)
  {
    if path in stat then stat[path] else Exists(stat, path)
  }

  /** A recorded directory is found under its name with a trailing slash. */
  lemma {:induction false} DirectoryWithSlashExists(stat: map<string, bool>, dir: string)
    requires dir in stat && stat[dir] && dir != ""
    ensures Exists(stat, dir + "/")
  {
    assert (dir + "/")[..|dir|] == dir;
  }

  /** os.Getenv: the empty string for an unset variable. */
  function Getenv(f: Facts, key: string): string
  {
    if key in f.env then f.env[key] else ""
  }

  /** The world after one more external run. */
  function Ran(w: World, inv: Invocation): World
  {
    w.(trace := w.trace + [inv])
  }

  /** The machine the orchestrator runs on. */
  class Host {
    const facts: Facts
    var trace: seq<Invocation>
    var stat: map<string, bool>
    var written: map<string, seq<string>>

    function State(): World
      reads this
    {
      World(trace, stat, written)
    }

    constructor (facts: Facts, stat: map<string, bool>)
      ensures this.facts == facts && State() == World([], stat, map[])
    {
      this.facts := facts;
      this.trace := [];
      this.stat := stat;
      this.written := map[];
    }

    /** exec.Cmd.Run: runs `argv` with `stdin`; true iff it exits zero. */
    method Run(argv: seq<string>, stdin: Option<string>) returns (ok: bool)
      modifies this
      ensures State() == Ran(old(State()), Invocation(argv, stdin))
      ensures ok == facts.succeeds(|old(trace)|)
    {
      ok := facts.succeeds(|trace|);
      trace := trace + [Invocation(argv, stdin)];
    }

    /** exec.Cmd.Output: runs `argv` and captures its standard output. */
    method Output(argv: seq<string>) returns (ok: bool, out: string)
      modifies this
      ensures State() == Ran(old(State()), Invocation(argv, None))
      ensures ok == facts.succeeds(|old(trace)|) && out == facts.output(|old(trace)|)
    {
      ok, out := facts.succeeds(|trace|), facts.output(|trace|);
      trace := trace + [Invocation(argv, None)];
    }

    /** os.Mkdir, or os.Create of an empty (truncated) file. */
    method Create(path: string, isDir: bool) returns (ok: bool)
      modifies this
      ensures ok == (path !in facts.unwritable)
      ensures !ok ==> State() == old(State())
      ensures ok ==> trace == old(trace) && stat == old(stat)[path := isDir]
      ensures ok ==> written == if isDir then old(written) else old(written)[path := []]
    {
      ok := path !in facts.unwritable;
      if ok {
        stat := stat[path := isDir];
        if !isDir {
          written := written[path := []];
        }
      }
    }

    /** ioutil.WriteFile: creates (or truncates) `path` and writes `content`. */
    method WriteFile(path: string, content: string) returns (ok: bool)
      modifies this
      ensures ok == (path !in facts.unwritable)
      ensures !ok ==> State() == old(State())
      ensures ok ==> State() == old(State()).(stat := old(stat)[path := false], written := old(written)[path := [content]])
    {
      ok := path !in facts.unwritable;
      if ok {
        stat := stat[path := false];
        written := written[path := [content]];
      }
    }

    /** A file that an external program left behind. */
    method Appeared(path: string)
      modifies this
      ensures State() == old(State()).(stat := old(stat)[path := false])
    {
      stat := stat[path := false];
    }

    /** Writes one line to the end of a file created before. */
    method Emit(path: string, line: string)
      requires path in written
      modifies this
      ensures trace == old(trace) && stat == old(stat)
      ensures written == old(written)[path := old(written)[path] + [line]]
    {
      written := written[path := written[path] + [line]];
    }
  }
}
