/** The command builder: an ordered list of typed arguments with two
    projections, the log line (secret values redacted) and the exact argv
    handed to the operating system (never redacted). */
module Commands {
  import opened Wrappers
  import opened Text
  import opened System

  const ArgTypeRaw: nat := 1
  const ArgTypeShortParam: nat := 2
  const ArgTypeLongParam: nat := 3

  /** What the log shows in place of a secret value. */
  const Redaction: string := "[SECRET]"

  /** One argument. `typ` is one of the three codes above or anything else
      (which renders like a raw argument); `valueSecret` asks the log line
      to hide `value`. */
  datatype Arg = Arg(typ: nat, name: string, value: string, valueSecret: bool) {

    /** True for the two flag types, which take two argv words. */
    predicate IsFlag()
    {
      typ == ArgTypeShortParam || typ == ArgTypeLongParam
    }

    /** The flag word: `-name` or `--name`. */
    function FlagWord(): string
      requires IsFlag()
    {
      (if typ == ArgTypeShortParam then "-" else "--") + name
    }

    /** The value as the log shows it. */
    function SafeValue(): (r: string)
      ensures valueSecret ==> r == Redaction
      ensures !valueSecret ==> r == value
    {
      if valueSecret then Redaction else value
    }

    /** The argument as the log shows it: the same words as the argv of
        the argument with its value replaced by what the log may show,
        joined by a space. */
    function SafeString(): (r: string)
      ensures r == Join(this.(value := SafeValue()).UnsafeParts(), " ")
    {
      match typ
      case 1 => SafeValue()
      case 2 => "-" + name + " " + SafeValue()
      case 3 => "--" + name + " " + SafeValue()
      case _ => SafeValue()
    }

    /** The argument's argv words: the flag word (flags only) followed by
        the value, which is never redacted. */
    function UnsafeParts(): (r: seq<string>)
      ensures |r| == (if IsFlag() then 2 else 1)
      ensures r[|r| - 1] == value
      ensures IsFlag() ==> r[0] == FlagWord()
    {
      match typ
      case 1 => [value]
      case 2 => ["-" + name, value]
      case 3 => ["--" + name, value]
      case _ => [value]
    }

    /** The argument the log line describes: its value replaced by the
        redaction marker when secret. */
    function Redacted(): Arg
    {
      this.(value := SafeValue())
    }
  }

  /** The argv words of the parts, in order (the arguments of exec.Command). */
  function Argv(parts: seq<Arg>): seq<string>
  {
    if parts == [] then []
    else Argv(parts[..|parts| - 1]) + parts[|parts| - 1].UnsafeParts()
  }

  /** The full argv of a command: the binary, then the parts' words. */
  function CommandLine(name: string, parts: seq<Arg>): seq<string>
  {
    [name] + Argv(parts)
  }

  /** The log words of the parts, one per part. */
  function LogWords(parts: seq<Arg>): seq<string>
  {
    seq(|parts|, i requires 0 <= i < |parts| => parts[i].SafeString())
  }

  /** The log line of a command: its name and the parts' log words,
      separated by single spaces. */
  function LogLine(name: string, parts: seq<Arg>): string
  {
    Join([name] + LogWords(parts), " ")
  }

  /** Every part with its secret value replaced by the redaction marker. */
  function Redact(parts: seq<Arg>): seq<Arg>
  {
    seq(|parts|, i requires 0 <= i < |parts| => parts[i].Redacted())
  }

  /** The number of argv words the parts take. */
  function Width(parts: seq<Arg>): nat
  {
    if parts == [] then 0
    else Width(parts[..|parts| - 1]) + (if parts[|parts| - 1].IsFlag() then 2 else 1)
  }

  /** A command under construction. */
  class CommandBuilder {
    var name: string
    var parts: seq<Arg>

    constructor (name: string)
      ensures this.name == name && parts == []
    {
      this.name := name;
      parts := [];
    }

    /** Appends the arguments at the end, in order. */
    method Add(args: seq<Arg>)
      modifies this
      ensures name == old(name) && parts == old(parts) + args
    {
      parts := parts + args;
    }

    /** The line the orchestrator logs before running the command. */
    method SafeString() returns (s: string)
      ensures s == LogLine(name, parts)
      ensures s == Join(CommandLine(name, Redact(parts)), " ")
    {
      var words := [name];
      var i := 0;
      while i < |parts|
        invariant 0 <= i <= |parts|
        invariant words == [name] + LogWords(parts[..i])
      {
        LogWordsSnoc(parts, i);
        words := words + [parts[i].SafeString()];
        i := i + 1;
      }
      assert parts[..i] == parts;
      s := Join(words, " ");
      LogLineIsRedactedArgv(name, parts);
    }

    /** The argv the command runs with. */
    method Command() returns (argv: seq<string>)
      ensures argv == CommandLine(name, parts)
      ensures |argv| == 1 + Width(parts)
    {
      var args := [];
      var i := 0;
      while i < |parts|
        invariant 0 <= i <= |parts|
        invariant args == Argv(parts[..i])
      {
        assert parts[..i + 1][..i] == parts[..i];
        args := args + parts[i].UnsafeParts();
        i := i + 1;
      }
      assert parts[..i] == parts;
      argv := [name] + args;
      ArgvWidth(parts);
    }

    /** Runs the command (its argv, standard streams passed through). */
    method Run(h: Host) returns (ok: bool)
      modifies h
      ensures h.State() == Ran(old(h.State()), Invocation(CommandLine(name, parts), None))
      ensures ok == h.facts.succeeds(|old(h.trace)|)
    {
      var argv := Command();
      ok := h.Run(argv, None);
    }
  }

  /** One more part adds its log word. */
  lemma {:induction false} LogWordsSnoc(parts: seq<Arg>, i: nat)
    requires i < |parts|
    ensures LogWords(parts[..i + 1]) == LogWords(parts[..i]) + [parts[i].SafeString()]
  {
    var a, b := LogWords(parts[..i + 1]), LogWords(parts[..i]) + [parts[i].SafeString()];
    assert |a| == |b|;
    forall k | 0 <= k < |a|
      ensures a[k] == b[k]
    {
      assert parts[..i + 1][k] == parts[k];
    }
  }

  /** The argv of a concatenation is the concatenation of the argvs. */
  lemma {:induction false} ArgvAppend(ps: seq<Arg>, qs: seq<Arg>)
    ensures Argv(ps + qs) == Argv(ps) + Argv(qs)
  {
    if qs != [] {
      var qs' := qs[..|qs| - 1];
      assert (ps + qs)[..|ps + qs| - 1] == ps + qs';
      ArgvAppend(ps, qs');
    } else {
      assert ps + qs == ps;
    }
  }

  /** One more part appends its words. */
  lemma {:induction false} ArgvSnoc(ps: seq<Arg>, p: Arg)
    ensures Argv(ps + [p]) == Argv(ps) + p.UnsafeParts()
  {
    assert (ps + [p])[..|ps|] == ps;
  }

  /** A single part's argv is its own words. */
  lemma {:induction false} ArgvOne(p: Arg)
    ensures Argv([p]) == p.UnsafeParts()
  {
    assert [p][..0] == [];
  }

  /** Two parts' argv is the first's words followed by the second's. */
  lemma {:induction false} ArgvPair(p: Arg, q: Arg)
    ensures Argv([p, q]) == p.UnsafeParts() + q.UnsafeParts()
  {
    assert [p, q][..1] == [p];
    ArgvOne(p);
  }

  /** The argv takes one word per raw (or unknown-type) part and two per
      flag part. */
  lemma {:induction false} ArgvWidth(ps: seq<Arg>)
    ensures |Argv(ps)| == Width(ps)
  {
    if ps != [] {
      ArgvWidth(ps[..|ps| - 1]);
    }
  }

  /** The argv never depends on the secret bits. */
  lemma {:induction false} ArgvIgnoresSecrets(ps: seq<Arg>, qs: seq<Arg>)
    requires |ps| == |qs|
    requires forall i :: 0 <= i < |ps| ==> ps[i].(valueSecret := false) == qs[i].(valueSecret := false)
    ensures Argv(ps) == Argv(qs)
  {
    if ps != [] {
      var n := |ps| - 1;
      assert ps[n].(valueSecret := false) == qs[n].(valueSecret := false);
      ArgvIgnoresSecrets(ps[..n], qs[..n]);
    }
  }

  /** Every part's real value reaches the argv, at the end of that part's
      words. */
  lemma {:induction false} ArgvCarriesEveryValue(ps: seq<Arg>, i: nat)
    requires i < |ps|
    ensures Argv(ps) == Argv(ps[..i]) + ps[i].UnsafeParts() + Argv(ps[i + 1..])
    ensures ps[i].value in Argv(ps)
  {
    assert ps == ps[..i] + [ps[i]] + ps[i + 1..];
    ArgvAppend(ps[..i] + [ps[i]], ps[i + 1..]);
    ArgvAppend(ps[..i], [ps[i]]);
    assert Argv([ps[i]]) == ps[i].UnsafeParts() by {
      assert [ps[i]][..0] == [];
    }
    var u := ps[i].UnsafeParts();
    assert u[|u| - 1] == ps[i].value;
  }

  /** The log line is the argv of the redacted command joined by spaces. */
  lemma {:induction false} LogLineIsRedactedArgv(name: string, ps: seq<Arg>)
    ensures LogLine(name, ps) == Join(CommandLine(name, Redact(ps)), " ")
  {
    if ps != [] {
      var n := |ps| - 1;
      var ps' := ps[..n];
      LogLineIsRedactedArgv(name, ps');
      LogLineSnoc(name, ps);
      RedactedArgvSnoc(name, ps);
      var u := ps[n].Redacted().UnsafeParts();
      JoinAppend(CommandLine(name, Redact(ps')), u, " ");
    } else {
      assert [name] + LogWords(ps) == [name];
      assert CommandLine(name, Redact(ps)) == [name];
    }
  }

  lemma {:induction false} LogLineSnoc(name: string, ps: seq<Arg>)
    requires ps != []
    ensures LogLine(name, ps) == LogLine(name, ps[..|ps| - 1]) + " " + Join(ps[|ps| - 1].Redacted().UnsafeParts(), " ")
  {
    var words := [name] + LogWords(ps);
    assert words[..|words| - 1] == [name] + LogWords(ps[..|ps| - 1]);
  }

  lemma {:induction false} RedactedArgvSnoc(name: string, ps: seq<Arg>)
    requires ps != []
    ensures CommandLine(name, Redact(ps)) == CommandLine(name, Redact(ps[..|ps| - 1])) + ps[|ps| - 1].Redacted().UnsafeParts()
  {
    var rs := Redact(ps);
    assert rs[..|rs| - 1] == Redact(ps[..|ps| - 1]);
  }

  /** The log line never depends on the value of a secret part: two
      commands that differ only in the values of their secret parts log
      the same line. */
  lemma {:induction false} LogLineHidesSecretValues(name: string, ps: seq<Arg>, qs: seq<Arg>)
    requires |ps| == |qs|
    requires forall i :: 0 <= i < |ps| ==>
      ps[i].typ == qs[i].typ && ps[i].name == qs[i].name && ps[i].valueSecret == qs[i].valueSecret
      && (!ps[i].valueSecret ==> ps[i].value == qs[i].value)
    ensures LogLine(name, ps) == LogLine(name, qs)
  {
    assert Redact(ps) == Redact(qs);
    LogLineIsRedactedArgv(name, ps);
    LogLineIsRedactedArgv(name, qs);
  }
}
