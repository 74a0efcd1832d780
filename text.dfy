/** The few pieces of Go's `strings` and `fmt` packages the orchestrator
    relies on, written out over `seq<char>`. */
module Text {

  /** strings.Join: the elements in order, separated by `sep`. */
  function Join(ss: seq<string>, sep: string): string
  {
    if |ss| == 0 then ""
    else if |ss| == 1 then ss[0]
    else Join(ss[..|ss| - 1], sep) + sep + ss[|ss| - 1]
  }

  /** Joining two non-empty lists is joining their joins. */
  lemma {:induction false} JoinAppend(xs: seq<string>, ys: seq<string>, sep: string)
    requires xs != [] && ys != []
    ensures Join(xs + ys, sep) == Join(xs, sep) + sep + Join(ys, sep)
  {
    var zs := xs + ys;
    assert zs[..|zs| - 1] == xs + ys[..|ys| - 1];
    if |ys| > 1 {
      JoinAppend(xs, ys[..|ys| - 1], sep);
    }
  }

  /** Joining one more element appends the separator and the element. */
  lemma {:induction false} JoinSnoc(ss: seq<string>, s: string, sep: string)
    ensures Join(ss + [s], sep) == if ss == [] then s else Join(ss, sep) + sep + s
  {
    assert (ss + [s])[..|ss|] == ss;
  }

  /** strings.Split(s, string([sep])): the pieces between the separators. */
  function Split(s: string, sep: char): (r: seq<string>)
    ensures |r| >= 1
  {
    if s == [] then [""]
    else
      var pieces := Split(s[..|s| - 1], sep);
      if s[|s| - 1] == sep then pieces + [""]
      else pieces[..|pieces| - 1] + [pieces[|pieces| - 1] + [s[|s| - 1]]]
  }

  /** Appending text without a separator extends the last piece only. */
  lemma {:induction false} SplitExtend(s: string, t: string, sep: char)
    requires sep !in t
    ensures var a := Split(s, sep); var b := Split(s + t, sep);
      b == a[..|a| - 1] + [a[|a| - 1] + t]
  {
    var a := Split(s, sep);
    if t != [] {
      var t', c := t[..|t| - 1], t[|t| - 1];
      assert c in t;
      SplitExtend(s, t', sep);
      var b' := Split(s + t', sep);
      assert b' == a[..|a| - 1] + [a[|a| - 1] + t'];
      assert (s + t)[..|s + t| - 1] == s + t';
      assert (s + t)[|s + t| - 1] == c;
      assert Split(s + t, sep) == b'[..|b'| - 1] + [b'[|b'| - 1] + [c]];
      assert b'[..|b'| - 1] == a[..|a| - 1];
      assert (a[|a| - 1] + t') + [c] == a[|a| - 1] + t;
    } else {
      assert s + t == s;
      assert a[|a| - 1] + t == a[|a| - 1];
      assert a[..|a| - 1] + [a[|a| - 1]] == a;
    }
  }

  /** Splitting a join of separator-free pieces gives the pieces back. */
  lemma {:induction false} SplitJoin(ss: seq<string>, sep: char)
    requires ss != []
    requires forall k :: 0 <= k < |ss| ==> sep !in ss[k]
    ensures Split(Join(ss, [sep]), sep) == ss
  {
    if |ss| == 1 {
      SplitExtend([], ss[0], sep);
      assert [] + ss[0] == ss[0] == Join(ss, [sep]);
      assert Split([], sep) == [""];
      assert "" + ss[0] == ss[0];
      assert [ss[0]] == ss;
    } else {
      var init := ss[..|ss| - 1];
      var last := ss[|ss| - 1];
      SplitJoin(init, sep);
      var j := Join(init, [sep]);
      assert Join(ss, [sep]) == (j + [sep]) + last;
      assert (j + [sep])[..|j + [sep]| - 1] == j;
      assert Split(j + [sep], sep) == init + [""];
      SplitExtend(j + [sep], last, sep);
      assert (init + [""])[..|init|] == init;
      assert "" + last == last;
      assert init + [last] == ss;
    }
  }

  /** strings.HasSuffix */
  predicate HasSuffix(s: string, suffix: string)
  {
    |suffix| <= |s| && s[|s| - |suffix|..] == suffix
  }

  /** unicode.IsSpace, the predicate strings.TrimSpace trims by: the ASCII
      white space, NEL, NO-BREAK SPACE and the other Unicode White_Space
      code points. */
  predicate IsSpace(c: char)
  {
    var n := c as int;
    (0x09 <= n <= 0x0D) || n == 0x20 || n == 0x85 || n == 0xA0 || n == 0x1680
    || (0x2000 <= n <= 0x200A) || n == 0x2028 || n == 0x2029 || n == 0x202F
    || n == 0x205F || n == 0x3000
  }

  /** Drops the leading white space: what is left is a suffix of `s`,
      everything dropped is white space, and what is left does not start
      with white space. */
  function TrimLeft(s: string): (r: string)
    ensures |r| <= |s| && r == s[|s| - |r|..]
    ensures forall k :: 0 <= k < |s| - |r| ==> IsSpace(s[k])
    ensures r != [] ==> !IsSpace(r[0])
  {
    if |s| > 0 && IsSpace(s[0]) then TrimLeft(s[1..]) else s
  }

  /** Drops the trailing white space: what is left is a prefix of `s`,
      everything dropped is white space, and what is left does not end
      with white space. */
  function TrimRight(s: string): (r: string)
    ensures |r| <= |s| && r == s[..|r|]
    ensures forall k :: |r| <= k < |s| ==> IsSpace(s[k])
    ensures r != [] ==> !IsSpace(r[|r| - 1])
  {
    if |s| > 0 && IsSpace(s[|s| - 1]) then TrimRight(s[..|s| - 1]) else s
  }

  /** `r` is `s[i..j]` with only white space outside it. */
  predicate SliceBetweenSpace(s: string, r: string, i: int, j: int)
  {
    && 0 <= i <= j <= |s| && r == s[i..j]
    && (forall k :: 0 <= k < i ==> IsSpace(s[k]))
    && (forall k :: j <= k < |s| ==> IsSpace(s[k]))
  }

  /** strings.TrimSpace: a contiguous slice of the input with only white
      space outside it and no white space at either of its ends. */
  function TrimSpace(s: string): (r: string)
    ensures exists i, j :: SliceBetweenSpace(s, r, i, j)
    ensures r != [] ==> !IsSpace(r[0]) && !IsSpace(r[|r| - 1])
  {
    var l := TrimLeft(s);
    var r := TrimRight(l);
    TrimBothSlice(s, l, r);
    r
  }

  /** Trimming both ends cuts out the slice between the two runs of white
      space. */
  lemma {:induction false} TrimBothSlice(s: string, l: string, r: string)
    requires |l| <= |s| && l == s[|s| - |l|..] && (forall k :: 0 <= k < |s| - |l| ==> IsSpace(s[k]))
    requires |r| <= |l| && r == l[..|r|] && (forall k :: |r| <= k < |l| ==> IsSpace(l[k]))
    ensures SliceBetweenSpace(s, r, |s| - |l|, |s| - |l| + |r|)
  {
    var i := |s| - |l|;
    forall k | i + |r| <= k < |s|
      ensures IsSpace(s[k])
    {
      assert s[k] == l[k - i];
    }
  }

  /** A string without white space at either end is its own trim. */
  lemma {:induction false} TrimSpaceKeeps(s: string)
    requires s != [] && !IsSpace(s[0]) && !IsSpace(s[|s| - 1])
    ensures TrimSpace(s) == s
  {
    assert TrimLeft(s) == s;
    assert TrimRight(s) == s;
  }

  /** The last element of strings.Split(s, "/"): everything after the last
      slash, or all of `s` when it has none. */
  function LastSegment(s: string): (r: string)
    ensures '/' !in r
    ensures |r| <= |s| && r == s[|s| - |r|..]
    ensures |r| < |s| ==> s[|s| - |r| - 1] == '/'
  {
    if |s| == 0 || s[|s| - 1] == '/' then ""
    else LastSegment(s[..|s| - 1]) + [s[|s| - 1]]
  }

  /** An empty string, or one ending in a slash, has an empty last segment. */
  lemma {:induction false} LastSegmentAfterSlash(s: string)
    requires s == "" || s[|s| - 1] == '/'
    ensures LastSegment(s) == ""
  {
  }

  predicate IsDigit(c: char)
  {
    '0' <= c <= '9'
  }

  function DigitChar(d: nat): (c: char)
    requires d < 10
    ensures IsDigit(c) && c as int - '0' as int == d
  {
    "0123456789"[d]
  }

  /** fmt.Sprint of an unsigned integer: its decimal digits, without
      leading zeros. */
  function NatToString(n: nat): (r: string)
    ensures |r| >= 1 && forall k :: 0 <= k < |r| ==> IsDigit(r[k])
    ensures |r| > 1 ==> r[0] != '0'
  {
    if n < 10 then [DigitChar(n)] else NatToString(n / 10) + [DigitChar(n % 10)]
  }

  /** The number a string of decimal digits denotes. */
  function DecimalValue(s: string): nat
    requires forall k :: 0 <= k < |s| ==> IsDigit(s[k])
  {
    if s == [] then 0
    else
      assert IsDigit(s[|s| - 1]);
      DecimalValue(s[..|s| - 1]) * 10 + (s[|s| - 1] as int - '0' as int)
  }

  /** Rendering a number in decimal loses nothing: reading the digits back
      gives the number. */
  lemma {:induction false} DecimalRoundTrip(n: nat)
    ensures DecimalValue(NatToString(n)) == n
  {
    if n >= 10 {
      DecimalRoundTrip(n / 10);
      var s := NatToString(n);
      assert s[..|s| - 1] == NatToString(n / 10);
    }
  }
}
