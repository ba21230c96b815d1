/**
 The training side's IP test, `re.search(r'(\d{1,3}\.){3}\d{1,3}', url)`:
 an unanchored search for a dotted quad anywhere in the URL, with `\d` read
 as an ASCII digit. The matcher below follows the regex engine (every start
 position, every run length of one to three digits); `IsDottedQuad` is an
 independent description through `split('.')`, and `SearchSpec` shows the
 two agree.
 */
module IpRegex {
  import opened Text
  import opened Splitting

  /** `\d{1,3}` matching the whole of `t`. */
  predicate DigitRun(t: string)
  {
    1 <= |t| <= 3 && forall i :: 0 <= i < |t| ==> IsDigit(t[i])
  }

  /** `(\d{1,3}\.){groups}\d{1,3}` matches a prefix of `s`: the engine tries
      a first run of each length from one to three digits. */
  predicate PrefixMatch(s: string, groups: nat)
    decreases groups, 1
  {
    RunThen(s, 1, groups) || RunThen(s, 2, groups) || RunThen(s, 3, groups)
  }

  /** The first `n` characters are digits and, unless this was the last run,
      a dot follows and the remaining groups match after it. */
  predicate RunThen(s: string, n: nat, groups: nat)
    requires 1 <= n <= 3
    decreases groups, 0
  {
    && n <= |s|
    && DigitRun(s[..n])
    && (groups == 0 || (n < |s| && s[n] == '.' && PrefixMatch(s[n + 1..], groups - 1)))
  }

  /** `re.search`: a match starting at some position of `s`. */
  predicate Search(s: string)
    decreases |s|
  {
    PrefixMatch(s, 3) || (|s| > 0 && Search(s[1..]))
  }

  /** `t` is `groups + 1` runs of one to three digits joined by dots. */
  predicate DottedRuns(t: string, groups: nat)
  {
    && |Split(t, '.')| == groups + 1
    && forall k :: 0 <= k < |Split(t, '.')| ==> DigitRun(Split(t, '.')[k])
  }

  /** Four runs of one to three digits joined by dots, such as "192.168.1.1"
      (and also "999.0.00.7": no octet range is checked). */
  predicate IsDottedQuad(t: string)
  {
    DottedRuns(t, 3)
  }

  /** Some slice of `s` is a dotted quad. */
  ghost predicate HasDottedQuad(s: string)
  {
    exists i, j :: 0 <= i <= j <= |s| && IsDottedQuad(s[i..j])
  }

  lemma DigitRunNoDot(t: string)
    requires DigitRun(t)
    ensures '.' !in t
  {
    assert forall i :: 0 <= i < |t| ==> t[i] != '.';
  }

  /** Prepending a run to a list of runs keeps every entry a run. */
  lemma AllRunsCons(head: string, tail: seq<string>)
    requires DigitRun(head)
    requires forall k :: 0 <= k < |tail| ==> DigitRun(tail[k])
    ensures forall k :: 0 <= k < |[head] + tail| ==> DigitRun(([head] + tail)[k])
  {
    forall k | 0 <= k < |[head] + tail|
      ensures DigitRun(([head] + tail)[k])
    {
      if k > 0 {
        assert ([head] + tail)[k] == tail[k - 1];
      }
    }
  }

  /** A run, a dot, and `groups + 1` dotted runs make `groups + 2` dotted runs. */
  lemma DottedRunsCons(head: string, u: string, groups: nat)
    requires DigitRun(head) && DottedRuns(u, groups)
    ensures DottedRuns(head + ['.'] + u, groups + 1)
  {
    DigitRunNoDot(head);
    SplitCons(head, u, '.');
    AllRunsCons(head, Split(u, '.'));
  }

  lemma {:induction false} RunThenSound(s: string, n: nat, groups: nat)
    requires 1 <= n <= 3 && RunThen(s, n, groups)
    ensures exists j :: 0 <= j <= |s| && DottedRuns(s[..j], groups)
    decreases groups, 0
  {
    var head := s[..n];
    DigitRunNoDot(head);
    if groups == 0 {
      SplitNoSep(head, '.');
      assert DottedRuns(s[..n], 0);
    } else {
      var rest := s[n + 1..];
      PrefixMatchSound(rest, groups - 1);
      var j' :| 0 <= j' <= |rest| && DottedRuns(rest[..j'], groups - 1);
      assert s[..n + 1 + j'] == head + ['.'] + rest[..j'];
      DottedRunsCons(head, rest[..j'], groups - 1);
    }
  }

  lemma {:induction false} PrefixMatchSound(s: string, groups: nat)
    requires PrefixMatch(s, groups)
    ensures exists j :: 0 <= j <= |s| && DottedRuns(s[..j], groups)
    decreases groups, 1
  {
    if RunThen(s, 1, groups) {
      RunThenSound(s, 1, groups);
    } else if RunThen(s, 2, groups) {
      RunThenSound(s, 2, groups);
    } else {
      RunThenSound(s, 3, groups);
    }
  }

  /** Dropping the first entry of a list of runs keeps every entry a run. */
  lemma AllRunsTail(labels: seq<string>)
    requires |labels| > 0
    requires forall k :: 0 <= k < |labels| ==> DigitRun(labels[k])
    ensures forall k :: 0 <= k < |labels[1..]| ==> DigitRun(labels[1..][k])
  {
    forall k | 0 <= k < |labels[1..]|
      ensures DigitRun(labels[1..][k])
    {
      assert labels[1..][k] == labels[k + 1];
    }
  }

  /** The first label of a dotted-runs prefix is a run followed by a dot. */
  lemma FirstRunHead(s: string, groups: nat, j: int)
    requires groups > 0 && 0 <= j <= |s| && DottedRuns(s[..j], groups)
    ensures 1 <= |FirstPart(s[..j], '.')| <= 3
    ensures |FirstPart(s[..j], '.')| < j
    ensures DigitRun(s[..|FirstPart(s[..j], '.')|])
    ensures s[|FirstPart(s[..j], '.')|] == '.'
  {
    var t := s[..j];
    SplitHead(t, '.');
    var n := |FirstPart(t, '.')|;
    assert DigitRun(Split(t, '.')[0]);
    assert s[..n] == t[..n];
    assert s[n] == t[n];
  }

  /** After the first label and its dot, the remaining labels are runs. */
  lemma FirstRunTail(s: string, groups: nat, j: int)
    requires groups > 0 && 0 <= j <= |s| && DottedRuns(s[..j], groups)
    ensures |FirstPart(s[..j], '.')| < j
    ensures DottedRuns(s[..j][|FirstPart(s[..j], '.')| + 1..], groups - 1)
  {
    var t := s[..j];
    SplitHead(t, '.');
    var n := |FirstPart(t, '.')|;
    AllRunsTail(Split(t, '.'));
  }

  /** Splitting off the first label of a dotted-runs prefix. */
  lemma FirstRun(s: string, groups: nat, j: int) returns (n: nat)
    requires groups > 0 && 0 <= j <= |s| && DottedRuns(s[..j], groups)
    ensures 1 <= n <= 3 && n < j
    ensures DigitRun(s[..n]) && s[n] == '.'
    ensures DottedRuns(s[n + 1..][..j - n - 1], groups - 1)
  {
    FirstRunHead(s, groups, j);
    FirstRunTail(s, groups, j);
    n := |FirstPart(s[..j], '.')|;
    assert s[n + 1..][..j - n - 1] == s[..j][n + 1..];
  }

  /** With no dot, the only label is the whole text. */
  lemma SingleRun(t: string)
    requires DottedRuns(t, 0)
    ensures DigitRun(t)
  {
    var labels := Split(t, '.');
    assert CountChar(t, '.') == 0;
    SplitNoSep(t, '.');
    assert labels[0] == t;
  }

  /** A first run of any admissible length is a match. */
  lemma RunThenMatches(s: string, n: nat, groups: nat)
    requires 1 <= n <= 3 && RunThen(s, n, groups)
    ensures PrefixMatch(s, groups)
  {
    if n == 1 {
      assert RunThen(s, 1, groups);
    } else if n == 2 {
      assert RunThen(s, 2, groups);
    } else {
      assert RunThen(s, 3, groups);
    }
  }

  lemma LastRunMatches(s: string, j: int)
    requires 0 <= j <= |s| && DottedRuns(s[..j], 0)
    ensures PrefixMatch(s, 0)
  {
    SingleRun(s[..j]);
    assert RunThen(s, j, 0);
    RunThenMatches(s, j, 0);
  }

  /** A run, a dot and a match of the remaining groups are a match. */
  lemma RunDotMatches(s: string, n: nat, groups: nat)
    requires 1 <= n <= 3 && n < |s| && groups > 0
    requires DigitRun(s[..n]) && s[n] == '.' && PrefixMatch(s[n + 1..], groups - 1)
    ensures PrefixMatch(s, groups)
  {
    assert RunThen(s, n, groups);
    RunThenMatches(s, n, groups);
  }

  lemma {:induction false} PrefixMatchComplete(s: string, groups: nat, j: int)
    requires 0 <= j <= |s| && DottedRuns(s[..j], groups)
    ensures PrefixMatch(s, groups)
    decreases groups
  {
    if groups == 0 {
      LastRunMatches(s, j);
    } else {
      var n := FirstRun(s, groups, j);
      PrefixMatchComplete(s[n + 1..], groups - 1, j - n - 1);
      RunDotMatches(s, n, groups);
    }
  }

  /** The matcher agrees with the split-based description on prefixes. */
  lemma PrefixMatchSpec(s: string, groups: nat)
    ensures PrefixMatch(s, groups) <==> exists j :: 0 <= j <= |s| && DottedRuns(s[..j], groups)
  {
    if PrefixMatch(s, groups) {
      PrefixMatchSound(s, groups);
    }
    if j :| 0 <= j <= |s| && DottedRuns(s[..j], groups) {
      PrefixMatchComplete(s, groups, j);
    }
  }

  lemma QuadFromStart(s: string)
    requires PrefixMatch(s, 3)
    ensures exists i, j :: 0 <= i <= j <= |s| && IsDottedQuad(s[i..j])
  {
    PrefixMatchSound(s, 3);
    var j :| 0 <= j <= |s| && DottedRuns(s[..j], 3);
    assert s[0..j] == s[..j];
    assert IsDottedQuad(s[0..j]);
  }

  lemma ShiftQuad(s: string, i: int, j: int)
    requires |s| > 0 && 0 <= i <= j <= |s| - 1 && IsDottedQuad(s[1..][i..j])
    ensures IsDottedQuad(s[i + 1..j + 1])
  {
    assert s[1..][i..j] == s[i + 1..j + 1];
  }

  lemma {:induction false} SearchSound(s: string)
    requires Search(s)
    ensures exists i, j :: 0 <= i <= j <= |s| && IsDottedQuad(s[i..j])
    decreases |s|
  {
    if PrefixMatch(s, 3) {
      QuadFromStart(s);
    } else {
      SearchSound(s[1..]);
      var i, j :| 0 <= i <= j <= |s| - 1 && IsDottedQuad(s[1..][i..j]);
      ShiftQuad(s, i, j);
    }
  }

  lemma QuadAtStart(s: string, j: int)
    requires 0 <= j <= |s| && IsDottedQuad(s[..j])
    ensures Search(s)
  {
    PrefixMatchComplete(s, 3, j);
  }

  /** A match found in a suffix is a match of the whole text. */
  lemma {:induction false} SearchFromSuffix(s: string, i: int)
    requires 0 <= i <= |s| && Search(s[i..])
    ensures Search(s)
    decreases i
  {
    if i == 0 {
      assert s[0..] == s;
    } else {
      assert s[i - 1..][1..] == s[i..];
      SearchFromSuffix(s, i - 1);
    }
  }

  lemma SearchComplete(s: string, i: int, j: int)
    requires 0 <= i <= j <= |s| && IsDottedQuad(s[i..j])
    ensures Search(s)
  {
    assert s[i..][..j - i] == s[i..j];
    QuadAtStart(s[i..], j - i);
    SearchFromSuffix(s, i);
  }

  /** The search succeeds exactly when some slice of `s` is a dotted quad. */
  lemma SearchSpec(s: string)
    ensures Search(s) <==> HasDottedQuad(s)
  {
    if Search(s) {
      SearchSound(s);
    }
    if i, j :| 0 <= i <= j <= |s| && IsDottedQuad(s[i..j]) {
      SearchComplete(s, i, j);
    }
  }
}
