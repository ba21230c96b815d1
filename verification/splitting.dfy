/**
 Python's `s.split(sep)` for a one-character separator, with its inverse
 `sep.join(parts)`. Host names are cut into dot-separated labels with it.
 */
module Splitting {
  import opened Text

  /** `s.split(sep)`: never empty, and one more part than separators. */
  function Split(s: string, sep: char): (parts: seq<string>)
    ensures |parts| == CountChar(s, sep) + 1
    decreases |s|
  {
    if |s| == 0 then [[]]
    else
      var rest := Split(s[1..], sep);
      if s[0] == sep then [[]] + rest else [[s[0]] + rest[0]] + rest[1..]
  }

  /** No part contains the separator. */
  lemma {:induction false} SplitPartsFree(s: string, sep: char)
    ensures forall k :: 0 <= k < |Split(s, sep)| ==> sep !in Split(s, sep)[k]
    decreases |s|
  {
    if |s| > 0 {
      SplitPartsFree(s[1..], sep);
      var rest := Split(s[1..], sep);
      var parts := Split(s, sep);
      forall k | 0 <= k < |parts|
        ensures sep !in parts[k]
      {
        if s[0] == sep {
          if k > 0 {
            assert parts[k] == rest[k - 1];
          }
        } else if k > 0 {
          assert parts[k] == rest[k];
        } else {
          assert sep !in rest[0];
          assert parts[0] == [s[0]] + rest[0];
        }
      }
    }
  }

  /** `len(parts[-1])`, with the `IndexError` of an empty list caught as 0. */
  function LastLength(parts: seq<string>): nat
  {
    if |parts| == 0 then 0 else |parts[|parts| - 1]|
  }

  /** `sep.join(parts)` */
  function Join(parts: seq<string>, sep: char): string
  {
    if |parts| == 0 then []
    else if |parts| == 1 then parts[0]
    else parts[0] + [sep] + Join(parts[1..], sep)
  }

  /** Gluing a character onto the first part glues it onto the joined text. */
  lemma JoinGlue(c: char, rest: seq<string>, sep: char)
    requires |rest| >= 1
    ensures Join([[c] + rest[0]] + rest[1..], sep) == [c] + Join(rest, sep)
  {
    var parts := [[c] + rest[0]] + rest[1..];
    assert parts[1..] == rest[1..];
    if |rest| > 1 {
      assert parts[0] + [sep] + Join(rest[1..], sep) == [c] + (rest[0] + [sep] + Join(rest[1..], sep));
    }
  }

  /** Joining the parts back gives the original text. */
  lemma {:induction false} JoinSplit(s: string, sep: char)
    ensures Join(Split(s, sep), sep) == s
  {
    if |s| > 0 {
      var rest := Split(s[1..], sep);
      JoinSplit(s[1..], sep);
      assert s == [s[0]] + s[1..];
      if s[0] == sep {
        assert ([[]] + rest)[1..] == rest;
      } else {
        JoinGlue(s[0], rest, sep);
      }
    }
  }

  /** Text before the first separator becomes the first part. */
  lemma {:induction false} SplitCons(a: string, b: string, sep: char)
    requires sep !in a
    ensures Split(a + [sep] + b, sep) == [a] + Split(b, sep)
    decreases |a|
  {
    var s := a + [sep] + b;
    if |a| == 0 {
      assert s == [sep] + b;
      assert s[1..] == b;
    } else {
      assert s[1..] == a[1..] + [sep] + b;
      SplitCons(a[1..], b, sep);
      assert [s[0]] + a[1..] == a;
    }
  }

  /** A text without separators is a single part. */
  lemma {:induction false} SplitNoSep(a: string, sep: char)
    requires sep !in a
    ensures Split(a, sep) == [a]
    decreases |a|
  {
    if |a| > 0 {
      assert sep !in a[1..];
      SplitNoSep(a[1..], sep);
      assert [a[0]] + a[1..] == a;
    }
  }

  /** Splitting the joined parts gives the parts back. */
  lemma {:induction false} SplitJoin(parts: seq<string>, sep: char)
    requires |parts| >= 1
    requires forall k :: 0 <= k < |parts| ==> sep !in parts[k]
    ensures Split(Join(parts, sep), sep) == parts
  {
    if |parts| == 1 {
      SplitNoSep(parts[0], sep);
    } else {
      SplitJoin(parts[1..], sep);
      SplitCons(parts[0], Join(parts[1..], sep), sep);
      assert parts == [parts[0]] + parts[1..];
    }
  }

  /** `s.split(sep)[0]` */
  function FirstPart(s: string, sep: char): string
  {
    Split(s, sep)[0]
  }

  /** When there are at least two parts, the first one is followed in `s` by
      the separator, and the remainder splits into the remaining parts. */
  lemma {:induction false} SplitHead(s: string, sep: char)
    requires |Split(s, sep)| >= 2
    ensures |FirstPart(s, sep)| < |s|
    ensures s[..|FirstPart(s, sep)|] == FirstPart(s, sep)
    ensures s[|FirstPart(s, sep)|] == sep
    ensures Split(s[|FirstPart(s, sep)| + 1..], sep) == Split(s, sep)[1..]
    decreases |s|
  {
    var rest := Split(s[1..], sep);
    if s[0] == sep {
      assert Split(s, sep) == [[]] + rest;
    } else {
      assert Split(s, sep) == [[s[0]] + rest[0]] + rest[1..];
      SplitHead(s[1..], sep);
      var q0 := rest[0];
      assert FirstPart(s, sep) == [s[0]] + q0;
      assert s[1..][..|q0|] == q0;
      assert s[..|q0| + 1] == [s[0]] + s[1..][..|q0|];
      assert s[|q0| + 1] == s[1..][|q0|];
      assert s[|q0| + 2..] == s[1..][|q0| + 1..];
    }
  }

  /** `s.split(sep)[-1]` */
  function LastPart(s: string, sep: char): string
  {
    var parts := Split(s, sep);
    parts[|parts| - 1]
  }

  /** The last part of a split is the whole text when no separator occurs,
      and otherwise the last part of the split of the tail. */
  lemma LastOfSplit(s: string, sep: char)
    requires |s| > 0
    ensures LastPart(s, sep) == if s[0] != sep && sep !in s[1..] then s else LastPart(s[1..], sep)
  {
    var rest := Split(s[1..], sep);
    if s[0] == sep {
      assert Split(s, sep) == [[]] + rest;
    } else if sep !in s[1..] {
      SplitNoSep(s[1..], sep);
      assert Split(s, sep) == [[s[0]] + s[1..]];
      assert [s[0]] + s[1..] == s;
    } else {
      assert Split(s, sep) == [[s[0]] + rest[0]] + rest[1..];
    }
  }

  /** The last part is a suffix, preceded by the separator when it is not
      the whole text. */
  lemma {:induction false} SplitLastSuffix(s: string, sep: char)
    ensures EndsWith(s, LastPart(s, sep))
    ensures |LastPart(s, sep)| < |s| ==> s[|s| - |LastPart(s, sep)| - 1] == sep
    decreases |s|
  {
    if |s| > 0 {
      LastOfSplit(s, sep);
      if s[0] != sep && sep !in s[1..] {
        assert s[0..] == s;
      } else {
        var t := LastPart(s[1..], sep);
        SplitLastSuffix(s[1..], sep);
        assert s[1..][|s| - 1 - |t|..] == s[|s| - |t|..];
        if s[0] != sep {
          SplitPartsFree(s[1..], sep);
          assert sep !in t;
          SuffixOfSameLength(s[1..], t);
          assert |t| < |s| - 1;
        }
        if |t| < |s| - 1 {
          assert s[1..][|s| - 1 - |t| - 1] == s[|s| - |t| - 1];
        }
      }
    }
  }

  /** With a separator in the text, the last part is shorter than the text. */
  lemma SplitLastShorter(s: string, sep: char)
    requires sep in s
    ensures |LastPart(s, sep)| < |s|
  {
    var t := LastPart(s, sep);
    SplitLastSuffix(s, sep);
    SplitPartsFree(s, sep);
    assert sep !in t;
    SuffixOfSameLength(s, t);
  }

  /** The last part is the text after the last separator, or the whole text
      when there is no separator. */
  lemma SplitLast(s: string, sep: char)
    ensures EndsWith(s, LastPart(s, sep))
    ensures |LastPart(s, sep)| < |s| ==> s[|s| - |LastPart(s, sep)| - 1] == sep
    ensures |LastPart(s, sep)| == |s| <==> sep !in s
  {
    SplitLastSuffix(s, sep);
    if sep in s {
      SplitLastShorter(s, sep);
    } else {
      SplitNoSep(s, sep);
    }
  }

  /** `n` is the length of the text after the last `sep` in `s`, or of the
      whole of `s` when it has none. */
  predicate IsLastPartLength(s: string, sep: char, n: nat)
  {
    && n <= |s|
    && sep !in s[|s| - n..]
    && (n < |s| ==> s[|s| - n - 1] == sep)
  }

  /** `len(s.split(sep)[-1])` */
  function LastPartLength(s: string, sep: char): (n: nat)
    ensures IsLastPartLength(s, sep, n)
    ensures n == |s| <==> sep !in s
  {
    SplitLast(s, sep);
    SplitPartsFree(s, sep);
    assert sep !in LastPart(s, sep);
    LastLength(Split(s, sep))
  }

  /** A separator-free suffix that is the whole text or follows a separator
      is at least as long as any other. */
  lemma LastPartLengthAtLeast(s: string, sep: char, n: nat, m: nat)
    requires IsLastPartLength(s, sep, n) && IsLastPartLength(s, sep, m)
    ensures m <= n
  {
    assert forall i :: |s| - m <= i < |s| ==> s[i] != sep by {
      forall i | |s| - m <= i < |s| ensures s[i] != sep {
        assert s[|s| - m..][i - (|s| - m)] == s[i];
      }
    }
  }

  /** The description determines the length: `LastPartLength` is the only
      length that meets it. */
  lemma LastPartLengthUnique(s: string, sep: char, n: nat)
    requires IsLastPartLength(s, sep, n)
    ensures n == LastPartLength(s, sep)
  {
    LastPartLengthAtLeast(s, sep, n, LastPartLength(s, sep));
    LastPartLengthAtLeast(s, sep, LastPartLength(s, sep), n);
  }
}
