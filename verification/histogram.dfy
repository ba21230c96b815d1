/**
 The integer part of the entropy feature: the distinct characters of a URL in
 first-occurrence order (`dict.fromkeys(list(url))`) and how often each occurs
 (`url.count(c)`). The base-2 logarithms taken over these counts are not part
 of the model.
 */
module Histogram {
  import opened Text

  /** The characters of `s`, each once, in order of first occurrence. */
  function Distinct(s: string): (d: string)
    ensures NoDup(d)
    ensures forall c :: c in d <==> c in s
    ensures |d| <= |s|
    decreases |s|
  {
    if |s| == 0 then []
    else
      var d := Distinct(s[..|s| - 1]);
      var x := s[|s| - 1];
      assert s == s[..|s| - 1] + [x];
      if x in d then d else d + [x]
  }

  /** `dict.fromkeys` keeps first-occurrence order: a character listed
      earlier first occurs earlier in the text. */
  lemma {:induction false} DistinctOrder(s: string)
    ensures forall i, j :: 0 <= i < j < |Distinct(s)| ==> Find(s, Distinct(s)[i]) < Find(s, Distinct(s)[j])
    decreases |s|
  {
    if |s| > 0 {
      var init := s[..|s| - 1];
      var x := s[|s| - 1];
      var d := Distinct(init);
      assert s == init + [x];
      DistinctOrder(init);
      forall c | c in init
        ensures Find(s, c) == Find(init, c)
      {
        var k := Find(init, c);
        assert s[..k] == init[..k];
        FindUnique(s, c, k);
      }
      if x !in d {
        assert s[..|init|] == init;
        FindUnique(s, x, |init|);
      }
    }
  }

  /** `[url.count(c) for c in d]` */
  function CountsOf(d: string, s: string): (counts: seq<nat>)
    ensures |counts| == |d|
  {
    if |d| == 0 then [] else [CountChar(s, d[0])] + CountsOf(d[1..], s)
  }

  function Sum(xs: seq<nat>): nat
  {
    if |xs| == 0 then 0 else xs[0] + Sum(xs[1..])
  }

  /** Appending a character to the text adds, to the summed counts, the
      number of times that character is listed. */
  lemma {:induction false} SumCountsSnoc(d: string, s: string, x: char)
    ensures Sum(CountsOf(d, s + [x])) == Sum(CountsOf(d, s)) + CountChar(d, x)
  {
    if |d| > 0 {
      SumCountsSnoc(d[1..], s, x);
      CountCharSnoc(s, x, d[0]);
    }
  }

  /** Listing one more character adds its count to the sum. */
  lemma {:induction false} SumCountsListSnoc(d: string, y: char, s: string)
    ensures Sum(CountsOf(d + [y], s)) == Sum(CountsOf(d, s)) + CountChar(s, y)
  {
    if |d| == 0 {
      assert (d + [y])[1..] == [];
    } else {
      assert (d + [y])[1..] == d[1..] + [y];
      SumCountsListSnoc(d[1..], y, s);
    }
  }

  /** In a duplicate-free list a character is listed once or not at all. */
  lemma {:induction false} CountNoDup(d: string, x: char)
    requires NoDup(d)
    ensures CountChar(d, x) == if x in d then 1 else 0
    decreases |d|
  {
    if |d| > 0 {
      assert NoDup(d[1..]) by {
        forall i, j | 0 <= i < j < |d[1..]| ensures d[1..][i] != d[1..][j] {
          assert d[1..][i] == d[i + 1] && d[1..][j] == d[j + 1];
        }
      }
      CountNoDup(d[1..], x);
      if d[0] == x {
        assert x !in d[1..] by {
          forall j | 0 <= j < |d[1..]| ensures d[1..][j] != x {
            assert d[1..][j] == d[j + 1];
          }
        }
      } else {
        assert x in d <==> x in d[1..] by {
          assert d == [d[0]] + d[1..];
        }
      }
    }
  }

  /** The per-character counts of `calculate_entropy`: one positive count per
      distinct character, namely how often that character occurs, together
      accounting for every character of the URL. */
  function CharCounts(s: string): (counts: seq<nat>)
    ensures |counts| == |Distinct(s)|
    ensures forall k :: 0 <= k < |counts| ==> counts[k] == CountChar(s, Distinct(s)[k])
    ensures forall k :: 0 <= k < |counts| ==> counts[k] >= 1
    ensures Sum(counts) == |s|
  {
    var d := Distinct(s);
    var counts := CountsOf(d, s);
    assert forall k :: 0 <= k < |d| ==> counts[k] == CountChar(s, d[k]) by {
      CountsOfAt(d, s);
    }
    CharCountsSum(s);
    counts
  }

  lemma {:induction false} CountsOfAt(d: string, s: string)
    ensures forall k :: 0 <= k < |d| ==> CountsOf(d, s)[k] == CountChar(s, d[k])
  {
    if |d| > 0 {
      CountsOfAt(d[1..], s);
    }
  }

  /** The counts over the distinct characters add up to the length. */
  lemma {:induction false} CharCountsSum(s: string)
    ensures Sum(CountsOf(Distinct(s), s)) == |s|
    decreases |s|
  {
    if |s| > 0 {
      var init := s[..|s| - 1];
      var x := s[|s| - 1];
      assert s == init + [x];
      var d := Distinct(init);
      CharCountsSum(init);
      SumCountsSnoc(d, init, x);
      CountNoDup(d, x);
      if x !in d {
        CountCharSnoc(init, x, x);
        SumCountsListSnoc(d, x, s);
      }
    }
  }
}
