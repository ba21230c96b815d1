/**
 Character classes and string primitives the URL features are built from.

 Python's `str.isalnum`, `str.isdigit` and `str.lower` are Unicode-aware; this
 module narrows them to their ASCII behaviour: a character outside ASCII is
 neither a letter nor a digit and is left unchanged by lowering.
 */
module Text {

  predicate IsDigit(c: char) { '0' <= c <= '9' }

  predicate IsUpper(c: char) { 'A' <= c <= 'Z' }

  predicate IsLowerLetter(c: char) { 'a' <= c <= 'z' }

  predicate IsLetter(c: char) { IsUpper(c) || IsLowerLetter(c) }

  /** `c.isalnum()` */
  predicate IsAlnum(c: char) { IsLetter(c) || IsDigit(c) }

  /** No element occurs twice. */
  predicate NoDup<T(==)>(s: seq<T>)
  {
    forall i, j :: 0 <= i < j < |s| ==> s[i] != s[j]
  }

  /* ---------------------------------------------------------------------- */
  /* Lowering                                                                */
  /* ---------------------------------------------------------------------- */

  function LowerChar(c: char): char
  {
    if IsUpper(c) then (c as int + 32) as char else c
  }

  /** `s.lower()` */
  function Lower(s: string): (r: string)
    ensures |r| == |s|
    ensures forall i :: 0 <= i < |s| ==> r[i] == LowerChar(s[i])
  {
    seq(|s|, i requires 0 <= i < |s| => LowerChar(s[i]))
  }

  /** Lowering never produces an upper-case letter and keeps every other
      character that is not an upper-case letter. */
  lemma LowerCharSpec(c: char)
    ensures !IsUpper(LowerChar(c))
    ensures IsLetter(LowerChar(c)) <==> IsLetter(c)
    ensures !IsUpper(c) ==> LowerChar(c) == c
  {
  }

  /** Lowering commutes with slicing and concatenation. */
  lemma LowerSlice(s: string, i: int, j: int)
    requires 0 <= i <= j <= |s|
    ensures Lower(s)[i..j] == Lower(s[i..j])
  {
  }

  lemma LowerAppend(a: string, b: string)
    ensures Lower(a + b) == Lower(a) + Lower(b)
  {
  }

  /* ---------------------------------------------------------------------- */
  /* Prefix, suffix, substring                                               */
  /* ---------------------------------------------------------------------- */

  /** `s.startswith(p)` */
  predicate StartsWith(s: string, p: string)
  {
    |p| <= |s| && s[..|p|] == p
  }

  /** `s.endswith(p)` */
  predicate EndsWith(s: string, p: string)
  {
    |p| <= |s| && s[|s| - |p|..] == p
  }

  lemma SuffixOfSameLength(s: string, t: string)
    ensures EndsWith(s, t) && |t| == |s| ==> t == s
  {
    assert s[0..] == s;
  }

  /** `p` occurs in `s` starting at index `i`. */
  predicate OccursAt(s: string, p: string, i: int)
  {
    0 <= i && i + |p| <= |s| && s[i..i + |p|] == p
  }

  lemma OccursAtShift(s: string, p: string, i: int)
    requires |s| > 0 && 0 <= i
    ensures OccursAt(s[1..], p, i) <==> OccursAt(s, p, i + 1)
  {
    if 0 <= i && i + |p| <= |s| - 1 {
      assert s[1..][i..i + |p|] == s[i + 1..i + 1 + |p|];
    }
  }

  /** `p in s`: the substring test, tried at every start position. */
  function Contains(s: string, p: string): (r: bool)
    ensures r <==> exists i :: OccursAt(s, p, i)
    decreases |s|
  {
    if |s| < |p| then false
    else if s[..|p|] == p then
      assert OccursAt(s, p, 0);
      true
    else
      var r := Contains(s[1..], p);
      assert r <==> exists i :: OccursAt(s, p, i) by {
        forall i | OccursAt(s, p, i) ensures i >= 1 && OccursAt(s[1..], p, i - 1) {
          assert i != 0 by { assert s[0..|p|] == s[..|p|]; }
          OccursAtShift(s, p, i - 1);
        }
        forall i | OccursAt(s[1..], p, i) ensures OccursAt(s, p, i + 1) {
          OccursAtShift(s, p, i);
        }
      }
      r
  }

  /** Lowering preserves an occurrence of a pattern free of upper-case letters. */
  lemma ContainsLower(s: string, p: string)
    requires forall i :: 0 <= i < |p| ==> !IsUpper(p[i])
    requires Contains(s, p)
    ensures Contains(Lower(s), p)
  {
    var i :| OccursAt(s, p, i);
    var low := Lower(s);
    assert low[i..i + |p|] == p by {
      forall k | 0 <= k < |p|
        ensures low[i + k] == p[k]
      {
        assert s[i + k] == p[k];
      }
    }
    assert OccursAt(low, p, i);
  }

  /** `sum(1 for p in pats if p in s)`: how many patterns occur in `s`. */
  function CountContained(s: string, pats: seq<string>): (n: nat)
    ensures n <= |pats|
    ensures n > 0 <==> exists k :: 0 <= k < |pats| && Contains(s, pats[k])
  {
    if |pats| == 0 then 0
    else
      var rest := CountContained(s, pats[1..]);
      assert forall k :: 0 < k < |pats| ==> pats[k] == pats[1..][k - 1];
      (if Contains(s, pats[0]) then 1 else 0) + rest
  }

  /** The patterns of `pats` that occur in `s`. */
  function ContainedSet(s: string, pats: seq<string>): set<string>
  {
    set p | p in pats && Contains(s, p)
  }

  lemma ContainedSetCons(s: string, pats: seq<string>)
    requires |pats| > 0
    ensures ContainedSet(s, pats)
         == (if Contains(s, pats[0]) then {pats[0]} else {}) + ContainedSet(s, pats[1..])
  {
    assert forall p :: p in pats <==> p == pats[0] || p in pats[1..];
  }

  /** Each distinct pattern is counted once, however often it occurs. */
  lemma {:induction false} CountContainedIsSetSize(s: string, pats: seq<string>)
    requires NoDup(pats)
    ensures CountContained(s, pats) == |ContainedSet(s, pats)|
  {
    if |pats| > 0 {
      var tail := pats[1..];
      assert NoDup(tail) by {
        forall i, j | 0 <= i < j < |tail| ensures tail[i] != tail[j] {
          assert tail[i] == pats[i + 1] && tail[j] == pats[j + 1];
        }
      }
      CountContainedIsSetSize(s, tail);
      assert pats[0] !in tail by {
        forall j | 0 <= j < |tail| ensures tail[j] != pats[0] {
          assert tail[j] == pats[j + 1];
        }
      }
      ContainedSetCons(s, pats);
      assert pats[0] !in ContainedSet(s, tail);
    }
  }

  /** `any(s.endswith(p) for p in pats)` */
  function AnyEndsWith(s: string, pats: seq<string>): (r: bool)
    ensures r <==> exists k :: 0 <= k < |pats| && EndsWith(s, pats[k])
  {
    if |pats| == 0 then false
    else
      assert forall k :: 0 < k < |pats| ==> pats[k] == pats[1..][k - 1];
      EndsWith(s, pats[0]) || AnyEndsWith(s, pats[1..])
  }

  /** `any(p in s for p in pats)` */
  function AnyContained(s: string, pats: seq<string>): (r: bool)
    ensures r <==> exists k :: 0 <= k < |pats| && Contains(s, pats[k])
  {
    if |pats| == 0 then false
    else
      assert forall k :: 0 < k < |pats| ==> pats[k] == pats[1..][k - 1];
      Contains(s, pats[0]) || AnyContained(s, pats[1..])
  }

  /** `s[k:]` for a non-negative `k`: empty once `k` reaches the length. */
  function Drop(s: string, k: nat): (r: string)
    ensures |s| <= k ==> r == []
    ensures k < |s| ==> |r| == |s| - k && forall i :: 0 <= i < |r| ==> r[i] == s[k + i]
  {
    if |s| <= k then [] else s[k..]
  }

  /** `p in s[n:].lower()`: an occurrence in the lowered text that starts at
      index `n` or later, for a non-empty pattern. */
  lemma ContainsDropLower(s: string, n: nat, p: string)
    requires p != []
    ensures Contains(Lower(Drop(s, n)), p) <==> exists i :: n <= i && OccursAt(Lower(s), p, i)
  {
    if n < |s| {
      var tail := Drop(s, n);
      assert tail == s[n..];
      LowerSlice(s, n, |s|);
      forall i | OccursAt(Lower(tail), p, i) ensures OccursAt(Lower(s), p, i + n) {
        assert Lower(s)[i + n..i + n + |p|] == Lower(tail)[i..i + |p|];
      }
      forall i | n <= i && OccursAt(Lower(s), p, i) ensures OccursAt(Lower(tail), p, i - n) {
        assert Lower(s)[i..i + |p|] == Lower(tail)[i - n..i - n + |p|];
      }
    } else {
      assert Lower(Drop(s, n)) == [];
    }
  }

  /** `s.find(c)`: the first index of `c`, or -1. */
  function Find(s: string, c: char): (i: int)
    ensures -1 <= i < |s|
    ensures i == -1 <==> c !in s
    ensures 0 <= i ==> s[i] == c && c !in s[..i]
  {
    if |s| == 0 then -1
    else if s[0] == c then 0
    else
      var j := Find(s[1..], c);
      if j == -1 then -1
      else
        assert s[..j + 1] == [s[0]] + s[1..][..j];
        j + 1
  }

  /** The first index holding `c` is the one `Find` returns. */
  lemma FindUnique(s: string, c: char, i: int)
    requires 0 <= i < |s| && s[i] == c && c !in s[..i]
    ensures Find(s, c) == i
  {
    var j := Find(s, c);
    assert j >= 0 by { assert c in s; }
    assert forall k :: 0 <= k < i ==> s[k] != c by {
      forall k | 0 <= k < i ensures s[k] != c { assert s[..i][k] == s[k]; }
    }
    assert forall k :: 0 <= k < j ==> s[k] != c by {
      forall k | 0 <= k < j ensures s[k] != c { assert s[..j][k] == s[k]; }
    }
  }

  /* ---------------------------------------------------------------------- */
  /* Counting                                                                */
  /* ---------------------------------------------------------------------- */

  /** `s.count(c)` for a single character. */
  function CountChar(s: string, c: char): (n: nat)
    ensures n <= |s|
    ensures n == 0 <==> c !in s
  {
    if |s| == 0 then 0
    else
      var rest := CountChar(s[1..], c);
      assert c in s <==> s[0] == c || c in s[1..];
      (if s[0] == c then 1 else 0) + rest
  }

  /** `sum(c.isdigit() for c in s)`: none exactly when no character is a
      digit, and all exactly when every character is. */
  function CountDigits(s: string): (n: nat)
    ensures n <= |s|
    ensures n == 0 <==> forall i :: 0 <= i < |s| ==> !IsDigit(s[i])
    ensures n == |s| <==> forall i :: 0 <= i < |s| ==> IsDigit(s[i])
  {
    if |s| == 0 then 0
    else
      var rest := CountDigits(s[1..]);
      assert forall i :: 0 < i < |s| ==> s[i] == s[1..][i - 1];
      (if IsDigit(s[0]) then 1 else 0) + rest
  }

  /** `sum(not c.isalnum() for c in s)`: none exactly when every character is
      alphanumeric. */
  function CountNonAlnum(s: string): (n: nat)
    ensures n <= |s|
    ensures n == 0 <==> forall i :: 0 <= i < |s| ==> IsAlnum(s[i])
  {
    if |s| == 0 then 0
    else
      var rest := CountNonAlnum(s[1..]);
      assert forall i :: 0 < i < |s| ==> s[i] == s[1..][i - 1];
      (if IsAlnum(s[0]) then 0 else 1) + rest
  }

  /** Both counts are taken character by character, so they add up over a
      concatenation. */
  lemma {:induction false} CountDigitsAppend(a: string, b: string)
    ensures CountDigits(a + b) == CountDigits(a) + CountDigits(b)
    ensures CountNonAlnum(a + b) == CountNonAlnum(a) + CountNonAlnum(b)
  {
    if |a| == 0 {
      assert a + b == b;
    } else {
      assert (a + b)[1..] == a[1..] + b;
      CountDigitsAppend(a[1..], b);
    }
  }

  lemma {:induction false} CountCharAppend(a: string, b: string, c: char)
    ensures CountChar(a + b, c) == CountChar(a, c) + CountChar(b, c)
  {
    if |a| == 0 {
      assert a + b == b;
    } else {
      assert (a + b)[1..] == a[1..] + b;
      CountCharAppend(a[1..], b, c);
    }
  }

  lemma CountCharSnoc(s: string, y: char, c: char)
    ensures CountChar(s + [y], c) == CountChar(s, c) + if y == c then 1 else 0
  {
    CountCharAppend(s, [y], c);
    assert [y][1..] == [];
  }

  /** A non-alphanumeric character is counted both as itself and as a
      non-alphanumeric character, and digits are characters: so
      count(c) <= non-alphanumeric count <= length, and digits <= length. */
  lemma {:induction false} CountBounds(s: string, c: char)
    requires !IsAlnum(c)
    ensures CountChar(s, c) <= CountNonAlnum(s) <= |s|
    ensures CountDigits(s) <= |s|
  {
    if |s| > 0 {
      CountBounds(s[1..], c);
    }
  }
}
