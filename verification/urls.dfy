/**
 The parts of `urllib.parse` and `socket` the features consult.

 The host part (`urlparse(url).netloc`) is computed by a simplified extractor
 whose rules are stated here as an assumption, not as a faithful copy of the
 library: the scheme is the text before the first ':' when it starts with a
 letter and uses only letters, digits, '+', '-' and '.'; after it, a netloc is
 present only when the remainder starts with "//", and it runs up to the next
 '/', '?' or '#'. Whitespace stripping, IPv6 brackets and the library's
 `ValueError`s are not modelled.

 `socket.inet_aton` and `urlparse(url).port` are foreign: they are supplied
 as the fields of `Oracles` and nothing is assumed about them.
 */
module Urls {
  import opened Text

  predicate IsSchemeChar(c: char)
  {
    IsLetter(c) || IsDigit(c) || c == '+' || c == '-' || c == '.'
  }

  /** `url[:i]` is a scheme followed by ':' at index `i`: it starts with a
      letter and holds only scheme characters, so this ':' is the first one. */
  predicate SchemeEndsAt(url: string, i: int)
  {
    0 < i < |url| && url[i] == ':' && IsLetter(url[0])
    && forall k :: 0 <= k < i ==> IsSchemeChar(url[k])
  }

  /** No ':' precedes the one that ends a scheme. */
  lemma SchemeColonIsFirst(url: string, i: int)
    requires SchemeEndsAt(url, i)
    ensures Find(url, ':') == i
  {
    assert ':' !in url[..i] by {
      forall k | 0 <= k < i ensures url[..i][k] != ':' { assert IsSchemeChar(url[k]); }
    }
    FindUnique(url, ':', i);
  }

  /** The URL without its scheme and the ':' after it, when it has one; the
      whole URL otherwise. */
  function AfterScheme(url: string): (rest: string)
    ensures EndsWith(url, rest)
    ensures |rest| < |url| ==> SchemeEndsAt(url, |url| - |rest| - 1)
    ensures rest == url <==> forall i :: !SchemeEndsAt(url, i)
  {
    var i := Find(url, ':');
    assert forall j :: SchemeEndsAt(url, j) ==> i == j by {
      forall j | SchemeEndsAt(url, j) ensures i == j { SchemeColonIsFirst(url, j); }
    }
    if SchemeEndsAt(url, i) then
      url[i + 1..]
    else
      url
  }

  predicate IsNetlocDelimiter(c: char)
  {
    c == '/' || c == '?' || c == '#'
  }

  /** The first index at or after `from` holding '/', '?' or '#', else |s|. */
  function DelimiterFrom(s: string, from: nat): (e: nat)
    requires from <= |s|
    ensures from <= e <= |s|
    ensures forall k :: from <= k < e ==> !IsNetlocDelimiter(s[k])
    ensures e < |s| ==> IsNetlocDelimiter(s[e])
    decreases |s| - from
  {
    if from == |s| || IsNetlocDelimiter(s[from]) then from else DelimiterFrom(s, from + 1)
  }

  /** Any slice of a suffix occurs in the text. */
  lemma SuffixSliceContained(url: string, rest: string, i: int, j: int)
    requires EndsWith(url, rest) && 0 <= i <= j <= |rest|
    ensures Contains(url, rest[i..j])
  {
    var k := |url| - |rest|;
    assert url[k + i..k + j] == rest[i..j];
    assert OccursAt(url, rest[i..j], k + i);
  }

  /** `host` is the netloc of `rest`, the text after the scheme: when `rest`
      starts with "//", everything after it up to the first '/', '?' or '#';
      the empty string otherwise. */
  predicate IsNetlocOf(rest: string, host: string)
  {
    if StartsWith(rest, "//") then
      && 2 + |host| <= |rest|
      && rest[2..2 + |host|] == host
      && (2 + |host| == |rest| || IsNetlocDelimiter(rest[2 + |host|]))
    else
      host == []
  }

  /** The assumed `urlparse(url).netloc`. */
  function Netloc(url: string): (host: string)
    ensures IsNetlocOf(AfterScheme(url), host)
    ensures forall k :: 0 <= k < |host| ==> !IsNetlocDelimiter(host[k])
    ensures Contains(url, host)
    ensures !Contains(url, "//") ==> host == []
  {
    var rest := AfterScheme(url);
    if StartsWith(rest, "//") then
      var e := DelimiterFrom(rest, 2);
      SuffixSliceContained(url, rest, 0, 2);
      SuffixSliceContained(url, rest, 2, e);
      assert IsNetlocOf(rest, rest[2..e]);
      rest[2..e]
    else
      assert OccursAt(url, [], 0);
      assert IsNetlocOf(rest, []);
      []
  }

  /** What `urlparse(url).port` yields: no port, a port number, or the
      `ValueError` raised for a port that is not a number in range. */
  datatype Port = NoPort | Port(number: nat) | InvalidPort

  /** The foreign calls the features depend on. */
  datatype Oracles = Oracles(
    inetAton: string -> bool,   // `socket.inet_aton(host)` succeeds
    port: string -> Port        // `urlparse(url).port`
  )
}
