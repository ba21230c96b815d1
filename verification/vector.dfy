/**
 The 14-slot feature vector shared by the scoring and the training side.
 */
module Vector {

  /** One feature value. The two float features are kept as the integers
      they are computed from: the entropy as its per-character counts, the
      digit ratio as numerator and denominator. */
  datatype Value =
    | Count(n: int)
    | Ratio(num: nat, den: nat)
    | Entropy(counts: seq<nat>)

  /** The uncaught Python exceptions that abort a whole extraction:
      `ZeroDivisionError` from the digit ratio of an empty URL and the
      `ValueError` raised by `urlparse(url).port`. */
  datatype Failure = ZeroDivisionError | PortValueError

  datatype Result<T> = Ok(value: T) | Err(failure: Failure)

  /** Number of slots of a feature vector. */
  const Width: nat := 14

  /** The slot of `has_ip`, the one feature the two sides compute differently. */
  const HasIpSlot: nat := 4

  /** Slot names, in vector order, as the scoring side reports them. */
  const Names: seq<string> := [
    "entropy", "non_alphanum", "url_length", "num_dots", "has_ip",
    "has_suspicious_extension", "sensitive_keywords", "suspicious_patterns",
    "uses_https", "has_port", "num_subdomains", "has_https_token",
    "digit_ratio", "tld_length"
  ]

  /** The vector literal both sides build, slot by slot in `Names` order. */
  function Slots(
    entropy: seq<nat>, nonAlphanum: int, length: int, dots: int, ip: int,
    extension: int, keywords: int, patterns: int, https: int, port: int,
    subdomains: int, httpsToken: int, digitRatio: Value, tld: int): (v: seq<Value>)
    ensures |v| == Width
    ensures v[HasIpSlot] == Count(ip)
  {
    [
      Entropy(entropy), Count(nonAlphanum), Count(length), Count(dots), Count(ip),
      Count(extension), Count(keywords), Count(patterns), Count(https), Count(port),
      Count(subdomains), Count(httpsToken), digitRatio, Count(tld)
    ]
  }

  /** Two vectors that differ only in the `has_ip` argument differ only in
      the `has_ip` slot. */
  lemma SlotsOtherIp(
    entropy: seq<nat>, nonAlphanum: int, length: int, dots: int, ip: int, ip': int,
    extension: int, keywords: int, patterns: int, https: int, port: int,
    subdomains: int, httpsToken: int, digitRatio: Value, tld: int)
    ensures Slots(entropy, nonAlphanum, length, dots, ip, extension, keywords, patterns,
                  https, port, subdomains, httpsToken, digitRatio, tld)[HasIpSlot := Count(ip')]
         == Slots(entropy, nonAlphanum, length, dots, ip', extension, keywords, patterns,
                  https, port, subdomains, httpsToken, digitRatio, tld)
  {
  }

  /** The real value of a ratio; the digit ratio of any non-empty URL lies in [0, 1]. */
  function RatioValue(num: nat, den: nat): real
    requires den > 0
  {
    num as real / den as real
  }

  lemma RatioValueBounds(num: nat, den: nat)
    requires 0 < den && num <= den
    ensures 0.0 <= RatioValue(num, den) <= 1.0
  {
    assert num as real / den as real <= den as real / den as real;
  }

  /** The reported `features` object: each slot under its name. */
  function FeatureMap(v: seq<Value>): (m: map<string, Value>)
    requires |v| == Width
    ensures m.Keys == set k | 0 <= k < Width :: Names[k]
    ensures forall k :: 0 <= k < Width ==> m[Names[k]] == v[k]
  {
    NamesDistinct();
    map k | 0 <= k < Width :: Names[k] := v[k]
  }

  /** No two slots share a name. */
  lemma NamesDistinct()
    ensures forall i, j :: 0 <= i < j < Width ==> Names[i] != Names[j]
  {
    forall i, j | 0 <= i < j < Width
      ensures Names[i] != Names[j]
    {
      assert |Names[i]| != |Names[j]| || Names[i][0] != Names[j][0] || Names[i][4] != Names[j][4];
    }
  }
}
