/**
 The scoring side (`server/python/predict.py`): the per-URL feature
 extractors, the whitelist short-circuit, the 14-slot vector handed to the
 scaler and classifier, and the response built from the verdict.
 */
module Predict {
  import opened Text
  import opened Splitting
  import opened Histogram
  import opened Urls
  import opened Vector

  const SuspiciousExtensions: seq<string> := [".exe", ".zip", ".scr", ".rar", ".php", ".apk"]

  const Keywords: seq<string> := ["login", "secure", "account", "update", "verify", "bank", "webscr"]

  const Patterns: seq<string> := ["cgi-bin", "base64", "redirect=", "confirm", "webscr", "//", "@", "-secure"]

  const Whitelist: seq<string> := ["youtube.com", "google.com", "github.com", "wikipedia.org", "openai.com"]

  /* ---------------------------------------------------------------------- */
  /* Feature extractors                                                      */
  /* ---------------------------------------------------------------------- */

  /** `calculate_entropy`, integer part: the counts its probabilities are
      formed from, `url.count(c)` for each distinct character `c` in
      first-occurrence order. An empty URL has no counts (and entropy 0). */
  function EntropyCounts(url: string): (counts: seq<nat>)
    ensures |counts| == |Distinct(url)|
    ensures forall k :: 0 <= k < |counts| ==> counts[k] == CountChar(url, Distinct(url)[k])
    ensures forall k :: 0 <= k < |counts| ==> counts[k] >= 1
    ensures Sum(counts) == |url|
    ensures counts == [] <==> url == []
  {
    CharCounts(url)
  }

  /** `count_non_alphanum`: 0 exactly when every character is alphanumeric. */
  function NonAlphanum(url: string): (r: nat)
    ensures r <= |url|
    ensures r == 0 <==> forall i :: 0 <= i < |url| ==> IsAlnum(url[i])
  {
    CountNonAlnum(url)
  }

  /** `get_url_length`: also the total of the entropy counts. */
  function UrlLength(url: string): (r: nat)
    ensures r == |url|
    ensures r == Sum(EntropyCounts(url))
  {
    |url|
  }

  /** `get_num_dots`: 0 exactly when the URL has no '.', and never more than
      the non-alphanumeric count. */
  function NumDots(url: string): (r: nat)
    ensures r == 0 <==> '.' !in url
    ensures r <= NonAlphanum(url)
  {
    CountBounds(url, '.');
    CountChar(url, '.')
  }

  /** `has_suspicious_extension`: 1 exactly when the lowered URL ends with
      one of the six extensions. */
  function SuspiciousExtension(url: string): (r: nat)
    ensures r <= 1
    ensures r == 1 <==> exists k :: 0 <= k < |SuspiciousExtensions| && EndsWith(Lower(url), SuspiciousExtensions[k])
  {
    if AnyEndsWith(Lower(url), SuspiciousExtensions) then 1 else 0
  }

  /** `extract_keywords`: how many of the seven keywords occur in the lowered
      URL, each counted once. */
  function KeywordCount(url: string): (r: nat)
    ensures r <= 7
    ensures r == |ContainedSet(Lower(url), Keywords)|
  {
    assert NoDup(Keywords);
    CountContainedIsSetSize(Lower(url), Keywords);
    CountContained(Lower(url), Keywords)
  }

  /** `detect_suspicious_patterns`: how many of the eight patterns occur in
      the lowered URL, each counted once. */
  function PatternCount(url: string): (r: nat)
    ensures r <= 8
    ensures r == |ContainedSet(Lower(url), Patterns)|
  {
    assert NoDup(Patterns);
    CountContainedIsSetSize(Lower(url), Patterns);
    CountContained(Lower(url), Patterns)
  }

  /** `check_ip_address`: 1 when `socket.inet_aton` accepts the host. */
  function IpAddress(o: Oracles, url: string): (r: nat)
    ensures r == 1 <==> o.inetAton(Netloc(url))
    ensures r <= 1
  {
    if o.inetAton(Netloc(url)) then 1 else 0
  }

  /** `check_https`: the exact, case-sensitive prefix "https". */
  function Https(url: string): (r: nat)
    ensures r <= 1
    ensures r == 1 <==> |url| >= 5 && url[0] == 'h' && url[1] == 't' && url[2] == 't' && url[3] == 'p' && url[4] == 's'
  {
    if StartsWith(url, "https") then 1 else 0
  }

  /** `check_port`: `int(bool(parsed.port))`; port 0 counts as no port and an
      invalid port raises. */
  function PortFlag(o: Oracles, url: string): (r: Result<nat>)
    ensures r.Err? <==> o.port(url).InvalidPort?
    ensures r.Err? ==> r.failure == PortValueError
    ensures r.Ok? ==> (r.value == 1 <==> o.port(url).Port? && o.port(url).number != 0)
    ensures r.Ok? ==> r.value <= 1
  {
    match o.port(url)
    case NoPort => Ok(0)
    case Port(n) => Ok(if n != 0 then 1 else 0)
    case InvalidPort => Err(PortValueError)
  }

  /** `count_subdomains` over the host: the labels beyond the last two,
      i.e. one less than the number of dots, and never negative. */
  function SubdomainsOf(host: string): (r: nat)
    ensures r == if CountChar(host, '.') >= 2 then CountChar(host, '.') - 1 else 0
  {
    var labels := Split(host, '.');
    if |labels| > 2 then |labels| - 2 else 0
  }

  /** `count_subdomains` over the URL's host. */
  function Subdomains(url: string): (r: nat)
    ensures r == if CountChar(Netloc(url), '.') >= 2 then CountChar(Netloc(url), '.') - 1 else 0
  {
    SubdomainsOf(Netloc(url))
  }

  /** `has_https_token`: "https", case-insensitively, starting at index 8 or
      later; an occurrence starting earlier never counts. */
  function HttpsToken(url: string): (r: nat)
    ensures r <= 1
    ensures r == 1 <==> exists i :: 8 <= i && OccursAt(Lower(url), "https", i)
    ensures |url| < 13 ==> r == 0
  {
    ContainsDropLower(url, 8, "https");
    if Contains(Lower(Drop(url, 8)), "https") then 1 else 0
  }

  /** `ratio_digits`: digits over length; an empty URL divides by zero. */
  function DigitRatio(url: string): (r: Result<Value>)
    ensures r.Err? <==> |url| == 0
    ensures r.Err? ==> r.failure == ZeroDivisionError
    ensures r.Ok? ==> r.value == Ratio(CountDigits(url), |url|)
    ensures r.Ok? ==> r.value.Ratio? && r.value.den == |url| && r.value.num <= r.value.den
    ensures r.Ok? ==> 0.0 <= RatioValue(r.value.num, r.value.den) <= 1.0
  {
    if |url| == 0 then Err(ZeroDivisionError)
    else
      CountBounds(url, '.');
      RatioValueBounds(CountDigits(url), |url|);
      Ok(Ratio(CountDigits(url), |url|))
  }

  /** `check_tld_length` over the host: the length of the last label, that
      is of the text after the last dot. The `except` branch is unreachable,
      as `split` never returns an empty list. */
  function TldLengthOf(host: string): (r: nat)
    ensures r <= |host|
    ensures '.' !in host[|host| - r..]
    ensures r < |host| ==> host[|host| - r - 1] == '.'
    ensures r == |host| <==> '.' !in host
  {
    LastPartLength(host, '.')
  }

  /** `check_tld_length` over the URL's host: the text after its last dot. */
  function TldLength(url: string): (r: nat)
    ensures IsLastPartLength(Netloc(url), '.', r)
    ensures r == |Netloc(url)| <==> '.' !in Netloc(url)
  {
    TldLengthOf(Netloc(url))
  }

  /* ---------------------------------------------------------------------- */
  /* Whitelist and vector                                                    */
  /* ---------------------------------------------------------------------- */

  /** The whitelist test on a host: some entry occurs, at some index, in the
      lowered host. */
  predicate WhitelistedHost(host: string): (r: bool)
    ensures r <==> exists k, i :: 0 <= k < |Whitelist| && OccursAt(Lower(host), Whitelist[k], i)
  {
    AnyContained(Lower(host), Whitelist)
  }

  /** The `features` list in the order handed to `scaler.transform`; the
      first uncaught exception in evaluation order (`check_port` before
      `ratio_digits`) aborts the extraction. */
  function Features(o: Oracles, url: string): (r: Result<seq<Value>>)
    ensures r.Err? <==> o.port(url).InvalidPort? || |url| == 0
    ensures o.port(url).InvalidPort? ==> r == Err(PortValueError)
    ensures !o.port(url).InvalidPort? && |url| == 0 ==> r == Err(ZeroDivisionError)
    ensures r.Ok? ==> |r.value| == Width
    ensures r.Ok? ==> (r.value[HasIpSlot] == Count(1) <==> o.inetAton(Netloc(url)))
  {
    match PortFlag(o, url)
    case Err(f) => Err(f)
    case Ok(hasPort) =>
      match DigitRatio(url)
      case Err(f) => Err(f)
      case Ok(ratio) =>
        Ok(Slots(
          EntropyCounts(url), NonAlphanum(url), UrlLength(url), NumDots(url),
          IpAddress(o, url), SuspiciousExtension(url), KeywordCount(url),
          PatternCount(url), Https(url), hasPort, Subdomains(url),
          HttpsToken(url), ratio, TldLength(url)))
  }

  /* ---------------------------------------------------------------------- */
  /* Verdict                                                                 */
  /* ---------------------------------------------------------------------- */

  datatype Status = Aman | Phishing

  /** The printed result, or the uncaught exception that ends the script.
      An empty `note` stands for its absence; a whitelisted result carries no
      features. */
  datatype Response =
    | Response(status: Status, probability: real, note: string, features: map<string, Value>)
    | Crashed(failure: Failure)

  const WhitelistNote: string := "URL termasuk whitelist domain populer"

  /** The fitted scaler followed by the classifier: a predicted label and
      the probability of the phishing class. */
  type Scorer = seq<Value> -> (int, real)

  /** The whole script for one URL: whitelist first, then extraction, then
      scoring. A whitelisted URL is never extracted or scored. */
  function Classify(o: Oracles, score: Scorer, url: string): (r: Response)
    ensures WhitelistedHost(Netloc(url)) <==> r == Response(Aman, 0.0, WhitelistNote, map[])
    ensures !WhitelistedHost(Netloc(url)) ==>
      (r.Crashed? <==> Features(o, url).Err?)
    ensures r.Crashed? ==> r.failure == Features(o, url).failure
    ensures r.Response? && !WhitelistedHost(Netloc(url)) ==> r.note == []
    ensures r.Response? && !WhitelistedHost(Netloc(url)) ==>
      var v := Features(o, url).value;
      && r.features.Keys == (set k | 0 <= k < Width :: Names[k])
      && (forall k :: 0 <= k < Width ==> r.features[Names[k]] == v[k])
      && (r.status == Phishing <==> score(v).0 == 1)
      && r.probability == score(v).1
  {
    if WhitelistedHost(Netloc(url)) then
      Response(Aman, 0.0, WhitelistNote, map[])
    else
      match Features(o, url)
      case Err(f) => Crashed(f)
      case Ok(v) =>
        var out := score(v);
        Response(if out.0 == 1 then Phishing else Aman, out.1, [], FeatureMap(v))
  }
}
