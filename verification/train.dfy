/**
 The training side (`server/python/train_model.py`): its own copy of the
 extractors and `extract_features`, the 14-slot vector the scaler and the
 classifier were fitted on. Loading the data set, resampling, fitting and
 saving the artifacts are not part of this model.
 */
module Train {
  import opened Text
  import opened Splitting
  import opened Histogram
  import opened Urls
  import opened Vector
  import opened IpRegex

  const SuspiciousExts: seq<string> := [".exe", ".zip", ".scr", ".rar", ".php", ".apk"]

  const SensitiveKeywords: seq<string> := ["login", "secure", "account", "update", "verify", "bank", "webscr"]

  const SuspiciousPatterns: seq<string> := ["cgi-bin", "base64", "redirect=", "confirm", "webscr", "//", "@", "-secure"]

  /** `calculate_entropy`, integer part: `url.count(c)` for each distinct
      character in first-occurrence order, together summing to the length. */
  function EntropyCounts(url: string): (counts: seq<nat>)
    ensures |counts| == |Distinct(url)|
    ensures forall k :: 0 <= k < |counts| ==> counts[k] == CountChar(url, Distinct(url)[k])
    ensures forall k :: 0 <= k < |counts| ==> counts[k] >= 1
    ensures Sum(counts) == |url|
  {
    CountsOfAt(Distinct(url), url);
    CharCountsSum(url);
    CountsOf(Distinct(url), url)
  }

  /** `count_non_alphanum`: 0 exactly when every character is alphanumeric. */
  function NonAlphanumCount(url: string): (r: nat)
    ensures r <= |url|
    ensures r == 0 <==> forall i :: 0 <= i < |url| ==> IsAlnum(url[i])
  {
    CountNonAlnum(url)
  }

  /** `url_length`: also the total of the entropy counts. */
  function UrlLength(url: string): (r: nat)
    ensures r == |url|
    ensures r == Sum(EntropyCounts(url))
  {
    |url|
  }

  /** `num_dots`: 0 exactly when the URL has no '.', and never more than the
      non-alphanumeric count. */
  function NumDots(url: string): (r: nat)
    ensures r == 0 <==> '.' !in url
    ensures r <= NonAlphanumCount(url)
  {
    CountBounds(url, '.');
    CountChar(url, '.')
  }

  /** `has_ip`: 1 exactly when some slice of the URL, anywhere, is four runs
      of one to three digits joined by dots. */
  function HasIp(url: string): (r: nat)
    ensures r <= 1
    ensures r == 1 <==> HasDottedQuad(url)
  {
    SearchSpec(url);
    if Search(url) then 1 else 0
  }

  /** `has_suspicious_extension`: 1 exactly when the lowered URL ends with
      one of the six extensions. */
  function HasSuspiciousExtension(url: string): (r: nat)
    ensures r <= 1
    ensures r == 1 <==> exists k :: 0 <= k < |SuspiciousExts| && EndsWith(Lower(url), SuspiciousExts[k])
  {
    if AnyEndsWith(Lower(url), SuspiciousExts) then 1 else 0
  }

  /** `get_sensitive_keywords_count`: the number of distinct keywords found
      in the lowered URL. */
  function SensitiveKeywordsCount(url: string): (r: nat)
    ensures r <= 7
    ensures r == |ContainedSet(Lower(url), SensitiveKeywords)|
  {
    assert NoDup(SensitiveKeywords);
    CountContainedIsSetSize(Lower(url), SensitiveKeywords);
    CountContained(Lower(url), SensitiveKeywords)
  }

  /** `detect_suspicious_patterns_count`: the number of distinct patterns
      found in the lowered URL. */
  function SuspiciousPatternsCount(url: string): (r: nat)
    ensures r <= 8
    ensures r == |ContainedSet(Lower(url), SuspiciousPatterns)|
  {
    assert NoDup(SuspiciousPatterns);
    CountContainedIsSetSize(Lower(url), SuspiciousPatterns);
    CountContained(Lower(url), SuspiciousPatterns)
  }

  /** `uses_https`: the exact, case-sensitive prefix "https". */
  function UsesHttps(url: string): (r: nat)
    ensures r <= 1
    ensures r == 1 <==> |url| >= 5 && url[0] == 'h' && url[1] == 't' && url[2] == 't' && url[3] == 'p' && url[4] == 's'
  {
    if StartsWith(url, "https") then 1 else 0
  }

  /** `has_port`: `int(bool(parsed.port))`, or the `ValueError` it raises. */
  function HasPort(port: string -> Port, url: string): (r: Result<nat>)
    ensures r.Err? <==> port(url).InvalidPort?
    ensures r.Err? ==> r.failure == PortValueError
    ensures r.Ok? ==> (r.value == 1 <==> port(url).Port? && port(url).number != 0)
    ensures r.Ok? ==> r.value <= 1
  {
    match port(url)
    case NoPort => Ok(0)
    case Port(n) => if n == 0 then Ok(0) else Ok(1)
    case InvalidPort => Err(PortValueError)
  }

  /** `count_subdomains`: the host's labels beyond the last two, i.e. one
      less than its number of dots, and never negative. */
  function CountSubdomains(url: string): (r: nat)
    ensures r == if CountChar(Netloc(url), '.') >= 2 then CountChar(Netloc(url), '.') - 1 else 0
  {
    var labels := Split(Netloc(url), '.');
    if |labels| > 2 then |labels| - 2 else 0
  }

  /** `has_https_token`: "https", case-insensitively, starting at index 8 or
      later. */
  function HasHttpsToken(url: string): (r: nat)
    ensures r <= 1
    ensures r == 1 <==> exists i :: 8 <= i && OccursAt(Lower(url), "https", i)
  {
    ContainsDropLower(url, 8, "https");
    if Contains(Lower(Drop(url, 8)), "https") then 1 else 0
  }

  /** `ratio_digits`: digits over length, or the `ZeroDivisionError` of an
      empty URL. */
  function RatioDigits(url: string): (r: Result<Value>)
    ensures r.Err? <==> |url| == 0
    ensures r.Err? ==> r.failure == ZeroDivisionError
    ensures r.Ok? ==> r.value == Ratio(CountDigits(url), |url|)
  {
    if |url| == 0 then Err(ZeroDivisionError) else Ok(Ratio(CountDigits(url), |url|))
  }

  /** `check_tld_length`: the length of the text after the host's last dot,
      or of the whole host when it has none. */
  function CheckTldLength(url: string): (r: nat)
    ensures IsLastPartLength(Netloc(url), '.', r)
    ensures r == |Netloc(url)| <==> '.' !in Netloc(url)
  {
    LastPartLength(Netloc(url), '.')
  }

  /** `extract_features`: all 14 values in list order, or the first exception
      raised while building the list (`has_port` comes before `ratio_digits`).
      The `has_ip` slot is the regex search over the whole URL. */
  function ExtractFeatures(port: string -> Port, url: string): (r: Result<seq<Value>>)
    ensures r.Err? <==> port(url).InvalidPort? || |url| == 0
    ensures port(url).InvalidPort? ==> r == Err(PortValueError)
    ensures !port(url).InvalidPort? && |url| == 0 ==> r == Err(ZeroDivisionError)
    ensures r.Ok? ==> |r.value| == Width
    ensures r.Ok? ==> (r.value[HasIpSlot] == Count(1) <==> HasDottedQuad(url))
  {
    match HasPort(port, url)
    case Err(f) => Err(f)
    case Ok(hasPort) =>
      match RatioDigits(url)
      case Err(f) => Err(f)
      case Ok(ratio) =>
        var ip := HasIp(url);
        assert ip == 1 <==> HasDottedQuad(url);
        Ok(Slots(
          EntropyCounts(url), NonAlphanumCount(url), UrlLength(url), NumDots(url),
          ip, HasSuspiciousExtension(url), SensitiveKeywordsCount(url),
          SuspiciousPatternsCount(url), UsesHttps(url), hasPort, CountSubdomains(url),
          HasHttpsToken(url), ratio, CheckTldLength(url)))
  }
}
