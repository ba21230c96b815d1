/**
 Parity between the two copies of the feature extraction: the classifier is
 only meaningful if scoring computes the vector it was trained on. The
 copies agree slot by slot except `has_ip`, where the scoring side asks
 `socket.inet_aton` about the host and the training side runs a regex over
 the whole URL.
 */
module Parity {
  import opened Urls
  import opened Vector
  import opened IpRegex
  import opened Splitting
  import Predict
  import Train

  /** Both files carry the same extension, keyword and pattern lists. */
  lemma ListsAgree()
    ensures Predict.SuspiciousExtensions == Train.SuspiciousExts
    ensures Predict.Keywords == Train.SensitiveKeywords
    ensures Predict.Patterns == Train.SuspiciousPatterns
  {
  }

  /** The counting features agree: entropy counts, non-alphanumerics,
      length, dots and the digit ratio. */
  lemma CountsAgree(url: string)
    ensures Predict.EntropyCounts(url) == Train.EntropyCounts(url)
    ensures Predict.NonAlphanum(url) == Train.NonAlphanumCount(url)
    ensures Predict.UrlLength(url) == Train.UrlLength(url)
    ensures Predict.NumDots(url) == Train.NumDots(url)
    ensures Predict.DigitRatio(url) == Train.RatioDigits(url)
  {
  }

  /** The features computed from the three lists agree. */
  lemma ListFeaturesAgree(url: string)
    ensures Predict.SuspiciousExtension(url) == Train.HasSuspiciousExtension(url)
    ensures Predict.KeywordCount(url) == Train.SensitiveKeywordsCount(url)
    ensures Predict.PatternCount(url) == Train.SuspiciousPatternsCount(url)
  {
    ListsAgree();
  }

  /** The https prefix, the https token and the host features agree. */
  lemma TextFeaturesAgree(url: string)
    ensures Predict.Https(url) == Train.UsesHttps(url)
    ensures Predict.HttpsToken(url) == Train.HasHttpsToken(url)
    ensures Predict.Subdomains(url) == Train.CountSubdomains(url)
    ensures Predict.TldLength(url) == Train.CheckTldLength(url)
  {
  }

  /** `check_port` and `has_port` agree, including on the `ValueError`. */
  lemma PortAgree(o: Oracles, url: string)
    ensures Predict.PortFlag(o, url) == Train.HasPort(o.port, url)
  {
  }

  /** Extractor by extractor, the two copies agree on every URL; `has_ip` is
      the exception. */
  lemma ExtractorsAgree(url: string)
    ensures Predict.EntropyCounts(url) == Train.EntropyCounts(url)
    ensures Predict.NonAlphanum(url) == Train.NonAlphanumCount(url)
    ensures Predict.UrlLength(url) == Train.UrlLength(url)
    ensures Predict.NumDots(url) == Train.NumDots(url)
    ensures Predict.SuspiciousExtension(url) == Train.HasSuspiciousExtension(url)
    ensures Predict.KeywordCount(url) == Train.SensitiveKeywordsCount(url)
    ensures Predict.PatternCount(url) == Train.SuspiciousPatternsCount(url)
    ensures Predict.Https(url) == Train.UsesHttps(url)
    ensures Predict.Subdomains(url) == Train.CountSubdomains(url)
    ensures Predict.HttpsToken(url) == Train.HasHttpsToken(url)
    ensures Predict.DigitRatio(url) == Train.RatioDigits(url)
    ensures Predict.TldLength(url) == Train.CheckTldLength(url)
  {
    CountsAgree(url);
    ListFeaturesAgree(url);
    TextFeaturesAgree(url);
  }

  /** What the scoring side computes once no exception was raised. */
  lemma ScoredVector(o: Oracles, url: string)
    requires Predict.Features(o, url).Ok?
    ensures Predict.Features(o, url).value == Slots(
      Predict.EntropyCounts(url), Predict.NonAlphanum(url), Predict.UrlLength(url),
      Predict.NumDots(url), Predict.IpAddress(o, url), Predict.SuspiciousExtension(url),
      Predict.KeywordCount(url), Predict.PatternCount(url), Predict.Https(url),
      Predict.PortFlag(o, url).value, Predict.Subdomains(url), Predict.HttpsToken(url),
      Predict.DigitRatio(url).value, Predict.TldLength(url))
  {
  }

  /** What the training side computes once no exception was raised. */
  lemma TrainingVector(port: string -> Port, url: string)
    requires Train.ExtractFeatures(port, url).Ok?
    ensures Train.ExtractFeatures(port, url).value == Slots(
      Train.EntropyCounts(url), Train.NonAlphanumCount(url), Train.UrlLength(url),
      Train.NumDots(url), Train.HasIp(url), Train.HasSuspiciousExtension(url),
      Train.SensitiveKeywordsCount(url), Train.SuspiciousPatternsCount(url),
      Train.UsesHttps(url), Train.HasPort(port, url).value, Train.CountSubdomains(url),
      Train.HasHttpsToken(url), Train.RatioDigits(url).value, Train.CheckTldLength(url))
  {
  }

  /** The scoring side with `inet_aton` replaced by the training regex. */
  function WithRegexIp(o: Oracles, url: string): Oracles
  {
    Oracles(_ => Train.HasIp(url) == 1, o.port)
  }

  /** Both sides fail on the same URLs, with the same exception. */
  lemma SameFailures(o: Oracles, url: string)
    ensures Predict.Features(o, url).Err? <==> Train.ExtractFeatures(o.port, url).Err?
    ensures Predict.Features(o, url).Err? ==> Predict.Features(o, url) == Train.ExtractFeatures(o.port, url)
  {
  }

  /** Were `check_ip_address` the training regex, the scoring side would
      compute exactly the training vector. */
  lemma SameVectorWithRegexIp(o: Oracles, url: string)
    ensures Predict.Features(WithRegexIp(o, url), url) == Train.ExtractFeatures(o.port, url)
  {
    ExtractorsAgree(url);
    PortAgree(WithRegexIp(o, url), url);
  }

  /** A scored vector is the training vector with the `inet_aton` answer in
      the `has_ip` slot. */
  lemma ScoredIsTrainingWithIp(o: Oracles, url: string)
    requires Predict.Features(o, url).Ok? && Train.ExtractFeatures(o.port, url).Ok?
    ensures Predict.Features(o, url).value
         == Train.ExtractFeatures(o.port, url).value[HasIpSlot := Count(Predict.IpAddress(o, url))]
  {
    ExtractorsAgree(url);
    PortAgree(o, url);
    ScoredVector(o, url);
    TrainingVector(o.port, url);
    SlotsOtherIp(
      Train.EntropyCounts(url), Train.NonAlphanumCount(url), Train.UrlLength(url), Train.NumDots(url),
      Train.HasIp(url), Predict.IpAddress(o, url), Train.HasSuspiciousExtension(url),
      Train.SensitiveKeywordsCount(url), Train.SuspiciousPatternsCount(url), Train.UsesHttps(url),
      Train.HasPort(o.port, url).value, Train.CountSubdomains(url), Train.HasHttpsToken(url),
      Train.RatioDigits(url).value, Train.CheckTldLength(url));
  }

  /** With the real `inet_aton`, a scored vector is the training vector with
      only the `has_ip` slot replaced. */
  lemma VectorParity(o: Oracles, url: string)
    ensures Predict.Features(o, url).Ok? <==> Train.ExtractFeatures(o.port, url).Ok?
    ensures Predict.Features(o, url).Ok? ==>
      Predict.Features(o, url).value
        == Train.ExtractFeatures(o.port, url).value[HasIpSlot := Count(Predict.IpAddress(o, url))]
    ensures Predict.Features(o, url).Ok? ==>
      forall k :: 0 <= k < Width && k != HasIpSlot ==>
        Predict.Features(o, url).value[k] == Train.ExtractFeatures(o.port, url).value[k]
  {
    SameFailures(o, url);
    if Predict.Features(o, url).Ok? {
      ScoredIsTrainingWithIp(o, url);
    }
  }

  /** The two sides score the same vector exactly when `inet_aton` on the host
      and the regex on the whole URL give the same answer. */
  lemma IpDecidesParity(o: Oracles, url: string)
    requires Predict.Features(o, url).Ok?
    ensures Predict.Features(o, url) == Train.ExtractFeatures(o.port, url)
        <==> (o.inetAton(Netloc(url)) <==> HasDottedQuad(url))
  {
    VectorParity(o, url);
    var p := Predict.Features(o, url).value;
    var t := Train.ExtractFeatures(o.port, url).value;
    assert p[HasIpSlot] == Count(Predict.IpAddress(o, url));
    assert t[HasIpSlot] == Count(Train.HasIp(url));
    if p == t {
      assert Predict.IpAddress(o, url) == Train.HasIp(url);
    }
  }

  /** The regex also fires on text that is no address, such as a version
      number in the path: any URL containing "1.2.3.4" gets `has_ip` 1 in
      training. */
  lemma VersionNumberLooksLikeIp(before: string, after: string)
    ensures Train.HasIp(before + "1.2.3.4" + after) == 1
  {
    var s := before + "1.2.3.4" + after;
    var q := "1.2.3.4";
    assert s[|before|..|before| + 7] == q;
    assert q == "1" + ['.'] + "2.3.4";
    assert "2.3.4" == "2" + ['.'] + "3.4";
    assert "3.4" == "3" + ['.'] + "4";
    assert '.' !in "4";
    SplitNoSep("4", '.');
    assert DottedRuns("4", 0);
    DottedRunsCons("3", "4", 0);
    DottedRunsCons("2", "3.4", 1);
    DottedRunsCons("1", "2.3.4", 2);
    assert IsDottedQuad(s[|before|..|before| + 7]);
  }
}
