/**
 Properties of the scoring-side extractors and of the whitelist
 short-circuit that relate several calls or hold for whole families of
 inputs.
 */
module Properties {
  import opened Text
  import opened Splitting
  import opened Urls
  import opened Predict

  /** Every dot is a non-alphanumeric character and every counted character
      is a character: num_dots <= non_alphanum <= url_length, and the digit
      count never exceeds the length. */
  lemma CountChain(url: string)
    ensures NumDots(url) <= NonAlphanum(url) <= UrlLength(url)
    ensures CountDigits(url) <= UrlLength(url)
  {
    CountBounds(url, '.');
  }

  /** All six extensions end in a letter, so a URL whose last character is
      not a letter (a query such as "?x=1", a trailing '/') never has a
      suspicious extension. */
  lemma ExtensionNeedsFinalLetter(url: string)
    requires |url| > 0 && !IsLetter(url[|url| - 1])
    ensures SuspiciousExtension(url) == 0
  {
    var low := Lower(url);
    LowerCharSpec(url[|url| - 1]);
    forall k | 0 <= k < |SuspiciousExtensions|
      ensures !EndsWith(low, SuspiciousExtensions[k])
    {
      var ext := SuspiciousExtensions[k];
      assert IsLetter(ext[|ext| - 1]);
    }
  }

  lemma ExtensionExamples()
    ensures SuspiciousExtension("http://evil.com/file.exe") == 1
    ensures SuspiciousExtension("http://evil.com/FILE.EXE") == 1
    ensures SuspiciousExtension("http://evil.com/file.exe?x=1") == 0
  {
    assert EndsWith(Lower("http://evil.com/file.exe"), SuspiciousExtensions[0]);
    assert Lower("http://evil.com/FILE.EXE") == "http://evil.com/file.exe";
    assert EndsWith(Lower("http://evil.com/FILE.EXE"), SuspiciousExtensions[0]);
    ExtensionNeedsFinalLetter("http://evil.com/file.exe?x=1");
  }

  /** "//" is one of the patterns and lowering keeps it, so any URL that
      contains it scores at least one suspicious pattern. */
  lemma DoubleSlashIsSuspicious(url: string)
    requires Contains(url, "//")
    ensures PatternCount(url) >= 1
  {
    ContainsLower(url, "//");
    assert Contains(Lower(url), Patterns[5]);
  }

  /** The https prefix is case-sensitive. */
  lemma HttpsIsCaseSensitive()
    ensures Https("https://example.com") == 1
    ensures Https("HTTPS://example.com") == 0
  {
  }

  /** Only the text from index 8 on is searched: the first eight characters,
      whatever they are, never matter. */
  lemma HttpsTokenIgnoresFirstEight(head: string, rest: string)
    requires |head| == 8
    ensures HttpsToken(head + rest) == if Contains(Lower(rest), "https") then 1 else 0
  {
    assert Drop(head + rest, 8) == rest;
  }

  /** An empty host, or one ending in '.', has an empty last label. */
  lemma TldOfEmptyLastLabel(host: string)
    requires host == [] || host[|host| - 1] == '.'
    ensures TldLengthOf(host) == 0
  {
  }

  /** A host with dots: "example.com" has TLD length 3. */
  lemma TldOfDottedHost()
    ensures TldLengthOf("example.com") == 3
  {
    assert "example.com"[8..] == "com";
    LastPartLengthUnique("example.com", '.', 3);
  }

  /** A host without dots counts whole: "localhost" has TLD length 9. */
  lemma TldOfBareHost()
    ensures TldLengthOf("localhost") == 9
  {
    var host := "localhost";
    assert forall i :: 0 <= i < |host| ==> host[i] != '.';
    assert host[|host| - 9..] == host;
    LastPartLengthUnique(host, '.', 9);
  }

  /** Substring containment admits lookalikes: any host that merely contains
      "google.com" is whitelisted, whatever surrounds it. */
  lemma LookalikeIsWhitelisted(before: string, after: string)
    ensures WhitelistedHost(before + "google.com" + after)
  {
    var host := before + "google.com" + after;
    LowerAppend(before + "google.com", after);
    LowerAppend(before, "google.com");
    assert Lower("google.com") == "google.com";
    assert Lower(host)[|before|..|before| + 10] == "google.com";
    assert OccursAt(Lower(host), Whitelist[1], |before|);
  }

  /** A whitelisted URL gets the safe response without extraction or
      scoring: neither the scorer nor the foreign calls can change it. */
  lemma WhitelistSkipsScoring(o1: Oracles, o2: Oracles, s1: Scorer, s2: Scorer, url: string)
    requires WhitelistedHost(Netloc(url))
    ensures Classify(o1, s1, url) == Classify(o2, s2, url)
    ensures Classify(o1, s1, url).Response? && Classify(o1, s1, url).status == Aman
  {
  }
}
