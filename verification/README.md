# Phishing URL features

A Dafny model of the feature extraction of a phishing-URL classifier. The
server scores a URL with `server/python/predict.py`. The classifier it loads
was fitted on vectors built by a second copy of the same extractors in
`server/python/train_model.py`. The model covers:

- **Extractors.** The fourteen per-URL extractors on both sides: entropy,
  non-alphanumeric count, length, dots, IP test, suspicious extension,
  keyword and pattern counts, https prefix, port, subdomains, https token,
  digit ratio and TLD length.
- **Whitelist short-circuit.** A whitelisted host is answered "aman" (safe)
  before any feature is computed.
- **Vector and failures.** The 14-slot vector handed to the scaler, and the
  exceptions that abort an extraction: the `ZeroDivisionError` of an empty
  URL and the `ValueError` of an invalid port.
- **Response.** What the script prints once the classifier has answered.

The main results compare the two copies. They fail on the same URLs. They
compute the same value in every slot except `has_ip`. The scoring side asks
`socket.inet_aton` whether the host is an address. The training side searches
the whole URL with the regex `(\d{1,3}\.){3}\d{1,3}`. That search is proved
equivalent to a description through `split('.')`: some slice of the URL is
four runs of one to three digits joined by dots.

Files, in dependency order:

- `text.dfy` — ASCII character classes, `lower`, `in`, `startswith`,
  `endswith` and the counting `sum`s.
- `splitting.dfy` — `str.split` on one character, with its `join` round trip.
- `histogram.dfy` — `dict.fromkeys(list(url))` and the per-character counts
  behind the entropy.
- `urls.dfy` — the host part of `urlparse`. `inet_aton` and `.port` are
  parameters.
- `vector.dfy` — feature values, the vector, failures and the `features`
  object.
- `predict.dfy` — the scoring side.
- `ipregex.dfy` — the training-side regex.
- `train.dfy` — the training side.
- `properties.dfy` — lemmas about the scoring-side extractors and the
  whitelist.
- `parity.dfy` — lemmas comparing the two sides.

The two float features are kept as the integers they are computed from. The
entropy is kept as its per-character counts, and the digit ratio as numerator
over denominator. The fitted scaler and classifier form one function
parameter that maps a vector to a label and a probability.

## Model

| member | source | states |
|---|---|---|
| Predict.EntropyCounts | server/python/predict.py:12-15 | count k is `url.count(c)` for the k-th distinct character `c`; each count is at least 1 and together they sum to the URL length; an empty URL has no counts, so the entropy divides by nothing |
| Histogram.CharCounts | server/python/predict.py:13 | count k is the number of occurrences of the k-th distinct character; the counts are positive and sum to the length of the string |
| Histogram.Distinct | server/python/predict.py:13 | `dict.fromkeys(list(url))` has no repeats and holds exactly the characters of the URL |
| Histogram.DistinctOrder | server/python/predict.py:13 | the distinct characters are listed in order of first occurrence: a character listed earlier is first found earlier in the URL |
| Predict.NonAlphanum | server/python/predict.py:17-18 | at most the length, and 0 exactly when every character is alphanumeric |
| Text.CountDigitsAppend | server/python/predict.py:18 | the non-alphanumeric and digit counts are additive over concatenation |
| Predict.UrlLength | server/python/predict.py:32-33 | the length, which is also the total of the entropy counts |
| Predict.NumDots | server/python/predict.py:35-36 | 0 exactly when the URL has no '.', and never more than the non-alphanumeric count |
| Properties.CountChain | server/python/predict.py:17-36 | num_dots <= non_alphanum <= url_length, and the digit count is at most the length |
| Predict.SuspiciousExtension | server/python/predict.py:20-22 | 0 or 1, and 1 exactly when the lowered URL ends with one of the six extensions |
| Properties.ExtensionNeedsFinalLetter | server/python/predict.py:20-22 | a URL whose last character is not a letter, such as one ending in "?x=1" or '/', never has a suspicious extension |
| Properties.ExtensionExamples | server/python/predict.py:20-22 | "file.exe" and "FILE.EXE" count, and "file.exe?x=1" does not |
| Text.Contains | server/python/predict.py:26 | Python's substring `in`: true exactly when the pattern occurs at some index |
| Predict.KeywordCount | server/python/predict.py:24-26 | the number of distinct keywords found in the lowered URL, at most 7 |
| Text.CountContainedIsSetSize | server/python/predict.py:24-30 | counting the list entries found equals the size of the set of entries found, when the list has no repeats |
| Predict.PatternCount | server/python/predict.py:28-30 | the number of distinct patterns found in the lowered URL, at most 8 |
| Properties.DoubleSlashIsSuspicious | server/python/predict.py:28-30 | any URL containing "//", such as every URL with a host, scores at least one suspicious pattern |
| Urls.AfterScheme | server/python/predict.py:40 | the text after the scheme: the URL is shortened exactly when it starts with a scheme (a letter, then letters, digits, '+', '-' or '.') followed by ':', and then only that prefix and its ':' are removed |
| Urls.Netloc | server/python/predict.py:40 | when the text after the scheme starts with "//", the host is everything after it up to the first '/', '?' or '#' (or the end); otherwise the host is empty; it is always a delimiter-free substring of the URL |
| Predict.IpAddress | server/python/predict.py:38-44 | 0 or 1, and 1 exactly when `inet_aton` accepts the host |
| Predict.Https | server/python/predict.py:46-47 | 1 exactly when the first five characters are "https", case-sensitively |
| Properties.HttpsIsCaseSensitive | server/python/predict.py:46-47 | "https://…" scores 1 and "HTTPS://…" scores 0 |
| Predict.PortFlag | server/python/predict.py:49-51 | fails with `ValueError` exactly for an invalid port; otherwise 1 exactly for a nonzero port number |
| Predict.Subdomains | server/python/predict.py:53-55 | for the URL's host, one less than its number of dots when it has at least two, else 0 |
| Predict.SubdomainsOf | server/python/predict.py:53-55 | one less than the number of dots in the host when there are at least two dots, else 0 |
| Predict.HttpsToken | server/python/predict.py:57-58 | 1 exactly when "https" occurs, case-insensitively, starting at index 8 or later; URLs shorter than 13 characters score 0 |
| Properties.HttpsTokenIgnoresFirstEight | server/python/predict.py:57-58 | the first eight characters never affect the token, whatever they are |
| Predict.DigitRatio | server/python/predict.py:60-62 | `ZeroDivisionError` exactly for the empty URL; otherwise the digit count over the length, a value in [0, 1] |
| Text.CountDigits | server/python/predict.py:61 | at most the length; 0 exactly when no character is a digit, and the length exactly when every character is |
| Predict.TldLengthOf | server/python/predict.py:64-69 | the length of the text after the last dot of the host, or of the whole host when it has no dot |
| Predict.TldLength | server/python/predict.py:64-69 | for the URL's host, a dot-free suffix length that is the whole host or follows a dot, and the whole host exactly when it has no dot |
| Splitting.LastPartLength | server/python/predict.py:66-67 | `len(s.split(sep)[-1])` is a separator-free suffix length that is the whole string or follows a separator |
| Splitting.LastPartLengthUnique | server/python/predict.py:66-67 | that description has only one solution, so it determines the TLD length |
| Splitting.SplitLast | server/python/predict.py:66 | the last part of a split is a suffix with no separator, preceded by the separator unless it is the whole string |
| Splitting.SplitPartsFree | server/python/predict.py:66 | no part of a split contains the separator |
| Splitting.JoinSplit | server/python/predict.py:66 | joining the parts of a split with the separator gives back the string |
| Splitting.SplitJoin | server/python/predict.py:66 | splitting the join of one or more separator-free parts gives back exactly those parts |
| Properties.TldOfEmptyLastLabel | server/python/predict.py:64-69 | an empty host, or one ending in '.', has TLD length 0 |
| Properties.TldOfDottedHost | server/python/predict.py:64-69 | "example.com" has TLD length 3 |
| Properties.TldOfBareHost | server/python/predict.py:64-69 | "localhost", a host without a dot, has TLD length 9 |
| Predict.WhitelistedHost | server/python/predict.py:79-81 | a host is whitelisted exactly when one of the five domains occurs, at some index, in its lowered form |
| Predict.Features | server/python/predict.py:89-120 | fails exactly on an invalid port or an empty URL, with the port error first; otherwise 14 slots whose `has_ip` slot is 1 exactly when `inet_aton` accepts the host |
| Vector.FeatureMap | server/python/predict.py:136-151 | the `features` object has exactly the 14 names as keys, each mapped to its slot |
| Predict.Classify | server/python/predict.py:78-154 | a whitelisted host gets exactly the safe response with the note and no features; otherwise the script crashes exactly when extraction fails, with the extraction's exception, and else reports, without a note, every slot under its name, "phishing" exactly for label 1, and the classifier's probability |
| Properties.LookalikeIsWhitelisted | server/python/predict.py:79-81 | any host containing "google.com", such as "google.com.evil.net", is whitelisted |
| Properties.WhitelistSkipsScoring | server/python/predict.py:78-87 | for a whitelisted URL, neither the classifier nor the foreign calls change the answer |
| IpRegex.PrefixMatchSpec | server/python/train_model.py:29 | the anchored match of `(\d{1,3}\.){n}\d{1,3}` succeeds exactly when some prefix is n+1 digit runs joined by dots |
| IpRegex.SearchSpec | server/python/train_model.py:28-29 | `re.search` succeeds exactly when some slice of the URL is a dotted quad |
| Train.EntropyCounts | server/python/train_model.py:15-17 | count k is `url.count(c)` for the k-th distinct character; the counts are positive and sum to the length |
| Train.NonAlphanumCount | server/python/train_model.py:19-20 | at most the length, and 0 exactly when every character is alphanumeric |
| Train.UrlLength | server/python/train_model.py:22-23 | the length, which is also the total of the entropy counts |
| Train.NumDots | server/python/train_model.py:25-26 | 0 exactly when the URL has no '.', and never more than the non-alphanumeric count |
| Train.HasIp | server/python/train_model.py:28-29 | 0 or 1, and 1 exactly when some slice of the URL, anywhere, is a dotted quad |
| Train.HasSuspiciousExtension | server/python/train_model.py:31-33 | 0 or 1, and 1 exactly when the lowered URL ends with one of the six extensions |
| Train.SensitiveKeywordsCount | server/python/train_model.py:35-37 | the number of distinct keywords found in the lowered URL, at most 7 |
| Train.SuspiciousPatternsCount | server/python/train_model.py:39-41 | the number of distinct patterns found in the lowered URL, at most 8 |
| Train.UsesHttps | server/python/train_model.py:43-44 | 1 exactly when the first five characters are "https", case-sensitively |
| Train.HasPort | server/python/train_model.py:46-48 | fails with `ValueError` exactly for an invalid port; otherwise 1 exactly for a nonzero port number |
| Train.CountSubdomains | server/python/train_model.py:50-52 | one less than the number of dots in the host when there are at least two dots, else 0 |
| Train.HasHttpsToken | server/python/train_model.py:54-55 | 1 exactly when "https" occurs, case-insensitively, starting at index 8 or later |
| Train.RatioDigits | server/python/train_model.py:57-59 | `ZeroDivisionError` exactly for the empty URL; otherwise the digit count over the length |
| Train.CheckTldLength | server/python/train_model.py:61-66 | the length of the text after the last dot of the host, or of the whole host when it has no dot |
| Train.ExtractFeatures | server/python/train_model.py:69-85 | fails exactly on an invalid port or an empty URL, with the port error first; otherwise 14 values whose `has_ip` slot is 1 exactly when the URL holds a dotted quad |
| Parity.ListsAgree | server/python/train_model.py:31-41 | both files use the same extension, keyword and pattern lists |
| Parity.ExtractorsAgree | server/python/train_model.py:15-66 | every extractor except `has_ip` gives the same value on both sides for every URL |
| Parity.PortAgree | server/python/train_model.py:46-48 | `check_port` and `has_port` give the same flag or the same `ValueError` for every URL |
| Parity.SameFailures | server/python/train_model.py:69-85 | the scoring and training vectors fail on the same URLs with the same exception |
| Parity.SameVectorWithRegexIp | server/python/train_model.py:69-85 | with the regex in place of `inet_aton`, scoring computes exactly the training vector |
| Parity.VectorParity | server/python/train_model.py:69-85 | a scored vector is the training vector with only the `has_ip` slot replaced by the `inet_aton` answer |
| Parity.IpDecidesParity | server/python/train_model.py:28-29 | the two vectors are equal exactly when `inet_aton` on the host and the regex on the URL agree |
| Parity.VersionNumberLooksLikeIp | server/python/train_model.py:28-29 | any URL containing "1.2.3.4", for example a version number in the path, has training `has_ip` 1 |

## Left out

- `math.log`, the float division of the entropy and the ratio, and the
  rounding to four decimals are not modelled. The entropy and the digit
  ratio are kept as their integer counts.
- Predict.Classify: the reported probability is the classifier's value
  before `round(…, 4)`.
- The fitted scaler and the classifier are an arbitrary function parameter.
  Loading them with `joblib` is not modelled.
- `socket.inet_aton` and `urlparse(url).port` are foreign calls. They are
  parameters about which nothing is assumed.
- Urls.Netloc: the host follows a stated simplification of `urlparse`.
  Whitespace stripping, IPv6 brackets and the `ValueError`s that `urlparse`
  itself raises are not modelled.
- Characters are ASCII. `isalnum`, `isdigit` and `lower` on non-ASCII
  characters are not modelled. Neither is the regex class `\d` at
  train_model.py:29, which in a Python 3 str pattern matches any Unicode
  decimal digit; here it matches only '0' to '9'.
- The two `except` clauses of `check_tld_length` differ: `Exception` at
  predict.py:68, `IndexError` at train_model.py:65. `split` always yields at
  least one part, so no `IndexError` arises. The broader clause would also
  catch a `ValueError` raised by `urlparse` itself (for example on
  "http://[x"), which the training side would let through. In the scoring
  script that cannot happen: predict.py:80 has already parsed the same URL
  and would have raised first. Since parser errors are outside this model,
  both are the same function here.
- The command line and the JSON printing are not modelled: reading
  `sys.argv`, the "URL tidak diberikan" error and `json.dumps`.
- The training pipeline is not modelled: loading the CSV, SMOTE, the
  scaler fit, the split, XGBoost, the report and saving the artifacts.
- `server/index.js` is not part of this model.
