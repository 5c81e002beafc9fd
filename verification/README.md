# Website credibility metadata: a Dafny model

This project models the engineering core of a website-credibility dashboard.
The parts modelled are:

- **The metadata scraper** (`webscraper.py`). It normalises a URL and fetches the page. It reads TLS facts from the handshake and runs DOM heuristics over the parsed page: ad density, popups, mobile responsiveness, external links, contact / privacy / terms signals, social links, CDN use, server location, hosting type and update frequency. It resolves the domain's age and registrar through three WHOIS strategies plus two fallbacks. It returns either the metadata record or a one-key error. It also formats the record as a ten-line summary.
- **The feature side of the web app** (`app.py`):
  - the frozen feature list cut to the classifier's width;
  - the domain-age bucket;
  - the input record of each tab;
  - one-hot encoding;
  - aligning the encoded record with the feature list, including the width check;
  - the positive and risk indicator lists shown beside a verdict;
  - the reader of the language model's tagged reply.
- **The feature report** (`utils/check_features.py`). It splits the classifier's feature names into numerical and categorical ones and groups the categorical ones by base name.

These are modelled as inputs: what the network, the TLS handshake, the WHOIS library, the JSON WHOIS service and the port-43 socket returned, and the parsed HTML page. Ages arrive already converted to years. Loops in the source are Dafny methods with loop invariants, proved against the functions that specify them:

- counting external links;
- scanning CDN headers;
- the WHOIS strategies and the known-site scan;
- feature alignment;
- the reply reader;
- the partition and grouping loops.

The modules are:

| module | covers |
|---|---|
| `Text` | string helpers (ASCII lower-casing, `strip`, `split`, `replace`, substring tests) |
| `Lookup` | first-match priority tables |
| `Tls` | issuer, version and certificate-type labels |
| `Dom` | page heuristics |
| `Whois` | age, registrar and privacy |
| `Scraper` | entry point, record and display |
| `Features` | feature list, buckets, encoding and alignment |
| `Indicators` | the indicator lists |
| `Reply` | the reply reader |
| `FeatureSummary` | the feature report |

## Model

| member | source | states |
|---|---|---|
| Lookup.FindFirstHit | webscraper.py:445-450 | the scan returns the index of the first table row whose pattern occurs in the text, and stops there |
| Lookup.ClassifyFirstMatch | webscraper.py:104-123 | a priority table gives the result of the first row that hits, or the fallback when none does |
| Tls.IssuerLabelIsFirstMatch | webscraper.py:104-123 | the issuer if/elif chain equals the issuer table read in priority order over "org cn", lower-cased, with the first 20 characters of the organisation as fallback |
| Tls.IssuerLabelRange | webscraper.py:106-123 | an issuer label is one of the six known issuers or a prefix of at most 20 characters of the organisation name |
| Tls.VersionLabel | webscraper.py:95-96 | the label has the version's length, and every `v` and only a `v` becomes a space |
| Tls.VersionLabelExample | webscraper.py:96 | `TLSv1.3` becomes `TLS 1.3`, and no label contains a `v` |
| Tls.CertificateType | webscraper.py:126-145 | the certificate type is OV or DV |
| Tls.CertificateTypeIsOv | webscraper.py:129-145 | OV exactly when the domain names a major site or the subject has both organisation and locality; DV exactly otherwise |
| Tls.Inspect | webscraper.py:80-149 | a failed handshake leaves No/Unknown/none/none; a successful one marks the certificate valid and fills version, issuer and type from what the certificate shows, keeping the defaults for whatever is missing |
| Dom.CappedRatio | webscraper.py:173 | `min(count / total, 1)` lies in [0, 1], is exact below 1, and is 1 exactly when count reaches total |
| Dom.AdDensity | webscraper.py:166-173 | the density lies in [0, 1], is 0 on an empty page, times the element count (at least 1) it gives the ad count below 1, and is 1 exactly when ad elements are at least as many as elements |
| Dom.PopupsPresent | webscraper.py:175-183 | the popup flag is Yes exactly when more than three popup-like elements remain after the cookie banners are set aside, and No otherwise |
| Dom.ConsentNeverCounts | webscraper.py:179-182 | inserting a cookie/consent/GDPR/privacy element anywhere changes neither the popup count nor the flag |
| Dom.PopupClassCounts | webscraper.py:177-183 | a non-consent element whose class names a popup adds at least one to the count wherever it stands |
| Dom.ConsentBannerExample | webscraper.py:179-182 | an element of class `popup-modal cookie-consent` is a consent element and counts as a popup neither by class nor by id |
| Dom.FirstViewport | webscraper.py:186 | the result is a `meta` element named viewport from the page, and None means the page has none |
| Dom.MobileResponsive | webscraper.py:185-192 | the mobile label is Yes, Partial or No |
| Dom.MobileResponsiveCases | webscraper.py:185-192 | Yes exactly when the first viewport tag has content; Partial exactly when it does not and more than five responsive-class elements exist; No exactly otherwise |
| Dom.CountExternalLinks | webscraper.py:157-164 | the loop's count equals the number of external links and never exceeds the number of links |
| Dom.NoNetlocNoExternal | webscraper.py:160-163 | with an empty network location no link is external |
| Dom.SignalsOnlyGrow | webscraper.py:194-210 | adding elements to a page never removes a contact, privacy or terms signal |
| Dom.SocialPresence | webscraper.py:212-224 | none exactly for 0 social links, low exactly for 1, medium exactly for 2 or more, never anything else |
| Dom.CdnFromHeaders | webscraper.py:238-246 | the header loop reports a CDN exactly when some inspected header shows one, and it stops at the first such header |
| Dom.ServerLocation | webscraper.py:250-257 | USA exactly when a CF-RAY header is present or the Server header mentions cloudflare; Unknown otherwise |
| Dom.HostingType | webscraper.py:259-276 | the hosting type is dedicated exactly when the lower-cased `Server` header names a hosting word or the lower-cased domain names a professional site, and is left empty otherwise |
| Dom.HostingNotGuessed | webscraper.py:269-276 | without a professional server sign or a professional domain the hosting type stays empty |
| Dom.UpdateFrequency | webscraper.py:452-460 | the update frequency is weekly exactly when some meta tag carries a modification date or the `Last-Modified` header is non-empty, and irregular otherwise |
| Whois.RegistrarIsFirstMatch | webscraper.py:302-317 | the registrar chain equals the registrar table read top to bottom, with the first 30 characters as fallback |
| Whois.RegistrarRange | webscraper.py:302-317 | a canonical registrar is one of six names or a prefix of the raw name; it has at most 30 characters |
| Whois.PrivacyIgnoresOrder | webscraper.py:319-325 | the privacy flag depends only on the multiset of contact e-mails |
| Text.LastPiece | webscraper.py:359 | the last piece of a split contains no separator, and a string without the separator is its own last piece |
| Whois.WhoisServerCases | webscraper.py:358-369 | com and net go to Verisign, org to PIR, every other TLD to `whois.nic.<tld>` |
| Whois.WhoisServerByLastLabel | webscraper.py:359-369 | the server chosen depends only on the last label of the domain |
| Whois.FirstParsed | webscraper.py:396-413 | the date patterns give no age exactly when none parsed; otherwise the age of the first one that parsed |
| Whois.TryLibrary | webscraper.py:282-330 | strategy 1 as run equals its stage function |
| Whois.TryPort43 | webscraper.py:355-423 | strategy 3 (pattern loop and registrar line) as run equals its stage function |
| Whois.AssumeKnownAge | webscraper.py:436-450 | the known-site scan as run equals its stage function |
| Whois.ResolveWhois | webscraper.py:278-464 | the whole lookup, with one found flag carried across the stages, equals the composition of the stages |
| Whois.LibraryStageLog | webscraper.py:283-329 | the library stage only appends to the debug log; "Querying" is logged exactly when the library imported, an import failure logs only the failure, and a failed query logs "Querying" then the failure |
| Whois.LibraryStageAge | webscraper.py:289-298 | the library is always tried; it sets the age and the found flag when it yields an age, and otherwise leaves both as they were |
| Whois.ApiStageAge | webscraper.py:332-353 | the JSON service is skipped, changing nothing, once an age was found; otherwise the found flag is set exactly when the service yields an age, and that age is taken |
| Whois.SocketStageAge | webscraper.py:355-423 | the port-43 query (to the TLD's server) is skipped once an age was found; otherwise the found flag is set exactly when a date pattern parsed, and that age is taken |
| Whois.KnownSiteStageAge | webscraper.py:436-450 | the known-site table is skipped once an age was found; otherwise the first entry whose name occurs in the lower-cased domain gives the age |
| Whois.ResolvedAge | webscraper.py:278-464 | the age comes from the first strategy that yields one, else from the first matching known site, else it stays 5.0 and the log ends with the "age unavailable" entry |
| Whois.EarlierStrategyWins | webscraper.py:333-356 | once the library found an age, nothing the later strategies return changes it |
| Whois.TriedInOrder | webscraper.py:282-437 | library, JSON service, port 43 (at the TLD's server) and known sites are tried in that order, each only when all before found no age |
| Whois.LibraryStageFields | webscraper.py:302-325 | the library stage sets the registrar only from a non-empty registrar and the privacy flag only from non-empty e-mails |
| Whois.LaterStagesFields | webscraper.py:332-464 | the stages after the library never change the privacy flag and keep the registrar within 30 characters |
| Whois.RegistrarBounded | webscraper.py:302-419 | whatever the strategies return, the registrar has at most 30 characters |
| Whois.PrivacyFromLibraryOnly | webscraper.py:319-325 | WHOIS privacy is on exactly when the library answered and some e-mail mentions a privacy keyword |
| Whois.MarkMonitorFallback | webscraper.py:425-434 | a registrar still Unknown on a MarkMonitor site becomes MarkMonitor and the log says so |
| Scraper.NormalizeUrlProperties | webscraper.py:57-59 | a normalised URL starts with `http://` or `https://`; such a URL is left alone; normalising twice changes nothing |
| Scraper.HasHttps | webscraper.py:64-65 | Yes exactly when the scheme is https, otherwise No |
| Scraper.BareHost | webscraper.py:57-65 | a bare host name is fetched over HTTPS, is marked HTTPS and is itself the domain |
| Scraper.PlainHttp | webscraper.py:57-65 | an `http://` URL is kept and is marked as not HTTPS |
| Scraper.Scrape | webscraper.py:56-475 | the scraper's result equals the outcome function for every kind of fetch |
| Scraper.PageMetadata | webscraper.py:61-464 | the record built step by step equals the record each rule specifies |
| Scraper.ErrorResults | webscraper.py:468-475 | a record exactly when the page was fetched; timeouts, connection errors, request errors and other exceptions give their fixed messages |
| Scraper.RecordInVocabulary | webscraper.py:28-464 | every categorical field of a record holds one of its known labels, the ad density lies in [0, 1], and the registrar has at most 30 characters |
| Scraper.TlsOnlyForHttps | webscraper.py:80-149 | a non-HTTPS record keeps every TLS default; an HTTPS record's certificate is valid exactly when the handshake succeeded |
| Scraper.RecordDebugLog | webscraper.py:278-464 | the record's debug log is the WHOIS chain's, and it ends with the "age unavailable" entry when no age was found |
| Scraper.Mark | webscraper.py:485-486 | the tick is shown exactly for a true flag |
| Scraper.DisplayLines | webscraper.py:483-493 | ten lines, the HTTPS and SSL lines ticked exactly for Yes, the contact and privacy lines exactly when the flag is set |
| Scraper.FormatForDisplay | webscraper.py:478-495 | no summary exactly for an error result |
| Scraper.DisplayRoundTrip | webscraper.py:478-495 | when no printed value holds a newline, the summary splits back into its ten lines |
| Features.TruncateFeaturesProperties | app.py:68-70 | the cut list is a prefix with min(loaded, n) names, and cutting again changes nothing |
| Features.AgeBucketIntervals | app.py:256-266 | each bucket label covers exactly its half-open interval |
| Features.AgeBucketMonotone | app.py:443-452 | an older domain never gets a younger bucket |
| Features.BatchBucketDisagrees | app.py:575-580 | the batch cut as written differs from the other tabs exactly at ages 1, 5, 10 and 20 |
| Features.SiteRecordShape | app.py:268-293 | the input frame has the same 24 columns in the same order for any input, with the bucket computed from the age |
| Features.TabsBucketAlike | app.py:443-480 | the URL tab and the manual tab give the same bucket column for the same age |
| Features.BatchBucketKept | app.py:574-580 | a batch row that has a bucket keeps it; otherwise the batch tab adds the right-closed bucket of its age, the intended version the half-open bucket of the other tabs; without bucket or age none is added |
| Features.BatchBucketOffThresholds | app.py:574-580 | when no age of the row is 1, 5, 10 or 20, the batch tab as written adds the same bucket as the intended version |
| Features.EncodeLength | app.py:298 | one-hot encoding gives exactly one column per input column |
| Features.DummyPresent | app.py:483 | a categorical column `name` holding `v` yields the column `name_v` set to 1 |
| Features.AlignFeatures | app.py:300-306 | the alignment loop gives the aligned row |
| Features.AlignedCells | app.py:300-306 | each feature's cell is 0 when the record has no such column, else the value of the last column of that name |
| Features.LastWins | app.py:304-306 | assigning by name leaves the last column's value |
| Features.KeepFeaturesValue | app.py:305 | keeping only the feature columns does not change a feature's value |
| Features.AlignedDropsUnseen | app.py:304-306 | encoded columns that are not features do not affect the row |
| Features.AlignIdempotent | app.py:483-491 | aligning an aligned row again changes nothing |
| Features.PrepareStopsOnMismatch | app.py:309-311 | with the list cut at load time, the width check fails exactly when fewer names were loaded than the classifier takes; a ready row has the classifier's width |
| Features.BatchRowsAligned | app.py:574-596 | the batch fails exactly when some row has neither bucket nor age, then fails the width check exactly when the feature list's width is not the classifier's; otherwise each row has the classifier's width and equals what the single-record pipeline gives for it |
| Features.BatchStopsOnMismatch | app.py:593-596 | with the list cut at load time, a batch whose rows have a bucket or an age fails the width check exactly when fewer names were loaded than the classifier takes |
| Indicators.ApplyingMembers | app.py:345-387 | an indicator is listed exactly when some candidate producing it applies |
| Indicators.AgeAndAdRules | app.py:350-375 | established exactly at five years or more, recently registered exactly under one year, high ad density exactly above 0.3 |
| Indicators.NeverEstablishedAndRecent | app.py:350-373 | a domain is never both established and recently registered |
| Indicators.ComplementaryRules | app.py:346-379 | for a scraped record, HTTPS, certificate, contact and privacy each land in exactly one of the two lists |
| Indicators.NeverBothEmpty | app.py:359-387 | for a scraped record, the two "no significant indicators" placeholders never show together |
| Reply.ParseReply | app.py:852-872 | the reading loop gives the fields that replaying the stripped, split lines specifies |
| Reply.StepFields | app.py:859-872 | a line sets only the field of the tag it starts with, and leaves the others unchanged |
| Reply.TagsExclusive | app.py:859-872 | no line starts with two of the tags, so the order of the elif chain does not matter |
| Reply.VerdictFromLastLine | app.py:859-861 | the verdict is the payload of the last VERDICT line, else UNKNOWN |
| Reply.ConfidenceFromLastLine | app.py:862-866 | the confidence is read from the last CONFIDENCE line, else 0 |
| Reply.ReasoningFromLastLine | app.py:867-868 | the reasoning is the payload of the last REASONING line, else empty |
| Reply.RedFlagsFromLastLine | app.py:869-870 | the red flags are the payload of the last RED_FLAGS line, else empty |
| Reply.RecommendationFromLastLine | app.py:871-872 | the recommendation is the payload of the last RECOMMENDATION line, else empty |
| Reply.Defaults | app.py:853-857 | without a VERDICT line the verdict is UNKNOWN; without a CONFIDENCE line the confidence is 0 |
| Reply.Unsigned | app.py:864 | the digit part parses exactly when it is digit groups separated by single underscores |
| Reply.ParseIntRoundTrip | app.py:864 | every integer printed in decimal reads back as itself |
| Reply.ParseIntRejects | app.py:863-866 | a stripped text holding a character that is not a digit, underscore or sign does not parse |
| Reply.ConfidenceRoundTrip | app.py:862-866 | the requested line "CONFIDENCE: n%" gives back n |
| Reply.UnreadableConfidence | app.py:863-866 | when the last CONFIDENCE line does not parse, the confidence is 0 |
| FeatureSummary.CategoricalRule | utils/check_features.py:19 | a name is categorical exactly when it has an underscore and ends in none of the five numeric suffixes |
| FeatureSummary.Partition | utils/check_features.py:15-22 | the loop's two lists are the categorical and numerical selections of the names |
| FeatureSummary.PartitionCounts | utils/check_features.py:18-22 | the two lists together hold every name exactly as often as the input, and their lengths add up |
| FeatureSummary.SelectMembers | utils/check_features.py:18-22 | a name is in a list exactly when it is an input name with the matching test result |
| FeatureSummary.SelectKeepsOrder | utils/check_features.py:18-22 | each list is a subsequence of the input |
| FeatureSummary.BaseSuffix | utils/check_features.py:34-40 | a name's base, an underscore and its printed suffix give the name back |
| FeatureSummary.GroupByBase | utils/check_features.py:31-35 | the grouping loop over a default dictionary gives the grouping function's map |
| FeatureSummary.GroupedContents | utils/check_features.py:32-35 | there is a group for exactly the bases that occur, and each group holds its names in input order |
| FeatureSummary.GroupMembers | utils/check_features.py:33-35 | a name is listed under a base exactly when it is an input name with that base |
| FeatureSummary.Summarise | utils/check_features.py:8-35 | the report splits and groups exactly the first n names |
| FeatureSummary.ReportCoversConsidered | utils/check_features.py:8-22 | min(loaded, n) names are reported, each exactly once: the two lists together are a permutation of the considered names |

## Left out

- Network, clock, TLS and WHOIS I/O: what the fetch, the handshake, the WHOIS library, the JSON service and the socket returned are inputs. The `requests` exception hierarchy becomes the four failure kinds of `Fetch`.
- Date arithmetic and rounding: ages arrive as years already computed. `round(load_time, 2)`, `round(..., 2)` on the ad density and `round(age_days / 365.25, 1)` are not modelled.
- HTML parsing: BeautifulSoup is replaced by an ordered element list holding the attributes the rules read. `str(p.get('class', []))` is modelled as the joined class text, not Python's list repr.
- Regular expressions: every pattern in the DOM rules is a case-insensitive alternation of plain words, modelled as a lower-cased substring test. The port-43 date and registrar patterns are inputs (which pattern matched and whether its date parsed).
- Python's `str.lower()`, `strip()` and `int()` are modelled on ASCII: the white space they strip is Python's ASCII set (space, tab, line feed, carriage return, vertical tab, form feed and 0x1C-0x1F), but Unicode case mapping, white space beyond ASCII (such as U+0085 or U+00A0) and Unicode digits are not modelled.
- URL parsing: `urlparse` is reduced to the scheme, the network location up to `/`, `?` or `#`, and the path.
- pandas: `get_dummies`, column assignment and `pd.cut` are modelled on lists of named columns. The batch frame is modelled row by row. A column name that occurs twice takes its last value. Columns that pandas would order differently are not re-sorted.
- Indicators.PositiveIndicators, Indicators.RiskIndicators: the two lists the tab builds by appending are modelled as ordered rule tables filtered by their conditions, not as an append loop. The display text of each item and the two placeholder lines are not modelled.
- The classifier, the image and text models, the language-model call and the Streamlit UI are not part of this model. Reply models only the reader of the returned text.
- Reply.ConfidenceOf: the confidence is not clamped to 0-100, because the source does not clamp it either.
- FeatureSummary.Summarise: the printed output, and the sorted order in which groups are printed, are not modelled. The report is the two lists and the grouping map.
- Tls.Inspect: a failed handshake resets all four TLS fields to their defaults; the source's handler resets only validity and issuer, so a failure raised after the version or certificate type was set is not represented.
- Scraper.DisplayLines: how numbers are printed is left to two formatting parameters, so only the ticked lines and the line count are stated.
- Where the code and the design description differ, the model follows the code:
  - The MarkMonitor registrar fallback applies whenever the registrar is still Unknown, even when an age was found.
  - A link counts as external when its href starts with `http` and does not contain the page's network location as a substring. This is not a host comparison.
  - The batch tab's bucket is right-closed (see Findings).

## Findings

| source | as written | input that shows it | evidently intended | confidence | as-written member | corrected member |
|---|---|---|---|---|---|---|
| app.py:575-580 | `pd.cut` with edges -inf, 1, 5, 10, 20, inf uses right-closed intervals, so an age on a threshold falls into the younger bucket | domain_age_years = 5.0 gives "1-5y" in the batch tab but "5-10y" in the URL and manual tabs | the same half-open buckets as the other two tabs (`right=False`) | not executed | Features.BatchBucketAsWritten, Features.BatchBucketDisagrees (used by Features.WithBatchBucket and Features.BatchRows) | Features.AgeBucket, Features.AgeBucketIntervals, Features.BatchBucketKept (the intended half, Features.WithBatchBucketIntended) |
