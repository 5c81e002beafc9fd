/** The scraper's entry point and its display helper (webscraper.py): URL
    normalisation, the metadata record with its defaults, the order in which
    the record is filled, the single-key error results, and the ten-line
    summary shown to the user.

    The fetch, the TLS handshake and the WHOIS strategies are inputs; the
    page arrives parsed. */
module Scraper {
  import opened Text
  import opened Tls
  import opened Dom
  import opened Lookup
  import opened Whois

  // ---------------------------------------------------------------- URLs

  /** A URL without an `http://` or `https://` prefix gets `https://`. */
  function NormalizeUrl(url: string): string {
    if StartsWith(url, "http://") || StartsWith(url, "https://") then url else "https://" + url
  }

  predicate HasScheme(u: string) {
    StartsWith(u, "http://") || StartsWith(u, "https://")
  }

  /** Normalising always yields an `http(s)://` URL, leaves such URLs alone,
      and is therefore idempotent. */
  lemma NormalizeUrlProperties(url: string)
    ensures HasScheme(NormalizeUrl(url))
    ensures HasScheme(url) ==> NormalizeUrl(url) == url
    ensures NormalizeUrl(NormalizeUrl(url)) == NormalizeUrl(url)
  {
    if !HasScheme(url) {
      assert ("https://" + url)[..8] == "https://";
    }
  }

  /** The scheme of a normalised URL, as the URL parser reports it. */
  function Scheme(u: string): string {
    if StartsWith(u, "https://") then "https" else "http"
  }

  /** What follows `<scheme>://`. */
  function AfterScheme(u: string): string {
    if StartsWith(u, "https://") then u[8..] else if |u| >= 7 then u[7..] else []
  }

  /** The longest prefix of `s` free of the characters in `stops`. */
  function UpTo(s: string, stops: set<char>): (r: string)
    ensures StartsWith(s, r)
    ensures forall i :: 0 <= i < |r| ==> r[i] !in stops
    ensures |r| < |s| ==> s[|r|] in stops
  {
    if s == [] || s[0] in stops then [] else [s[0]] + UpTo(s[1..], stops)
  }

  /** The network location: up to the first `/`, `?` or `#`. */
  function Netloc(u: string): string {
    UpTo(AfterScheme(u), {'/', '?', '#'})
  }

  /** The path: from the end of the network location up to the query or fragment. */
  function Path(u: string): string {
    var rest := AfterScheme(u);
    UpTo(rest[|Netloc(u)|..], {'?', '#'})
  }

  /** `netloc or path` */
  function Domain(u: string): string {
    if Netloc(u) != "" then Netloc(u) else Path(u)
  }

  function HasHttps(u: string): (r: string)
    ensures r == "Yes" <==> Scheme(u) == "https"
    ensures r == "Yes" || r == "No"
  {
    if Scheme(u) == "https" then "Yes" else "No"
  }

  /** A bare host name such as `example.com` is fetched over HTTPS, and is
      itself the domain. */
  lemma BareHost(host: string)
    requires host != []
    requires forall i :: 0 <= i < |host| ==> host[i] !in {'/', '?', '#', ':'}
    ensures NormalizeUrl(host) == "https://" + host
    ensures Domain(NormalizeUrl(host)) == host
    ensures HasHttps(NormalizeUrl(host)) == "Yes"
  {
    var u := "https://" + host;
    assert !StartsWith(host, "http://") by { assert |host| < 5 || host[4] != ':'; }
    assert !StartsWith(host, "https://") by { assert |host| < 6 || host[5] != ':'; }
    assert u[..8] == "https://";
    assert u[8..] == host;
  }

  /** A URL given with `http://` keeps it and is marked as not HTTPS. */
  lemma PlainHttp(rest: string)
    ensures NormalizeUrl("http://" + rest) == "http://" + rest
    ensures HasHttps(NormalizeUrl("http://" + rest)) == "No"
  {
    var u := "http://" + rest;
    assert u[..7] == "http://";
    if |u| >= 8 { assert u[4] == ':'; }
  }

  // ---------------------------------------------------------------- the record

  /** The metadata record, one field per key of the scraper's dictionary. */
  datatype Metadata = Metadata(
    domain: string, hasHttps: string, sslValid: string, sslIssuer: string,
    tlsVersion: string, certificateType: string,
    domainAgeYears: real, domainRegistrar: string, whoisPrivacyEnabled: bool,
    pageLoadTimeSec: real, redirectCount: nat, serverResponseCode: int,
    adsDensityScore: real, externalLinksCount: nat, popupsPresent: string,
    serverLocation: string, hostingType: string, cdnUsed: string,
    contactInfoAvailable: bool, privacyPolicyExists: bool, termsOfServiceExists: bool,
    socialMediaPresence: string, contentUpdateFrequency: string, mobileResponsive: string,
    debugInfo: seq<DebugEntry>)

  /** The values the record starts from. */
  const Defaults: Metadata := Metadata(
    "", "No", "No", "Unknown", "none", "none",
    DefaultAge, "Unknown", false,
    0.0, 0, 404,
    0.0, 0, "No",
    "Unknown", "", "no",
    false, false, false,
    "low", "irregular", "No",
    [])

  /** What fetching the page gave: one of the request failures, an unexpected
      exception while the page was processed, or the response (status,
      number of redirects, load time in seconds, headers and parsed page). */
  datatype Fetch =
    | Timeout
    | ConnectionFailed
    | RequestFailed(message: string)
    | Unexpected(message: string)
    | Fetched(status: int, redirects: nat, loadTime: real, headers: Headers, page: Page)

  /** The scraper's result: the single-key error dictionary, or the record. */
  datatype ScrapeResult = ScrapeError(error: string) | Scraped(metadata: Metadata)

  /** The labels the record's categorical fields can take. */
  predicate InVocabulary(m: Metadata) {
    m.hasHttps in {"Yes", "No"} && m.sslValid in {"Yes", "No"} &&
    m.certificateType in {"none", "OV", "DV"} &&
    m.popupsPresent in {"Yes", "No"} && m.serverLocation in {"USA", "Unknown"} &&
    m.hostingType in {"dedicated", ""} && m.cdnUsed in {"yes", "no"} &&
    m.socialMediaPresence in {"none", "low", "medium"} &&
    m.contentUpdateFrequency in {"weekly", "irregular"} &&
    m.mobileResponsive in {"Yes", "Partial", "No"} &&
    0.0 <= m.adsDensityScore <= 1.0 && |m.domainRegistrar| <= 30
  }

  /** The record for a fetched page, each field from the rule that sets it;
      the TLS fields keep their defaults unless the URL is HTTPS. */
  function PageRecord(u: string, status: int, redirects: nat, loadTime: real, h: Headers, page: Page,
                      handshake: Handshake, lib: LibraryOutcome, api: ApiOutcome, sock: SocketOutcome): Metadata
  {
    var domain, es := Domain(u), page.elements;
    var tls := if Scheme(u) == "https" then Inspect(handshake, domain)
               else TlsFields(Defaults.sslValid, Defaults.sslIssuer, Defaults.tlsVersion, Defaults.certificateType);
    var w := Resolve(domain, lib, api, sock);
    Metadata(
      domain, HasHttps(u), tls.sslValid, tls.issuer, tls.tlsVersion, tls.certificateType,
      w.age, w.registrar, w.privacy,
      loadTime, redirects, status,
      AdDensity(es), ExternalLinkCount(es, Netloc(u)), PopupsPresent(es),
      ServerLocation(h), HostingType(h, domain), if CdnInResources(es) || CdnInHeaders(h) then "yes" else "no",
      ContactInfoAvailable(page), PrivacyPolicyExists(page), TermsOfServiceExists(page),
      SocialPresence(SocialLinkCount(es)), UpdateFrequency(es, h), MobileResponsive(es),
      Defaults.debugInfo + w.log)
  }

  /** The scraper's result for each kind of fetch outcome. */
  function ScrapeOutcome(url: string, fetch: Fetch, handshake: Handshake,
                         lib: LibraryOutcome, api: ApiOutcome, sock: SocketOutcome): ScrapeResult
  {
    match fetch
    case Timeout => ScrapeError("Request timeout - website took too long to respond")
    case ConnectionFailed => ScrapeError("Connection error - could not reach website")
    case RequestFailed(msg) => ScrapeError("Request error: " + msg)
    case Unexpected(msg) => ScrapeError("Scraping error: " + msg)
    case Fetched(status, redirects, loadTime, h, page) =>
      Scraped(PageRecord(NormalizeUrl(url), status, redirects, loadTime, h, page, handshake, lib, api, sock))
  }

  /** The scraper: normalise the URL, fetch, and either give the error for a
      failed request or build the record of the fetched page. */
  method Scrape(url: string, fetch: Fetch, handshake: Handshake,
                lib: LibraryOutcome, api: ApiOutcome, sock: SocketOutcome)
    returns (r: ScrapeResult)
    ensures r == ScrapeOutcome(url, fetch, handshake, lib, api, sock)
  {
    var u := NormalizeUrl(url);
    match fetch {
      case Timeout =>
        return ScrapeError("Request timeout - website took too long to respond");
      case ConnectionFailed =>
        return ScrapeError("Connection error - could not reach website");
      case RequestFailed(msg) =>
        return ScrapeError("Request error: " + msg);
      case Unexpected(msg) =>
        return ScrapeError("Scraping error: " + msg);
      case Fetched(status, redirects, loadTime, h, page) =>
        var m := PageMetadata(u, status, redirects, loadTime, h, page, handshake, lib, api, sock);
        r := Scraped(m);
    }
  }

  /** The work on a fetched page: TLS for HTTPS URLs, the page heuristics
      (counting external links and scanning the CDN headers in loops), then
      the WHOIS chain. */
  method PageMetadata(u: string, status: int, redirects: nat, loadTime: real, h: Headers, page: Page,
                      handshake: Handshake, lib: LibraryOutcome, api: ApiOutcome, sock: SocketOutcome)
    returns (m: Metadata)
    ensures m == PageRecord(u, status, redirects, loadTime, h, page, handshake, lib, api, sock)
  {
    var domain, hasHttps := Domain(u), HasHttps(u);
    var tls := TlsFields(Defaults.sslValid, Defaults.sslIssuer, Defaults.tlsVersion, Defaults.certificateType);
    if Scheme(u) == "https" {
      tls := Inspect(handshake, domain);
    }
    var es := page.elements;
    var external := CountExternalLinks(es, Netloc(u));
    var cdn := CdnInResources(es);
    if !cdn {
      var found, _ := CdnFromHeaders(h);
      cdn := found;
    }
    var w := ResolveWhois(domain, lib, api, sock);
    m := Metadata(
      domain, hasHttps, tls.sslValid, tls.issuer, tls.tlsVersion, tls.certificateType,
      w.age, w.registrar, w.privacy,
      loadTime, redirects, status,
      AdDensity(es), external, PopupsPresent(es),
      ServerLocation(h), HostingType(h, domain), if cdn then "yes" else "no",
      ContactInfoAvailable(page), PrivacyPolicyExists(page), TermsOfServiceExists(page),
      SocialPresence(SocialLinkCount(es)), UpdateFrequency(es, h), MobileResponsive(es),
      Defaults.debugInfo + w.log);
  }

  /** A failed fetch gives the one-key error result with its fixed message;
      a fetched page always gives a record. */
  lemma ErrorResults(url: string, fetch: Fetch, handshake: Handshake,
                     lib: LibraryOutcome, api: ApiOutcome, sock: SocketOutcome)
    ensures var r := ScrapeOutcome(url, fetch, handshake, lib, api, sock);
            (r.Scraped? <==> fetch.Fetched?) &&
            (fetch.Timeout? ==> r.error == "Request timeout - website took too long to respond") &&
            (fetch.ConnectionFailed? ==> r.error == "Connection error - could not reach website") &&
            (fetch.RequestFailed? ==> StartsWith(r.error, "Request error: ")) &&
            (fetch.Unexpected? ==> StartsWith(r.error, "Scraping error: "))
  {
    match fetch
    case RequestFailed(msg) =>
      assert ScrapeOutcome(url, fetch, handshake, lib, api, sock) == ScrapeError("Request error: " + msg);
      assert ("Request error: " + msg)[..15] == "Request error: ";
    case Unexpected(msg) =>
      assert ScrapeOutcome(url, fetch, handshake, lib, api, sock) == ScrapeError("Scraping error: " + msg);
      assert ("Scraping error: " + msg)[..16] == "Scraping error: ";
    case Fetched(_, _, _, _, _) =>
      assert ScrapeOutcome(url, fetch, handshake, lib, api, sock).Scraped?;
    case _ =>
  }

  /** Every categorical field of a scraped record holds one of its known
      labels, the ad density is a fraction, and the registrar has at most 30
      characters. */
  lemma RecordInVocabulary(u: string, status: int, redirects: nat, loadTime: real, h: Headers, page: Page,
                           handshake: Handshake, lib: LibraryOutcome, api: ApiOutcome, sock: SocketOutcome)
    ensures InVocabulary(PageRecord(u, status, redirects, loadTime, h, page, handshake, lib, api, sock))
  {
    RegistrarBounded(Domain(u), lib, api, sock);
  }

  /** TLS fields are read from the handshake only for HTTPS URLs; a plain
      HTTP URL keeps every TLS default, and a failed handshake resets them. */
  lemma TlsOnlyForHttps(u: string, status: int, redirects: nat, loadTime: real, h: Headers, page: Page,
                        handshake: Handshake, lib: LibraryOutcome, api: ApiOutcome, sock: SocketOutcome)
    ensures var m := PageRecord(u, status, redirects, loadTime, h, page, handshake, lib, api, sock);
            (m.hasHttps == "No" ==> m.sslValid == "No" && m.sslIssuer == "Unknown" &&
                                    m.tlsVersion == "none" && m.certificateType == "none") &&
            (m.hasHttps == "Yes" ==> (m.sslValid == "Yes" <==> handshake.Handshake?))
  {
  }

  /** The record's debug log is the WHOIS chain's, and it closes with the
      "age unavailable" entry exactly when no age was found. */
  lemma RecordDebugLog(u: string, status: int, redirects: nat, loadTime: real, h: Headers, page: Page,
                       handshake: Handshake, lib: LibraryOutcome, api: ApiOutcome, sock: SocketOutcome)
    ensures var m := PageRecord(u, status, redirects, loadTime, h, page, handshake, lib, api, sock);
            var known := FirstHit(KnownSiteAges, Lower(Domain(u)));
            m.debugInfo == Resolve(Domain(u), lib, api, sock).log &&
            (StrategyAge(lib, api, sock).None? && known.None? ==>
               m.domainAgeYears == DefaultAge && m.debugInfo != [] &&
               m.debugInfo[|m.debugInfo| - 1] == AgeUnavailable(DefaultAge))
  {
    ResolvedAge(Domain(u), lib, api, sock);
  }

  // ---------------------------------------------------------------- display

  function Mark(ok: bool): (r: string)
    ensures r == "✅" <==> ok
  {
    if ok then "✅" else "❌"
  }

  lemma MarkLine(caption: string, ok: bool)
    ensures caption + Mark(ok) == caption + "✅" <==> ok
  {
    if caption + Mark(ok) == caption + "✅" {
      assert (caption + Mark(ok))[|caption|] == (caption + "✅")[|caption|];
    }
  }

  /** The ten summary lines; how numbers are printed is left to `showReal`
      and `showNat`. */
  function DisplayLines(m: Metadata, showReal: real -> string, showNat: nat -> string): (lines: seq<string>)
    ensures |lines| == 10
    ensures lines[1] == "**HTTPS:** ✅" <==> m.hasHttps == "Yes"
    ensures lines[2] == "**SSL Valid:** ✅" <==> m.sslValid == "Yes"
    ensures lines[8] == "**Contact Info:** ✅" <==> m.contactInfoAvailable
    ensures lines[9] == "**Privacy Policy:** ✅" <==> m.privacyPolicyExists
  {
    MarkLine("**HTTPS:** ", m.hasHttps == "Yes");
    MarkLine("**SSL Valid:** ", m.sslValid == "Yes");
    MarkLine("**Contact Info:** ", m.contactInfoAvailable);
    MarkLine("**Privacy Policy:** ", m.privacyPolicyExists);
    [ "**Domain:** " + m.domain,
      "**HTTPS:** " + Mark(m.hasHttps == "Yes"),
      "**SSL Valid:** " + Mark(m.sslValid == "Yes"),
      "**SSL Issuer:** " + m.sslIssuer,
      "**Certificate Type:** " + m.certificateType,
      "**Domain Age:** " + showReal(m.domainAgeYears) + " years",
      "**Page Load Time:** " + showReal(m.pageLoadTimeSec) + "s",
      "**External Links:** " + showNat(m.externalLinksCount),
      "**Contact Info:** " + Mark(m.contactInfoAvailable),
      "**Privacy Policy:** " + Mark(m.privacyPolicyExists) ]
  }

  /** Nothing for an error result; otherwise the lines joined by newlines. */
  function FormatForDisplay(r: ScrapeResult, showReal: real -> string, showNat: nat -> string): (s: Option<string>)
    ensures s.None? <==> r.ScrapeError?
  {
    match r
    case ScrapeError(_) => None
    case Scraped(m) => Some(Join(DisplayLines(m, showReal, showNat), '\n'))
  }

  /** When no value printed contains a newline, the summary splits back into
      exactly its ten lines. */
  lemma DisplayRoundTrip(m: Metadata, showReal: real -> string, showNat: nat -> string)
    requires forall k :: 0 <= k < 10 ==> !HasChar(DisplayLines(m, showReal, showNat)[k], '\n')
    ensures var s := FormatForDisplay(Scraped(m), showReal, showNat);
            s.Some? && Split(s.value, '\n') == DisplayLines(m, showReal, showNat) &&
            |Split(s.value, '\n')| == 10
  {
    SplitJoin(DisplayLines(m, showReal, showNat), '\n');
  }
}
