/** The page heuristics of the scraper (webscraper.py, lines 151-276 and
    452-460): ad density, popups, mobile responsiveness, external links,
    contact / privacy / terms signals, social-media presence, CDN use, server
    location, hosting type and update frequency.

    The parsed HTML is an ordered list of elements with the attributes the
    heuristics read; the page's visible text and the response headers are
    given beside it. Every regular expression of these rules is a
    case-insensitive alternation of plain words, so "matches" is "the
    lower-cased attribute contains one of the words". */
module Dom {
  import opened Text

  /** One HTML element: its tag name, its class attribute (the classes joined
      by spaces, "" when absent), its id ("" when absent), and the `href`,
      `src`, `name` and `property` attributes when present; `hasContent` says
      whether it carries a `content` attribute. */
  datatype Element = Element(
    tag: string, cls: string, id: string,
    href: Option<string>, src: Option<string>,
    name: Option<string>, property: Option<string>,
    hasContent: bool)

  /** The parsed page: every element in document order, and the visible text. */
  datatype Page = Page(elements: seq<Element>, text: string)

  /** Response headers, keyed by lower-case header name (HTTP header names are
      case-insensitive, and the response exposes them that way). */
  type Headers = map<string, string>

  const AdWords: seq<string> := ["ad", "advertisement", "banner", "sponsor"]
  const AdFrameWords: seq<string> := ["ad", "doubleclick", "adsense"]
  const PopupClassWords: seq<string> := ["popup", "pop-up", "popover"]
  const PopupIdWords: seq<string> := ["popup", "pop-up"]
  const ConsentWords: seq<string> := ["cookie", "consent", "gdpr", "privacy"]
  const ResponsiveWords: seq<string> := ["responsive", "mobile", "col-"]
  const ContactWords: seq<string> := ["contact", "email", "phone", "address", "reach us", "get in touch"]
  const PrivacyWords: seq<string> := ["privacy policy", "privacy notice", "data protection"]
  const TermsWords: seq<string> := ["terms of service", "terms and conditions", "terms of use", "user agreement"]
  const SocialPlatforms: seq<string> := [
    "facebook.com", "twitter.com", "x.com", "linkedin.com", "instagram.com",
    "youtube.com", "tiktok.com", "pinterest.com"
  ]
  const CdnWords: seq<string> := [
    "cloudflare", "cloudfront", "akamai", "fastly", "cdn.", "maxcdn", "cloudimg", "jsdelivr", "cdnjs"
  ]
  /** The headers inspected for CDN traces, in the order they are tried. */
  const CdnHeaders: seq<string> := ["server", "x-cache", "x-cdn", "cf-ray", "x-amz-cf-id", "x-fastly-request-id"]
  const HostingWords: seq<string> := [
    "enterprise", "aws", "azure", "gcp", "google", "amazon", "microsoft", "cloudflare", "fastly", "akamai"
  ]
  const ProfessionalSites: seq<string> := [
    "github", "google", "youtube", "facebook", "microsoft", "amazon", "apple", "netflix", "twitter", "linkedin"
  ]

  function OrEmpty(o: Option<string>): string {
    match o
    case Some(v) => v
    case None => ""
  }

  /** `headers.get(name, "")` */
  function Header(h: Headers, name: string): string {
    if name in h then h[name] else ""
  }

  // ---------------------------------------------------------------- ads

  predicate AdByClass(e: Element) { ContainsAny(Lower(e.cls), AdWords) }
  predicate AdById(e: Element) { ContainsAny(Lower(e.id), AdWords) }
  predicate AdFrame(e: Element) {
    e.tag == "iframe" && e.src.Some? && ContainsAny(Lower(e.src.value), AdFrameWords)
  }

  /** Elements matched by class, plus those matched by id, plus ad iframes:
      an element matched twice is counted twice. */
  function AdElementCount(es: seq<Element>): nat {
    Count(es, AdByClass) + Count(es, AdById) + Count(es, AdFrame)
  }

  /** `min(count / total, 1)` for a positive total. */
  function CappedRatio(count: nat, total: nat): (r: real)
    requires total >= 1
    ensures 0.0 <= r <= 1.0
    ensures r < 1.0 ==> r * total as real == count as real
    ensures r == 1.0 <==> count >= total
  {
    var ratio := count as real / total as real;
    RatioFacts(count as real, total as real);
    if ratio < 1.0 then ratio else 1.0
  }

  lemma RatioFacts(n: real, t: real)
    requires n >= 0.0 && t >= 1.0
    ensures 0.0 <= n / t && (n / t) * t == n
    ensures n / t < 1.0 <==> n < t
  {
    var q := n / t;
    assert q * t == n;
    if q < 1.0 {
      assert (1.0 - q) * t > 0.0;
    } else {
      assert (q - 1.0) * t >= 0.0;
    }
  }

  /** The ad density: ad elements over all elements (at least 1), capped at 1. */
  function AdDensity(es: seq<Element>): (r: real)
    ensures 0.0 <= r <= 1.0
    ensures es == [] ==> r == 0.0
    ensures r < 1.0 ==> r * (if es == [] then 1 else |es|) as real == AdElementCount(es) as real
    ensures r == 1.0 <==> AdElementCount(es) >= (if es == [] then 1 else |es|)
  {
    CappedRatio(AdElementCount(es), if |es| > 0 then |es| else 1)
  }

  // ---------------------------------------------------------------- popups

  /** Cookie and consent banners are never counted as popups. */
  predicate ConsentElement(e: Element) {
    ContainsAny(Lower(e.cls), ConsentWords) || ContainsAny(Lower(e.id), ConsentWords)
  }
  predicate PopupByClass(e: Element) { ContainsAny(Lower(e.cls), PopupClassWords) && !ConsentElement(e) }
  predicate PopupById(e: Element) { ContainsAny(Lower(e.id), PopupIdWords) && !ConsentElement(e) }

  /** Popup candidates by class plus those by id, consent elements removed. */
  function PopupCount(es: seq<Element>): nat {
    Count(es, PopupByClass) + Count(es, PopupById)
  }

  /** "Yes" when more than three popup elements remain. */
  function PopupsPresent(es: seq<Element>): (r: string)
    ensures r == "Yes" || r == "No"
    ensures r == "Yes" <==> PopupCount(es) > 3
  {
    if PopupCount(es) > 3 then "Yes" else "No"
  }

  /** A consent element, wherever it stands, never changes the popup count. */
  lemma ConsentNeverCounts(before: seq<Element>, e: Element, after: seq<Element>)
    requires ConsentElement(e)
    ensures PopupCount(before + [e] + after) == PopupCount(before + after)
    ensures PopupsPresent(before + [e] + after) == PopupsPresent(before + after)
  {
    CountAppend(before + [e], after, PopupByClass);
    CountAppend(before, [e], PopupByClass);
    CountAppend(before, after, PopupByClass);
    CountAppend(before + [e], after, PopupById);
    CountAppend(before, [e], PopupById);
    CountAppend(before, after, PopupById);
    CountSingle(e, PopupByClass);
    CountSingle(e, PopupById);
  }

  /** An element whose class names a popup and that is no consent element adds
      at least one to the count. */
  lemma PopupClassCounts(before: seq<Element>, e: Element, after: seq<Element>)
    requires ContainsAny(Lower(e.cls), PopupClassWords) && !ConsentElement(e)
    ensures PopupCount(before + [e] + after) >= PopupCount(before + after) + 1
  {
    CountAppend(before + [e], after, PopupByClass);
    CountAppend(before, [e], PopupByClass);
    CountAppend(before, after, PopupByClass);
    CountAppend(before + [e], after, PopupById);
    CountAppend(before, [e], PopupById);
    CountAppend(before, after, PopupById);
    CountSingle(e, PopupByClass);
    CountSingle(e, PopupById);
  }

  /** The first case the consent rule is meant for: an element of class
      `popup-modal cookie-consent` is a consent element, so it is never
      counted as a popup. */
  lemma ConsentBannerExample(e: Element)
    requires e.cls == "popup-modal cookie-consent"
    ensures ConsentElement(e) && !PopupByClass(e) && !PopupById(e)
  {
    ContainsAt(e.cls, "cookie", 12);
    LowerUnchanged(e.cls);
    ContainsAnyAt(Lower(e.cls), ConsentWords, 0);
  }

  // ---------------------------------------------------------------- mobile

  /** The first `meta` element named `viewport`, if any. */
  function FirstViewport(es: seq<Element>): (r: Option<Element>)
    ensures r.Some? ==> r.value in es && r.value.tag == "meta" && r.value.name == Some("viewport")
    ensures r.None? ==> forall e :: e in es ==> !(e.tag == "meta" && e.name == Some("viewport"))
  {
    if es == [] then None
    else if es[0].tag == "meta" && es[0].name == Some("viewport") then Some(es[0])
    else FirstViewport(es[1..])
  }

  predicate ResponsiveClass(e: Element) { ContainsAny(Lower(e.cls), ResponsiveWords) }

  /** "Yes" when the first viewport meta tag has a content attribute; otherwise
      "Partial" when more than five elements carry responsive classes, else "No". */
  function MobileResponsive(es: seq<Element>): (r: string)
    ensures r in {"Yes", "Partial", "No"}
  {
    var viewport := FirstViewport(es);
    if viewport.Some? && viewport.value.hasContent then "Yes"
    else if Count(es, ResponsiveClass) > 5 then "Partial"
    else "No"
  }

  /** The three outcomes of the mobile rule, each stated both ways. */
  lemma MobileResponsiveCases(es: seq<Element>)
    ensures MobileResponsive(es) == "Yes" <==> FirstViewport(es).Some? && FirstViewport(es).value.hasContent
    ensures MobileResponsive(es) == "Partial" <==>
            !(FirstViewport(es).Some? && FirstViewport(es).value.hasContent) && Count(es, ResponsiveClass) > 5
    ensures MobileResponsive(es) == "No" <==>
            !(FirstViewport(es).Some? && FirstViewport(es).value.hasContent) && Count(es, ResponsiveClass) <= 5
  {
  }

  // ---------------------------------------------------------------- links

  /** An `a` element with an `href` attribute. */
  predicate IsLink(e: Element) { e.tag == "a" && e.href.Some? }

  /** A link is external when its href starts with `http` and does not contain
      the page's own network location as a substring. */
  predicate IsExternal(e: Element, netloc: string) {
    IsLink(e) && StartsWith(e.href.value, "http") && !Contains(e.href.value, netloc)
  }

  function ExternalTo(netloc: string): Element -> bool {
    (e: Element) => IsExternal(e, netloc)
  }

  function ExternalLinkCount(es: seq<Element>, netloc: string): nat {
    Count(es, ExternalTo(netloc))
  }

  /** The counting loop over the page's links. */
  method CountExternalLinks(es: seq<Element>, netloc: string) returns (n: nat)
    ensures n == ExternalLinkCount(es, netloc)
    ensures n <= Count(es, IsLink)
  {
    n := 0;
    var links := 0;
    var i := 0;
    while i < |es|
      invariant 0 <= i <= |es|
      invariant n == ExternalLinkCount(es[..i], netloc)
      invariant links == Count(es[..i], IsLink)
      invariant n <= links
    {
      assert es[..i + 1][..i] == es[..i];
      var e := es[i];
      if IsLink(e) {
        links := links + 1;
        if StartsWith(e.href.value, "http") && !Contains(e.href.value, netloc) {
          n := n + 1;
        }
      }
      i := i + 1;
    }
    assert es[..i] == es;
  }

  /** With an empty network location no link is external, since every href
      contains the empty string. */
  lemma {:induction false} NoNetlocNoExternal(es: seq<Element>)
    ensures ExternalLinkCount(es, "") == 0
    decreases |es|
  {
    if es != [] {
      var last := es[|es| - 1];
      if last.href.Some? { EmptyContained(last.href.value); }
      NoNetlocNoExternal(es[..|es| - 1]);
    }
  }

  /** Some link's href mentions `word` (lower-cased). */
  predicate LinkMentions(es: seq<Element>, word: string) {
    exists i :: 0 <= i < |es| && IsLink(es[i]) && Contains(Lower(es[i].href.value), word)
  }

  function ContactInfoAvailable(p: Page): bool {
    ContainsAny(Lower(p.text), ContactWords) || LinkMentions(p.elements, "contact")
  }

  function PrivacyPolicyExists(p: Page): bool {
    ContainsAny(Lower(p.text), PrivacyWords) || LinkMentions(p.elements, "privacy")
  }

  function TermsOfServiceExists(p: Page): bool {
    ContainsAny(Lower(p.text), TermsWords) || LinkMentions(p.elements, "terms")
  }

  /** Each of the three signals is found either in the visible text or in a
      link, and adding elements to a page never turns one off. */
  lemma SignalsOnlyGrow(p: Page, more: seq<Element>)
    ensures ContactInfoAvailable(p) ==> ContactInfoAvailable(Page(p.elements + more, p.text))
    ensures PrivacyPolicyExists(p) ==> PrivacyPolicyExists(Page(p.elements + more, p.text))
    ensures TermsOfServiceExists(p) ==> TermsOfServiceExists(Page(p.elements + more, p.text))
  {
    var all := p.elements + more;
    forall i | 0 <= i < |p.elements| ensures all[i] == p.elements[i] { }
  }

  // ---------------------------------------------------------------- social

  predicate IsSocialLink(e: Element) { IsLink(e) && ContainsAny(Lower(e.href.value), SocialPlatforms) }

  function SocialLinkCount(es: seq<Element>): nat { Count(es, IsSocialLink) }

  /** The social-media bucket of a number of social links; there is no "high". */
  function SocialPresence(links: nat): (r: string)
    ensures r in {"none", "low", "medium"}
    ensures r == "none" <==> links == 0
    ensures r == "low" <==> links == 1
    ensures r == "medium" <==> links >= 2
  {
    if links >= 2 then "medium" else if links >= 1 then "low" else "none"
  }

  // ---------------------------------------------------------------- CDN

  predicate IsResource(e: Element) {
    (e.tag == "script" && e.src.Some?) || (e.tag == "link" && e.href.Some?) || (e.tag == "img" && e.src.Some?)
  }

  /** A script, stylesheet link or image whose `src` followed by its `href`
      names a CDN. */
  predicate CdnInResources(es: seq<Element>) {
    exists i :: 0 <= i < |es| && IsResource(es[i]) &&
                ContainsAny(Lower(OrEmpty(es[i].src) + OrEmpty(es[i].href)), CdnWords)
  }

  predicate CdnHeaderValue(v: string) {
    ContainsAny(Lower(v), CdnWords) || Contains(Lower(v), "cache")
  }

  /** Some inspected header is present and names a CDN or a cache. */
  predicate CdnInHeaders(h: Headers) {
    exists i :: 0 <= i < |CdnHeaders| && CdnHeaders[i] in h && CdnHeaderValue(h[CdnHeaders[i]])
  }

  /** The header loop, which stops at the first header that shows a CDN. */
  method CdnFromHeaders(h: Headers) returns (found: bool, at: nat)
    ensures found == CdnInHeaders(h)
    ensures found ==> at < |CdnHeaders| && CdnHeaders[at] in h && CdnHeaderValue(h[CdnHeaders[at]])
    ensures found ==> forall j :: 0 <= j < at ==> !(CdnHeaders[j] in h && CdnHeaderValue(h[CdnHeaders[j]]))
  {
    found, at := false, 0;
    var i := 0;
    while i < |CdnHeaders|
      invariant 0 <= i <= |CdnHeaders|
      invariant forall j :: 0 <= j < i ==> !(CdnHeaders[j] in h && CdnHeaderValue(h[CdnHeaders[j]]))
    {
      var name := CdnHeaders[i];
      if name in h {
        var value := h[name];
        if CdnHeaderValue(value) {
          found, at := true, i;
          break;
        }
      }
      i := i + 1;
    }
  }

  // ---------------------------------------------------------------- server

  function ServerLocation(h: Headers): (r: string)
    ensures r == "USA" <==> Header(h, "cf-ray") != "" || Contains(Lower(Header(h, "server")), "cloudflare")
    ensures r == "USA" || r == "Unknown"
  {
    if Header(h, "cf-ray") != "" || Contains(Lower(Header(h, "server")), "cloudflare") then "USA" else "Unknown"
  }

  /** "dedicated" on professional server or domain signs; otherwise left empty. */
  function HostingType(h: Headers, domain: string): (r: string)
    ensures r == "dedicated" || r == ""
    ensures r == "dedicated" <==>
            ContainsAny(Lower(Header(h, "server")), HostingWords) || ContainsAny(Lower(domain), ProfessionalSites)
  {
    if ContainsAny(Lower(Header(h, "server")), HostingWords) || ContainsAny(Lower(domain), ProfessionalSites)
    then "dedicated" else ""
  }

  /** Hosting is never guessed on a domain that is not a professional site when
      the server header shows nothing. */
  lemma HostingNotGuessed(h: Headers, domain: string)
    requires !ContainsAny(Lower(Header(h, "server")), HostingWords)
    requires !ContainsAny(Lower(domain), ProfessionalSites)
    ensures HostingType(h, domain) == ""
  {
  }

  predicate ModifiedMeta(e: Element) {
    e.tag == "meta" && (e.property == Some("article:modified_time") || e.name == Some("last-modified"))
  }

  /** "weekly" when the page carries a modification-time meta tag or the
      response a Last-Modified header; "irregular" otherwise. */
  function UpdateFrequency(es: seq<Element>, h: Headers): (r: string)
    ensures r == "weekly" || r == "irregular"
    ensures r == "weekly" <==>
            (exists i :: 0 <= i < |es| && ModifiedMeta(es[i])) || Header(h, "last-modified") != ""
  {
    if (exists i :: 0 <= i < |es| && ModifiedMeta(es[i])) || Header(h, "last-modified") != ""
    then "weekly" else "irregular"
  }
}
