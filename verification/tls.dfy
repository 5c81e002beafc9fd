/** The TLS part of the scraper (webscraper.py, lines 80-149): the issuer
    label, the certificate type and the TLS version label derived from what
    the handshake reported. The handshake itself is an input. */
module Tls {
  import opened Text
  import opened Lookup

  /** The issuer's `organizationName` and `commonName` entries, when present. */
  datatype IssuerNames = IssuerNames(org: Option<string>, commonName: Option<string>)

  /** The peer certificate: its issuer entries and the set of keys of its subject,
      each absent when the certificate does not carry it. */
  datatype Certificate = Certificate(issuer: Option<IssuerNames>, subject: Option<set<string>>)

  /** What the TLS handshake on port 443 gave: a failure (any socket or SSL
      error), or the negotiated protocol name and the certificate
      (`None` for an empty certificate). */
  datatype Handshake = HandshakeFailed | Handshake(version: Option<string>, cert: Option<Certificate>)

  /** The four fields of the record the TLS step fills in. */
  datatype TlsFields = TlsFields(sslValid: string, issuer: string, tlsVersion: string, certificateType: string)

  /** The issuer table in priority order (Google Trust Services and
      Comodo/Sectigo are reported as DigiCert). */
  const IssuerTable: seq<Row<string>> := [
    Row(["let's encrypt", "letsencrypt"], "Let's Encrypt"),
    Row(["digicert"], "DigiCert"),
    Row(["globalsign"], "GlobalSign"),
    Row(["google"], "DigiCert"),
    Row(["comodo", "sectigo"], "DigiCert"),
    Row(["geotrust"], "GeoTrust"),
    Row(["cloudflare"], "Cloudflare"),
    Row(["amazon"], "Amazon")
  ]

  /** Domains treated as major sites, which always get an OV certificate type. */
  const MajorSites: seq<string> := [
    "github", "google", "youtube", "facebook", "microsoft", "amazon", "apple", "netflix",
    "twitter", "linkedin", "reddit", "wikipedia", "stackoverflow", "zoom", "dropbox", "adobe"
  ]

  /** The organisation name, `Unknown` when the issuer has none. */
  function OrgName(n: IssuerNames): string {
    match n.org
    case Some(o) => o
    case None => "Unknown"
  }

  /** The text searched for issuer patterns: "<org> <cn>", lower-cased. */
  function IssuerText(n: IssuerNames): string {
    var cn := match n.commonName case Some(c) => c case None => "";
    Lower(OrgName(n) + " " + cn)
  }

  /** The issuer label, written as the source's if/elif chain. */
  function IssuerLabel(n: IssuerNames): string {
    var full := IssuerText(n);
    if Contains(full, "let's encrypt") || Contains(full, "letsencrypt") then "Let's Encrypt"
    else if Contains(full, "digicert") then "DigiCert"
    else if Contains(full, "globalsign") then "GlobalSign"
    else if Contains(full, "google") then "DigiCert"
    else if Contains(full, "comodo") || Contains(full, "sectigo") then "DigiCert"
    else if Contains(full, "geotrust") then "GeoTrust"
    else if Contains(full, "cloudflare") then "Cloudflare"
    else if Contains(full, "amazon") then "Amazon"
    else Take(OrgName(n), 20)
  }

  /** The if/elif chain is the table read in priority order: the issuer label
      is the label of the first row of `IssuerTable` that matches the issuer
      text, or the organisation name cut to 20 characters when none does. */
  lemma IssuerLabelIsFirstMatch(n: IssuerNames)
    ensures IssuerLabel(n) == Classify(IssuerTable, IssuerText(n), Take(OrgName(n), 20))
  {
    var t, fb := IssuerText(n), Take(OrgName(n), 20);
    var T := IssuerTable;
    ContainsAnySingle(t, "amazon");
    assert Classify(T[7..], t, fb) == if Contains(t, "amazon") then "Amazon" else fb by {
      assert T[7..][1..] == [];
    }
    ContainsAnySingle(t, "cloudflare");
    assert Classify(T[6..], t, fb) == if Contains(t, "cloudflare") then "Cloudflare" else Classify(T[7..], t, fb) by {
      assert T[6..][1..] == T[7..];
    }
    ContainsAnySingle(t, "geotrust");
    assert Classify(T[5..], t, fb) == if Contains(t, "geotrust") then "GeoTrust" else Classify(T[6..], t, fb) by {
      assert T[5..][1..] == T[6..];
    }
    ContainsAnyPair(t, "comodo", "sectigo");
    assert Classify(T[4..], t, fb) ==
      if Contains(t, "comodo") || Contains(t, "sectigo") then "DigiCert" else Classify(T[5..], t, fb) by {
      assert T[4..][1..] == T[5..];
    }
    ContainsAnySingle(t, "google");
    assert Classify(T[3..], t, fb) == if Contains(t, "google") then "DigiCert" else Classify(T[4..], t, fb) by {
      assert T[3..][1..] == T[4..];
    }
    ContainsAnySingle(t, "globalsign");
    assert Classify(T[2..], t, fb) == if Contains(t, "globalsign") then "GlobalSign" else Classify(T[3..], t, fb) by {
      assert T[2..][1..] == T[3..];
    }
    ContainsAnySingle(t, "digicert");
    assert Classify(T[1..], t, fb) == if Contains(t, "digicert") then "DigiCert" else Classify(T[2..], t, fb) by {
      assert T[1..][1..] == T[2..];
    }
    ContainsAnyPair(t, "let's encrypt", "letsencrypt");
  }

  /** An issuer label is either one of the known issuer names or a prefix of
      at most 20 characters of the organisation name. */
  lemma IssuerLabelRange(n: IssuerNames)
    ensures var r := IssuerLabel(n);
            r in {"Let's Encrypt", "DigiCert", "GlobalSign", "GeoTrust", "Cloudflare", "Amazon"} ||
            (|r| <= 20 && StartsWith(OrgName(n), r))
  {
  }

  /** `version.replace('v', ' ')`: every `v` becomes a space. */
  function VersionLabel(v: string): (r: string)
    ensures |r| == |v|
    ensures forall i :: 0 <= i < |v| ==> r[i] == (if v[i] == 'v' then ' ' else v[i])
  {
    if v == [] then [] else [if v[0] == 'v' then ' ' else v[0]] + VersionLabel(v[1..])
  }

  /** The label never contains a `v`, and `TLSv1.3` becomes `TLS 1.3`. */
  lemma VersionLabelExample()
    ensures VersionLabel("TLSv1.3") == "TLS 1.3"
    ensures forall v :: !HasChar(VersionLabel(v), 'v')
  {
  }

  /** The certificate type from the domain and the keys of the subject. */
  function CertificateType(domain: string, subject: set<string>): (r: string)
    ensures r == "OV" || r == "DV"
  {
    if ContainsAny(Lower(domain), MajorSites) then "OV"
    else if "organizationName" in subject && "localityName" in subject then "OV"
    else if "organizationName" in subject then "DV"
    else "DV"
  }

  /** OV exactly when the domain names a major site or the subject has both an
      organisation and a locality; otherwise DV. */
  lemma CertificateTypeIsOv(domain: string, subject: set<string>)
    ensures CertificateType(domain, subject) == "OV" <==>
            ContainsAny(Lower(domain), MajorSites) ||
            ("organizationName" in subject && "localityName" in subject)
    ensures CertificateType(domain, subject) == "DV" <==>
            !ContainsAny(Lower(domain), MajorSites) &&
            !("organizationName" in subject && "localityName" in subject)
  {
  }

  /** The TLS step. Its fields start as `No`, `Unknown`, `none`, `none`; a
      successful handshake marks the certificate valid and fills in what the
      certificate shows; a failed one leaves validity `No` and the issuer
      `Unknown`. */
  function Inspect(h: Handshake, domain: string): (r: TlsFields)
    ensures h.HandshakeFailed? ==> r == TlsFields("No", "Unknown", "none", "none")
    ensures h.Handshake? ==> r.sslValid == "Yes"
    ensures r.certificateType in {"none", "OV", "DV"}
    ensures h.Handshake? && h.version.Some? && h.version.value != "" ==>
            r.tlsVersion == VersionLabel(h.version.value)
    ensures h.Handshake? && h.cert.Some? && h.cert.value.issuer.Some? ==>
            r.issuer == IssuerLabel(h.cert.value.issuer.value)
    ensures h.Handshake? && h.cert.Some? && h.cert.value.subject.Some? ==>
            r.certificateType == CertificateType(domain, h.cert.value.subject.value)
    ensures h.Handshake? && !(h.version.Some? && h.version.value != "") ==> r.tlsVersion == "none"
    ensures h.Handshake? && !(h.cert.Some? && h.cert.value.issuer.Some?) ==> r.issuer == "Unknown"
    ensures h.Handshake? && !(h.cert.Some? && h.cert.value.subject.Some?) ==> r.certificateType == "none"
  {
    match h
    case HandshakeFailed => TlsFields("No", "Unknown", "none", "none")
    case Handshake(version, cert) =>
      var tlsVersion := match version
        case Some(v) => if v != "" then VersionLabel(v) else "none"
        case None => "none";
      var issuer := match cert
        case Some(Certificate(Some(names), _)) => IssuerLabel(names)
        case _ => "Unknown";
      var certType := match cert
        case Some(Certificate(_, Some(subject))) => CertificateType(domain, subject)
        case _ => "none";
      TlsFields("Yes", issuer, tlsVersion, certType)
  }
}
