/** The "key analysis factors" the URL tab shows beside its verdict
    (app.py, lines 345-387): positive and risk indicators read off the
    scraped record, each list in a fixed order. */
module Indicators {
  import opened Scraper

  datatype Indicator =
    // positive
    | HttpsEnabled
    | ValidCertificate
    | Established(years: real)
    | ContactAvailable
    | PrivacyPolicyPresent
    | CdnInUse
    // risk
    | MissingHttps
    | InvalidCertificate
    | RecentlyRegistered
    | HighAdDensity(score: real)
    | NoContact
    | NoPrivacyPolicy
    | PopupsDetected

  /** The positive candidates in display order, and whether each applies. */
  function PositiveCandidates(m: Metadata): seq<(Indicator, bool)> {
    [ (HttpsEnabled, m.hasHttps == "Yes"),
      (ValidCertificate, m.sslValid == "Yes"),
      (Established(m.domainAgeYears), m.domainAgeYears >= 5.0),
      (ContactAvailable, m.contactInfoAvailable),
      (PrivacyPolicyPresent, m.privacyPolicyExists),
      (CdnInUse, m.cdnUsed == "yes") ]
  }

  /** The risk candidates in display order, and whether each applies. */
  function RiskCandidates(m: Metadata): seq<(Indicator, bool)> {
    [ (MissingHttps, m.hasHttps == "No"),
      (InvalidCertificate, m.sslValid == "No"),
      (RecentlyRegistered, m.domainAgeYears < 1.0),
      (HighAdDensity(m.adsDensityScore), m.adsDensityScore > 0.3),
      (NoContact, !m.contactInfoAvailable),
      (NoPrivacyPolicy, !m.privacyPolicyExists),
      (PopupsDetected, m.popupsPresent == "Yes") ]
  }

  /** The candidates that apply, in order. */
  function Applying(cs: seq<(Indicator, bool)>): (r: seq<Indicator>)
    ensures |r| <= |cs|
  {
    if cs == [] then []
    else
      var last := cs[|cs| - 1];
      Applying(cs[..|cs| - 1]) + (if last.1 then [last.0] else [])
  }

  /** An indicator is listed exactly when some candidate producing it applies. */
  lemma {:induction false} ApplyingMembers(cs: seq<(Indicator, bool)>, x: Indicator)
    ensures x in Applying(cs) <==> exists i :: 0 <= i < |cs| && cs[i].0 == x && cs[i].1
  {
    if cs != [] {
      var init := cs[..|cs| - 1];
      ApplyingMembers(init, x);
      assert forall i :: 0 <= i < |init| ==> init[i] == cs[i];
    }
  }

  /** An indicator that only one candidate can produce is listed exactly when
      that candidate applies. */
  lemma ListedIff(cs: seq<(Indicator, bool)>, i: nat)
    requires i < |cs|
    requires forall j :: 0 <= j < |cs| && j != i ==> cs[j].0 != cs[i].0
    ensures cs[i].0 in Applying(cs) <==> cs[i].1
  {
    ApplyingMembers(cs, cs[i].0);
  }

  /** The positive indicators the tab lists, in the order it checks them. */
  function PositiveIndicators(m: Metadata): seq<Indicator> {
    Applying(PositiveCandidates(m))
  }

  /** The risk indicators the tab lists, in the order it checks them. */
  function RiskIndicators(m: Metadata): seq<Indicator> {
    Applying(RiskCandidates(m))
  }

  /** The age and ad-density rules: "established" at five years or more,
      "recently registered" under one, "high ad density" above 0.3. */
  lemma AgeAndAdRules(m: Metadata)
    ensures Established(m.domainAgeYears) in PositiveIndicators(m) <==> m.domainAgeYears >= 5.0
    ensures RecentlyRegistered in RiskIndicators(m) <==> m.domainAgeYears < 1.0
    ensures HighAdDensity(m.adsDensityScore) in RiskIndicators(m) <==> m.adsDensityScore > 0.3
  {
    var P, R := PositiveCandidates(m), RiskCandidates(m);
    ListedIff(P, 2);
    ListedIff(R, 2);
    ListedIff(R, 3);
  }

  /** A domain is never both established and recently registered. */
  lemma NeverEstablishedAndRecent(m: Metadata)
    ensures !(Established(m.domainAgeYears) in PositiveIndicators(m) &&
              RecentlyRegistered in RiskIndicators(m))
  {
    AgeAndAdRules(m);
  }

  /** For a scraped record (whose yes/no fields hold only "Yes" or "No"),
      each of HTTPS, certificate, contact and privacy lands in exactly one of
      the two lists. */
  lemma ComplementaryRules(m: Metadata)
    requires InVocabulary(m)
    ensures (HttpsEnabled in PositiveIndicators(m)) != (MissingHttps in RiskIndicators(m))
    ensures (ValidCertificate in PositiveIndicators(m)) != (InvalidCertificate in RiskIndicators(m))
    ensures (ContactAvailable in PositiveIndicators(m)) != (NoContact in RiskIndicators(m))
    ensures (PrivacyPolicyPresent in PositiveIndicators(m)) != (NoPrivacyPolicy in RiskIndicators(m))
  {
    var P, R := PositiveCandidates(m), RiskCandidates(m);
    ListedIff(P, 0);
    ListedIff(P, 1);
    ListedIff(P, 3);
    ListedIff(P, 4);
    ListedIff(R, 0);
    ListedIff(R, 1);
    ListedIff(R, 4);
    ListedIff(R, 5);
  }

  /** Hence, for a scraped record, the tab never shows both "no significant
      indicators" placeholders at once. */
  lemma NeverBothEmpty(m: Metadata)
    requires InVocabulary(m)
    ensures PositiveIndicators(m) != [] || RiskIndicators(m) != []
  {
    ComplementaryRules(m);
  }
}
