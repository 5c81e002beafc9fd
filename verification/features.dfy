/** The feature side of the web app (app.py): the frozen feature list cut to
    the classifier's width, domain-age buckets, the input record of each
    tab, one-hot encoding, and the alignment of the encoded record with the
    feature list before the classifier is called. */
module Features {
  import opened Text
  import opened Scraper

  // ---------------------------------------------------------------- feature list

  /** The loaded feature names, cut to the first `n` when there are more. */
  function TruncateFeatures(features: seq<string>, n: nat): seq<string> {
    if |features| > n then features[..n] else features
  }

  /** The cut list is a prefix of the loaded one, has exactly
      `min(|features|, n)` names, and cutting again changes nothing. */
  lemma TruncateFeaturesProperties(features: seq<string>, n: nat)
    ensures var r := TruncateFeatures(features, n);
            |r| == (if |features| < n then |features| else n) &&
            r == features[..|r|] &&
            TruncateFeatures(r, n) == r
  {
  }

  // ---------------------------------------------------------------- age buckets

  /** The URL and manual tabs' bucket: half-open from the left, thresholds
      at 1, 5, 10 and 20 years. */
  function AgeBucket(age: real): string {
    if age < 1.0 then "0-1y"
    else if age < 5.0 then "1-5y"
    else if age < 10.0 then "5-10y"
    else if age < 20.0 then "10-20y"
    else "20y+"
  }

  /** Each label covers exactly its interval `[low, high)`. */
  lemma AgeBucketIntervals(age: real)
    ensures AgeBucket(age) == "0-1y" <==> age < 1.0
    ensures AgeBucket(age) == "1-5y" <==> 1.0 <= age < 5.0
    ensures AgeBucket(age) == "5-10y" <==> 5.0 <= age < 10.0
    ensures AgeBucket(age) == "10-20y" <==> 10.0 <= age < 20.0
    ensures AgeBucket(age) == "20y+" <==> 20.0 <= age
  {
  }

  /** The rank of a bucket label, youngest first. */
  function BucketRank(bucket: string): nat {
    if bucket == "0-1y" then 0 else if bucket == "1-5y" then 1 else if bucket == "5-10y" then 2
    else if bucket == "10-20y" then 3 else 4
  }

  /** An older domain never gets a younger bucket. */
  lemma AgeBucketMonotone(a: real, b: real)
    requires a <= b
    ensures BucketRank(AgeBucket(a)) <= BucketRank(AgeBucket(b))
  {
  }

  /** The batch tab's bucket as written: `pd.cut` with edges
      -inf, 1, 5, 10, 20, inf and the default closed-on-the-right intervals. */
  function BatchBucketAsWritten(age: real): string {
    if age <= 1.0 then "0-1y"
    else if age <= 5.0 then "1-5y"
    else if age <= 10.0 then "5-10y"
    else if age <= 20.0 then "10-20y"
    else "20y+"
  }

  /** The batch tab disagrees with the other two exactly at the thresholds:
      a five-year-old domain is "1-5y" there and "5-10y" elsewhere. */
  lemma BatchBucketDisagrees(age: real)
    ensures BatchBucketAsWritten(5.0) == "1-5y" && AgeBucket(5.0) == "5-10y"
    ensures BatchBucketAsWritten(age) != AgeBucket(age) <==>
            age == 1.0 || age == 5.0 || age == 10.0 || age == 20.0
  {
  }

  // ---------------------------------------------------------------- records

  /** One cell of an input record. */
  datatype Value = Num(x: real) | Flag(b: bool) | Cat(s: string)

  /** A named column of a one-row input frame. */
  datatype Field = Field(name: string, value: Value)

  type Record = seq<Field>

  /** The values the URL and manual tabs feed to the classifier. */
  datatype SiteInputs = SiteInputs(
    hasHttps: string, sslValid: string, sslIssuer: string, tlsVersion: string, certificateType: string,
    domainAgeYears: real, domainRegistrar: string, whoisPrivacyEnabled: bool,
    pageLoadTimeSec: real, redirectCount: int, serverResponseCode: int,
    adsDensityScore: real, externalLinksCount: int, popupsPresent: string,
    serverLocation: string, hostingType: string, cdnUsed: string,
    contactInfoAvailable: bool, privacyPolicyExists: bool, termsOfServiceExists: bool,
    socialMediaPresence: string, contentUpdateFrequency: string, mobileResponsive: string)

  /** The column names of the input frame, in order. */
  const SiteColumns: seq<string> := [
    "has_https", "ssl_valid", "ssl_issuer", "tls_version", "certificate_type",
    "domain_age_years", "domain_age_bucket", "domain_registrar", "whois_privacy_enabled",
    "page_load_time_sec", "redirect_count", "server_response_code",
    "ads_density_score", "external_links_count", "popups_present",
    "server_location", "hosting_type", "cdn_used",
    "contact_info_available", "privacy_policy_exists", "terms_of_service_exists",
    "social_media_presence", "content_update_frequency", "mobile_responsive"
  ]

  function Names(rec: Record): (names: seq<string>)
    ensures |names| == |rec| && forall i :: 0 <= i < |rec| ==> names[i] == rec[i].name
  {
    if rec == [] then [] else Names(rec[..|rec| - 1]) + [rec[|rec| - 1].name]
  }

  /** The one-row frame both single-site tabs build, the bucket computed from the age. */
  function SiteRecord(s: SiteInputs): Record {
    [ Field("has_https", Cat(s.hasHttps)), Field("ssl_valid", Cat(s.sslValid)),
      Field("ssl_issuer", Cat(s.sslIssuer)), Field("tls_version", Cat(s.tlsVersion)),
      Field("certificate_type", Cat(s.certificateType)),
      Field("domain_age_years", Num(s.domainAgeYears)),
      Field("domain_age_bucket", Cat(AgeBucket(s.domainAgeYears))),
      Field("domain_registrar", Cat(s.domainRegistrar)),
      Field("whois_privacy_enabled", Flag(s.whoisPrivacyEnabled)),
      Field("page_load_time_sec", Num(s.pageLoadTimeSec)),
      Field("redirect_count", Num(s.redirectCount as real)),
      Field("server_response_code", Num(s.serverResponseCode as real)),
      Field("ads_density_score", Num(s.adsDensityScore)),
      Field("external_links_count", Num(s.externalLinksCount as real)),
      Field("popups_present", Cat(s.popupsPresent)),
      Field("server_location", Cat(s.serverLocation)),
      Field("hosting_type", Cat(s.hostingType)),
      Field("cdn_used", Cat(s.cdnUsed)),
      Field("contact_info_available", Flag(s.contactInfoAvailable)),
      Field("privacy_policy_exists", Flag(s.privacyPolicyExists)),
      Field("terms_of_service_exists", Flag(s.termsOfServiceExists)),
      Field("social_media_presence", Cat(s.socialMediaPresence)),
      Field("content_update_frequency", Cat(s.contentUpdateFrequency)),
      Field("mobile_responsive", Cat(s.mobileResponsive)) ]
  }

  /** Whatever the inputs, the frame has the same 24 columns in the same
      order, and its bucket column is the bucket of its age column. */
  lemma SiteRecordShape(s: SiteInputs)
    ensures Names(SiteRecord(s)) == SiteColumns
    ensures SiteRecord(s)[6].value == Cat(AgeBucket(SiteRecord(s)[5].value.x))
  {
    var r := SiteRecord(s);
    assert forall i :: 0 <= i < 24 ==> Names(r)[i] == SiteColumns[i];
  }

  /** The URL tab reads every input from the scraped record. */
  function FromScraped(m: Metadata): SiteInputs {
    SiteInputs(
      m.hasHttps, m.sslValid, m.sslIssuer, m.tlsVersion, m.certificateType,
      m.domainAgeYears, m.domainRegistrar, m.whoisPrivacyEnabled,
      m.pageLoadTimeSec, m.redirectCount, m.serverResponseCode,
      m.adsDensityScore, m.externalLinksCount, m.popupsPresent,
      m.serverLocation, m.hostingType, m.cdnUsed,
      m.contactInfoAvailable, m.privacyPolicyExists, m.termsOfServiceExists,
      m.socialMediaPresence, m.contentUpdateFrequency, m.mobileResponsive)
  }

  /** The URL tab's bucket is the manual tab's: a scraped record and a manual
      entry with the same age get the same bucket. */
  lemma TabsBucketAlike(m: Metadata, s: SiteInputs)
    requires s.domainAgeYears == m.domainAgeYears
    ensures SiteRecord(FromScraped(m))[6] == SiteRecord(s)[6]
    ensures SiteRecord(FromScraped(m))[6].value == Cat(AgeBucket(m.domainAgeYears))
  {
  }

  /** A bucket column added (at the end) only when the row has none, computed
      by `bucket` from the age; `None` when there is no numeric age column to
      compute it from. */
  function WithBucket(row: Record, bucket: real -> string): Option<Record> {
    if "domain_age_bucket" in Names(row) then Some(row)
    else
      var ages := AgeFields(row);
      if ages == [] then None
      else Some(row + [Field("domain_age_bucket", Cat(bucket(ages[|ages| - 1])))])
  }

  /** The batch tab as written: the bucket comes from the right-closed cut. */
  function WithBatchBucket(row: Record): Option<Record> {
    WithBucket(row, BatchBucketAsWritten)
  }

  /** The batch tab as evidently intended: the half-open buckets of the
      other two tabs. */
  function WithBatchBucketIntended(row: Record): Option<Record> {
    WithBucket(row, AgeBucket)
  }

  /** The numeric values of the row's `domain_age_years` columns. */
  function AgeFields(row: Record): (ages: seq<real>)
    ensures ages == [] ==> forall i :: 0 <= i < |row| ==> !(row[i].name == "domain_age_years" && row[i].value.Num?)
  {
    if row == [] then []
    else
      var last := row[|row| - 1];
      AgeFields(row[..|row| - 1]) + (if last.name == "domain_age_years" && last.value.Num? then [last.value.x] else [])
  }

  /** A row that already has a bucket keeps it; otherwise the batch tab adds
      the right-closed bucket of its age, where the intended version adds the
      bucket the other tabs compute. */
  lemma BatchBucketKept(row: Record, age: real)
    ensures "domain_age_bucket" in Names(row) ==>
            WithBatchBucket(row) == Some(row) && WithBatchBucketIntended(row) == Some(row)
    ensures !("domain_age_bucket" in Names(row)) && AgeFields(row) == [age] ==>
            WithBatchBucket(row) == Some(row + [Field("domain_age_bucket", Cat(BatchBucketAsWritten(age)))]) &&
            WithBatchBucketIntended(row) == Some(row + [Field("domain_age_bucket", Cat(AgeBucket(age)))])
    ensures !("domain_age_bucket" in Names(row)) && AgeFields(row) == [] ==>
            WithBatchBucket(row).None? && WithBatchBucketIntended(row).None?
  {
  }

  /** Away from the thresholds 1, 5, 10 and 20 the batch tab as written adds
      the same bucket as the intended version. */
  lemma BatchBucketOffThresholds(row: Record)
    requires forall a :: a in AgeFields(row) ==> a != 1.0 && a != 5.0 && a != 10.0 && a != 20.0
    ensures WithBatchBucket(row) == WithBatchBucketIntended(row)
  {
    var ages := AgeFields(row);
    if !("domain_age_bucket" in Names(row)) && ages != [] {
      var age := ages[|ages| - 1];
      assert age in ages;
      BatchBucketDisagrees(age);
      assert BatchBucketAsWritten(age) == AgeBucket(age);
    }
  }

  // ---------------------------------------------------------------- encoding

  /** One column of an encoded frame. */
  datatype Column = Column(name: string, value: real)

  /** Numbers stay, flags become 1 or 0. */
  function Numeric(v: Value): real
    requires !v.Cat?
  {
    if v.Num? then v.x else if v.b then 1.0 else 0.0
  }

  /** Non-categorical columns in their order. */
  function PassThrough(rec: Record): (cols: seq<Column>)
    ensures |cols| <= |rec|
  {
    if rec == [] then []
    else
      var f := rec[|rec| - 1];
      PassThrough(rec[..|rec| - 1]) + (if f.value.Cat? then [] else [Column(f.name, Numeric(f.value))])
  }

  /** One indicator column `<name>_<value>` per categorical column, in order. */
  function Dummies(rec: Record): (cols: seq<Column>)
    ensures |cols| <= |rec|
    ensures forall i :: 0 <= i < |cols| ==> cols[i].value == 1.0
  {
    if rec == [] then []
    else
      var f := rec[|rec| - 1];
      Dummies(rec[..|rec| - 1]) + (if f.value.Cat? then [Column(f.name + "_" + f.value.s, 1.0)] else [])
  }

  /** One-hot encoding of a one-row frame: the pass-through columns, then
      the indicator columns. */
  function Encode(rec: Record): seq<Column> {
    PassThrough(rec) + Dummies(rec)
  }

  /** Every input column gives exactly one encoded column. */
  lemma {:induction false} EncodeLength(rec: Record)
    ensures |Encode(rec)| == |rec|
    decreases |rec|
  {
    if rec != [] {
      EncodeLength(rec[..|rec| - 1]);
    }
  }

  /** A categorical column `name` holding `v` yields the column `name_v` set to 1. */
  lemma {:induction false} DummyPresent(rec: Record, i: nat)
    requires i < |rec| && rec[i].value.Cat?
    ensures Column(rec[i].name + "_" + rec[i].value.s, 1.0) in Dummies(rec)
    decreases |rec|
  {
    if i < |rec| - 1 {
      DummyPresent(rec[..|rec| - 1], i);
    }
  }

  // ---------------------------------------------------------------- alignment

  /** The value a frame assignment by name leaves: the last column with that name. */
  function ValueOf(enc: seq<Column>, name: string): (r: Option<real>)
    ensures r.None? <==> forall i :: 0 <= i < |enc| ==> enc[i].name != name
  {
    if enc == [] then None
    else if enc[|enc| - 1].name == name then Some(enc[|enc| - 1].value)
    else ValueOf(enc[..|enc| - 1], name)
  }

  /** A feature's cell in the aligned frame: the encoded value, or 0. */
  function Cell(enc: seq<Column>, name: string): real {
    match ValueOf(enc, name)
    case Some(v) => v
    case None => 0.0
  }

  /** The aligned row: one cell per feature name, in feature order. */
  function Aligned(enc: seq<Column>, features: seq<string>): (row: seq<real>)
    ensures |row| == |features|
  {
    seq(|features|, k requires 0 <= k < |features| => Cell(enc, features[k]))
  }

  /** The alignment loop: a zero frame over the feature names, then each
      encoded column that is a feature copied into its place. */
  method AlignFeatures(enc: seq<Column>, features: seq<string>) returns (row: seq<real>)
    ensures row == Aligned(enc, features)
  {
    var frame := new real[|features|](_ => 0.0);
    var i := 0;
    while i < |enc|
      invariant 0 <= i <= |enc|
      invariant forall j :: 0 <= j < |features| ==> frame[j] == Cell(enc[..i], features[j])
    {
      assert enc[..i + 1][..i] == enc[..i];
      var col := enc[i];
      if col.name in features {
        var k := 0;
        while k < |features|
          invariant 0 <= k <= |features|
          invariant forall j :: 0 <= j < k ==> frame[j] == Cell(enc[..i + 1], features[j])
          invariant forall j :: k <= j < |features| ==> frame[j] == Cell(enc[..i], features[j])
        {
          if features[k] == col.name {
            frame[k] := col.value;
          }
          k := k + 1;
        }
      }
      i := i + 1;
    }
    assert enc[..i] == enc;
    row := frame[..];
  }

  /** Exactly the feature columns, in order; a feature the record did not
      produce stays 0; a produced one carries its encoded value. */
  lemma AlignedCells(enc: seq<Column>, features: seq<string>, k: nat)
    requires k < |features|
    ensures (forall i :: 0 <= i < |enc| ==> enc[i].name != features[k]) ==> Aligned(enc, features)[k] == 0.0
    ensures forall i :: 0 <= i < |enc| && enc[i].name == features[k] &&
                         (forall j :: i < j < |enc| ==> enc[j].name != features[k]) ==>
                         Aligned(enc, features)[k] == enc[i].value
  {
    forall i | 0 <= i < |enc| && enc[i].name == features[k] && (forall j :: i < j < |enc| ==> enc[j].name != features[k])
      ensures ValueOf(enc, features[k]) == Some(enc[i].value)
    {
      LastWins(enc, features[k], i);
    }
  }

  lemma {:induction false} LastWins(enc: seq<Column>, name: string, i: nat)
    requires i < |enc| && enc[i].name == name
    requires forall j :: i < j < |enc| ==> enc[j].name != name
    ensures ValueOf(enc, name) == Some(enc[i].value)
    decreases |enc|
  {
    if i < |enc| - 1 {
      LastWins(enc[..|enc| - 1], name, i);
    }
  }

  /** The columns whose names are features, in order. */
  function KeepFeatures(enc: seq<Column>, features: seq<string>): (kept: seq<Column>)
    ensures forall i :: 0 <= i < |kept| ==> kept[i].name in features
  {
    if enc == [] then []
    else
      var c := enc[|enc| - 1];
      KeepFeatures(enc[..|enc| - 1], features) + (if c.name in features then [c] else [])
  }

  lemma {:induction false} KeepFeaturesValue(enc: seq<Column>, features: seq<string>, name: string)
    requires name in features
    ensures ValueOf(KeepFeatures(enc, features), name) == ValueOf(enc, name)
    decreases |enc|
  {
    if enc != [] {
      var c, rest := enc[|enc| - 1], KeepFeatures(enc[..|enc| - 1], features);
      KeepFeaturesValue(enc[..|enc| - 1], features, name);
      if c.name in features {
        assert KeepFeatures(enc, features) == rest + [c];
        assert (rest + [c])[..|rest + [c]| - 1] == rest;
      } else {
        assert KeepFeatures(enc, features) == rest + [] == rest;
        assert c.name != name;
      }
    }
  }

  /** Encoded columns that are not features are dropped: the row is the same
      with or without them. */
  lemma AlignedDropsUnseen(enc: seq<Column>, features: seq<string>)
    ensures Aligned(KeepFeatures(enc, features), features) == Aligned(enc, features)
  {
    forall k | 0 <= k < |features|
      ensures Aligned(KeepFeatures(enc, features), features)[k] == Aligned(enc, features)[k]
    {
      KeepFeaturesValue(enc, features, features[k]);
    }
  }

  /** A row read back as columns named by the features. */
  function Labelled(features: seq<string>, row: seq<real>): (cols: seq<Column>)
    requires |row| == |features|
    ensures |cols| == |features|
    ensures forall k :: 0 <= k < |features| ==> cols[k] == Column(features[k], row[k])
  {
    if features == [] then []
    else Labelled(features[..|features| - 1], row[..|row| - 1]) + [Column(features[|features| - 1], row[|row| - 1])]
  }

  /** Aligning an aligned row again changes nothing. */
  lemma AlignIdempotent(enc: seq<Column>, features: seq<string>)
    ensures Aligned(Labelled(features, Aligned(enc, features)), features) == Aligned(enc, features)
  {
    var row := Aligned(enc, features);
    var cols := Labelled(features, row);
    forall k | 0 <= k < |features|
      ensures Aligned(cols, features)[k] == row[k]
    {
      var last := LastIndexOf(features, features[k], k);
      LastWins(cols, features[k], last);
    }
  }

  /** The last position holding `x`, at or after a known one. */
  lemma LastIndexOf(xs: seq<string>, x: string, i: nat) returns (last: nat)
    requires i < |xs| && xs[i] == x
    ensures i <= last < |xs| && xs[last] == x
    ensures forall j :: last < j < |xs| ==> xs[j] != x
    decreases |xs| - i
  {
    if exists j :: i < j < |xs| && xs[j] == x {
      var j :| i < j < |xs| && xs[j] == x;
      last := LastIndexOf(xs, x, j);
    } else {
      last := i;
    }
  }

  /** What the tabs hand to the classifier: nothing when the aligned width is
      not the classifier's, the aligned row otherwise. */
  datatype Prepared = FeatureMismatch(provided: nat, expected: nat) | Ready(row: seq<real>)

  function Prepare(enc: seq<Column>, features: seq<string>, nIn: nat): Prepared {
    var row := Aligned(enc, features);
    if |row| != nIn then FeatureMismatch(|row|, nIn) else Ready(row)
  }

  /** With the feature list cut at load time, the width check fails exactly
      when fewer names were loaded than the classifier takes; a ready row
      always has the classifier's width. */
  lemma PrepareStopsOnMismatch(enc: seq<Column>, loaded: seq<string>, nIn: nat)
    ensures var p := Prepare(enc, TruncateFeatures(loaded, nIn), nIn);
            (p.FeatureMismatch? <==> |loaded| < nIn) &&
            (p.Ready? ==> |p.row| == nIn)
  {
  }

  /** The URL tab: the scraped record through the shared pipeline. */
  function UrlTabRow(m: Metadata, features: seq<string>, nIn: nat): Prepared {
    Prepare(Encode(SiteRecord(FromScraped(m))), features, nIn)
  }

  /** What the batch tab hands to the classifier: nothing when a row has
      neither a bucket nor an age, nothing when the aligned width is not the
      classifier's, the aligned rows otherwise. */
  datatype BatchPrepared =
    | MissingAge
    | BatchMismatch(provided: nat, expected: nat)
    | BatchReady(rows: seq<seq<real>>)

  /** The batch tab, row by row: bucket added when missing, encoded,
      aligned over the feature names, then the width check. */
  function BatchRows(rows: seq<Record>, features: seq<string>, nIn: nat): BatchPrepared {
    if exists i :: 0 <= i < |rows| && WithBatchBucket(rows[i]).None? then MissingAge
    else if |features| != nIn then BatchMismatch(|features|, nIn)
    else BatchReady(seq(|rows|, i requires 0 <= i < |rows| => Aligned(Encode(WithBatchBucket(rows[i]).value), features)))
  }

  /** The batch tab fails on a row without bucket or age, then on a width
      other than the classifier's; otherwise every row is what the
      single-record pipeline gives for it (same zero-filled, copied cells,
      as `AlignedCells` states), with the classifier's width. */
  lemma BatchRowsAligned(rows: seq<Record>, features: seq<string>, nIn: nat)
    ensures var r := BatchRows(rows, features, nIn);
            var missing := exists i :: 0 <= i < |rows| && WithBatchBucket(rows[i]).None?;
            (r.MissingAge? <==> missing) &&
            (r.BatchMismatch? <==> !missing && |features| != nIn) &&
            (r.BatchReady? ==>
               |r.rows| == |rows| &&
               forall i :: 0 <= i < |rows| ==>
                 |r.rows[i]| == nIn && Prepare(Encode(WithBatchBucket(rows[i]).value), features, nIn) == Ready(r.rows[i]))
  {
  }

  /** With the feature list cut at load time, a batch whose rows all have a
      bucket or an age fails the width check exactly when fewer names were
      loaded than the classifier takes. */
  lemma BatchStopsOnMismatch(rows: seq<Record>, loaded: seq<string>, nIn: nat)
    requires forall i :: 0 <= i < |rows| ==> WithBatchBucket(rows[i]).Some?
    ensures BatchRows(rows, TruncateFeatures(loaded, nIn), nIn).BatchMismatch? <==> |loaded| < nIn
  {
  }
}
