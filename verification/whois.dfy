/** The domain-age and registrar part of the scraper (webscraper.py, lines
    278-464): three WHOIS strategies tried in order until one yields an age,
    registrar canonicalisation, the WHOIS-privacy check, the MarkMonitor
    fallback, the known-site age table and the debug log.

    What each strategy got back from the network is an input. Ages arrive
    already computed from the creation date and the clock, in years. */
module Whois {
  import opened Text
  import opened Lookup

  // ---------------------------------------------------------------- registrar

  /** Registrar canonicalisation in priority order; the patterns are matched
      case-sensitively. */
  const RegistrarTable: seq<Row<string>> := [
    Row(["MarkMonitor"], "MarkMonitor"),
    Row(["CSC", "Corporation Service"], "CSC Corporate"),
    Row(["Network Solutions"], "Network Solutions"),
    Row(["Verisign"], "Verisign"),
    Row(["GoDaddy"], "GoDaddy"),
    Row(["Namecheap"], "Namecheap")
  ]

  /** The registrar name the library reported, as the if/elif chain. */
  function CanonicalRegistrar(raw: string): string {
    if Contains(raw, "MarkMonitor") then "MarkMonitor"
    else if Contains(raw, "CSC") || Contains(raw, "Corporation Service") then "CSC Corporate"
    else if Contains(raw, "Network Solutions") then "Network Solutions"
    else if Contains(raw, "Verisign") then "Verisign"
    else if Contains(raw, "GoDaddy") then "GoDaddy"
    else if Contains(raw, "Namecheap") then "Namecheap"
    else Take(raw, 30)
  }

  /** The chain is the table read top to bottom: the first row whose pattern
      occurs in the raw name decides, and the raw name cut to 30 characters
      is kept when none does. */
  lemma RegistrarIsFirstMatch(raw: string)
    ensures CanonicalRegistrar(raw) == Classify(RegistrarTable, raw, Take(raw, 30))
  {
    var fb := Take(raw, 30);
    var T := RegistrarTable;
    ContainsAnySingle(raw, "Namecheap");
    assert Classify(T[5..], raw, fb) == if Contains(raw, "Namecheap") then "Namecheap" else fb by {
      assert T[5..][1..] == [];
    }
    ContainsAnySingle(raw, "GoDaddy");
    assert Classify(T[4..], raw, fb) == if Contains(raw, "GoDaddy") then "GoDaddy" else Classify(T[5..], raw, fb) by {
      assert T[4..][1..] == T[5..];
    }
    ContainsAnySingle(raw, "Verisign");
    assert Classify(T[3..], raw, fb) == if Contains(raw, "Verisign") then "Verisign" else Classify(T[4..], raw, fb) by {
      assert T[3..][1..] == T[4..];
    }
    ContainsAnySingle(raw, "Network Solutions");
    assert Classify(T[2..], raw, fb) ==
      if Contains(raw, "Network Solutions") then "Network Solutions" else Classify(T[3..], raw, fb) by {
      assert T[2..][1..] == T[3..];
    }
    ContainsAnyPair(raw, "CSC", "Corporation Service");
    assert Classify(T[1..], raw, fb) ==
      if Contains(raw, "CSC") || Contains(raw, "Corporation Service") then "CSC Corporate" else Classify(T[2..], raw, fb) by {
      assert T[1..][1..] == T[2..];
    }
    ContainsAnySingle(raw, "MarkMonitor");
  }

  /** A canonical registrar is one of the six known names, or a prefix of at
      most 30 characters of the raw name; either way it has at most 30
      characters. */
  lemma RegistrarRange(raw: string)
    ensures var r := CanonicalRegistrar(raw);
            r in {"MarkMonitor", "CSC Corporate", "Network Solutions", "Verisign", "GoDaddy", "Namecheap"} ||
            (|r| <= 30 && StartsWith(raw, r))
    ensures |CanonicalRegistrar(raw)| <= 30
  {
  }

  // ---------------------------------------------------------------- privacy

  const PrivacyKeywords: seq<string> := ["privacy", "protect", "whoisguard", "proxy"]

  /** WHOIS privacy is on when some contact e-mail, lower-cased, mentions a
      privacy service. */
  predicate PrivacyEnabled(emails: seq<string>) {
    exists i :: 0 <= i < |emails| && ContainsAny(Lower(emails[i]), PrivacyKeywords)
  }

  /** The privacy flag is decided by the addresses alone, and their order
      does not matter. */
  lemma PrivacyIgnoresOrder(emails: seq<string>, other: seq<string>)
    requires multiset(emails) == multiset(other)
    ensures PrivacyEnabled(emails) == PrivacyEnabled(other)
  {
    if PrivacyEnabled(emails) {
      var i :| 0 <= i < |emails| && ContainsAny(Lower(emails[i]), PrivacyKeywords);
      assert emails[i] in multiset(other);
      var j :| 0 <= j < |other| && other[j] == emails[i];
    }
    if PrivacyEnabled(other) {
      var i :| 0 <= i < |other| && ContainsAny(Lower(other[i]), PrivacyKeywords);
      assert other[i] in multiset(emails);
      var j :| 0 <= j < |emails| && emails[j] == other[i];
    }
  }

  // ---------------------------------------------------------------- servers

  /** The port-43 servers known by top-level domain. */
  const WhoisServers: map<string, string> := map[
    "com" := "whois.verisign-grs.com",
    "net" := "whois.verisign-grs.com",
    "org" := "whois.pir.org",
    "uk" := "whois.nic.uk",
    "io" := "whois.nic.io",
    "co" := "whois.nic.co"
  ]

  /** `domain.split('.')[-1]` */
  function Tld(domain: string): string {
    LastPiece(domain, '.')
  }

  /** The server asked, `whois.nic.<tld>` for a top-level domain not in the table. */
  function WhoisServer(domain: string): string {
    var tld := Tld(domain);
    if tld in WhoisServers then WhoisServers[tld] else "whois.nic." + tld
  }

  /** Only com, net and org have servers of their own: the uk, io and co
      entries coincide with the default. */
  lemma WhoisServerCases(domain: string)
    ensures var tld := Tld(domain);
            WhoisServer(domain) ==
              if tld == "com" || tld == "net" then "whois.verisign-grs.com"
              else if tld == "org" then "whois.pir.org"
              else "whois.nic." + tld
  {
  }

  /** The server depends on the last label only. */
  lemma WhoisServerByLastLabel(name: string, tld: string)
    requires !HasChar(tld, '.')
    ensures Tld(name + "." + tld) == tld
    ensures WhoisServer(name + "." + tld) == WhoisServer(tld)
  {
    SplitLast(name, '.', tld);
    SplitNoSeparator(tld, '.');
  }

  // ---------------------------------------------------------------- fallbacks

  /** Sites assumed to be registered through MarkMonitor. */
  const MarkMonitorSites: seq<string> := [
    "github", "google", "youtube", "facebook", "microsoft", "apple",
    "amazon", "netflix", "linkedin", "twitter", "reddit", "ebay"
  ]

  /** Ages, in years, assumed for well-known sites, in the order they are tried. */
  const KnownSiteAges: seq<Row<int>> := [
    Row(["google"], 26), Row(["youtube"], 19), Row(["facebook"], 20), Row(["twitter"], 18),
    Row(["linkedin"], 21), Row(["github"], 18), Row(["reddit"], 19), Row(["microsoft"], 39),
    Row(["apple"], 28), Row(["amazon"], 30), Row(["wikipedia"], 24), Row(["netflix"], 27),
    Row(["ebay"], 29), Row(["yahoo"], 29), Row(["instagram"], 14)
  ]

  // ---------------------------------------------------------------- outcomes

  /** The library's creation date: absent (or no answer at all), a list whose
      first entry is empty, a date giving an age, or a date the age
      arithmetic rejects (the exception ends the strategy). */
  datatype CreationDate = NoCreation | EmptyFirstEntry | Created(years: real) | AgeError(message: string)

  /** Strategy 1, the WHOIS library: it could not be imported, the query
      raised, or it answered with a creation date, a registrar (when present
      and non-empty) and the contact e-mails. */
  datatype LibraryOutcome =
    | LibraryMissing(message: string)
    | LibraryRaised(message: string)
    | LibraryAnswered(creation: CreationDate, registrar: Option<string>, emails: seq<string>)

  /** Strategy 2, the JSON WHOIS service: the request or the date parsing
      raised, or the reply's status, its creation age and registrar name when
      present. */
  datatype ApiOutcome = ApiRaised | ApiReply(status: int, created: Option<real>, registrarName: Option<string>)

  /** What one creation-date pattern gave on the raw WHOIS text. */
  datatype DateMatch = NoMatch | Unparsable | Parsed(years: real)

  /** Strategy 3, a raw port-43 query: it failed, or the text was read and
      gave one result per date pattern (in pattern order) and the text after
      `Registrar:` if that line exists. */
  datatype SocketOutcome = SocketFailed | SocketReply(matches: seq<DateMatch>, registrarLine: Option<string>)

  /** The debug log entries of the lookup. */
  datatype DebugEntry =
    | StartingLookup
    | Querying(domain: string)
    | QueryCompleted
    | AgeFound(years: real)
    | NoCreationDate
    | LibraryFailed(message: string)
    | MarkMonitorAssigned
    | KnownAgeAssigned(site: string, assumed: int)
    | AgeUnavailable(years: real)

  /** The sources consulted, in order; the port-43 query names its server. */
  datatype Strategy = Library | JsonService | Port43(server: string) | KnownSites

  /** The record fields the lookup owns, the found flag, and the strategies tried. */
  datatype WhoisState = WhoisState(
    age: real, found: bool, registrar: string, privacy: bool,
    log: seq<DebugEntry>, tried: seq<Strategy>)

  /** The age assumed when none can be found. */
  const DefaultAge: real := 5.0

  function Initial(): WhoisState {
    WhoisState(DefaultAge, false, "Unknown", false, [StartingLookup], [])
  }

  /** The first pattern whose date parsed. */
  function FirstParsed(ms: seq<DateMatch>): (r: Option<real>)
    ensures r.None? <==> forall j :: 0 <= j < |ms| ==> !ms[j].Parsed?
    ensures r.Some? ==> exists j :: 0 <= j < |ms| && ms[j] == Parsed(r.value) &&
                                    forall i :: 0 <= i < j ==> !ms[i].Parsed?
  {
    if ms == [] then None
    else if ms[0].Parsed? then Some(ms[0].years)
    else
      var r := FirstParsed(ms[1..]);
      assert forall j :: 1 <= j < |ms| ==> ms[j] == ms[1..][j - 1];
      r
  }

  // ---------------------------------------------------------------- stages

  function LibraryStage(st: WhoisState, domain: string, lib: LibraryOutcome): WhoisState {
    var st := st.(tried := st.tried + [Library]);
    match lib
    case LibraryMissing(msg) => st.(log := st.log + [LibraryFailed(msg)])
    case LibraryRaised(msg) => st.(log := st.log + [Querying(domain), LibraryFailed(msg)])
    case LibraryAnswered(creation, reg, emails) =>
      var st := st.(log := st.log + [Querying(domain), QueryCompleted]);
      if creation.AgeError? then st.(log := st.log + [LibraryFailed(creation.message)])
      else
        var st := match creation
          case NoCreation => st.(log := st.log + [NoCreationDate])
          case Created(years) => st.(age := years, found := true, log := st.log + [AgeFound(years)])
          case _ => st;
        var st := if reg.Some? && reg.value != "" then st.(registrar := CanonicalRegistrar(reg.value)) else st;
        if emails != [] then st.(privacy := PrivacyEnabled(emails)) else st
  }

  function ApiStage(st: WhoisState, api: ApiOutcome): WhoisState {
    if st.found then st
    else
      var st := st.(tried := st.tried + [JsonService]);
      match api
      case ApiReply(200, Some(years), name) =>
        var st := st.(age := years, found := true);
        if name.Some? then st.(registrar := Take(name.value, 30)) else st
      case _ => st
  }

  function SocketStage(st: WhoisState, domain: string, sock: SocketOutcome): WhoisState {
    if st.found then st
    else
      var st := st.(tried := st.tried + [Port43(WhoisServer(domain))]);
      match sock
      case SocketFailed => st
      case SocketReply(ms, line) =>
        match FirstParsed(ms)
        case Some(years) => st.(age := years, found := true)
        case None => if line.Some? then st.(registrar := Take(Strip(line.value), 30)) else st
  }

  function MarkMonitorStage(st: WhoisState, domain: string): WhoisState {
    if st.registrar == "Unknown" && ContainsAny(Lower(domain), MarkMonitorSites)
    then st.(registrar := "MarkMonitor", log := st.log + [MarkMonitorAssigned])
    else st
  }

  function KnownSiteStage(st: WhoisState, domain: string): WhoisState {
    if st.found then st
    else
      var st := st.(tried := st.tried + [KnownSites]);
      match FirstHit(KnownSiteAges, Lower(domain))
      case Some(k) =>
        var row := KnownSiteAges[k];
        st.(age := row.result as real, found := true, log := st.log + [KnownAgeAssigned(row.patterns[0], row.result)])
      case None => st
  }

  function FinishStage(st: WhoisState): WhoisState {
    if st.found then st else st.(log := st.log + [AgeUnavailable(st.age)])
  }

  /** The whole lookup: the three strategies, the two fallbacks, the closing log entry. */
  function Resolve(domain: string, lib: LibraryOutcome, api: ApiOutcome, sock: SocketOutcome): WhoisState {
    FinishStage(KnownSiteStage(MarkMonitorStage(SocketStage(ApiStage(LibraryStage(Initial(), domain, lib), api), domain, sock), domain), domain))
  }

  /** Strategy 1 as the scraper runs it: the library's answer fills in what it can. */
  method TryLibrary(st: WhoisState, domain: string, lib: LibraryOutcome) returns (next: WhoisState)
    ensures next == LibraryStage(st, domain, lib)
  {
    next := st.(tried := st.tried + [Library]);
    match lib {
      case LibraryMissing(msg) =>
        next := next.(log := next.log + [LibraryFailed(msg)]);
      case LibraryRaised(msg) =>
        next := next.(log := next.log + [Querying(domain)]);
        next := next.(log := next.log + [LibraryFailed(msg)]);
        assert next.log == st.log + [Querying(domain), LibraryFailed(msg)];
      case LibraryAnswered(creation, reg, emails) =>
        next := next.(log := next.log + [Querying(domain)]);
        next := next.(log := next.log + [QueryCompleted]);
        assert next.log == st.log + [Querying(domain), QueryCompleted];
        if creation.AgeError? {
          next := next.(log := next.log + [LibraryFailed(creation.message)]);
        } else {
          if creation.NoCreation? {
            next := next.(log := next.log + [NoCreationDate]);
          } else if creation.Created? {
            next := next.(age := creation.years, found := true, log := next.log + [AgeFound(creation.years)]);
          }
          if reg.Some? && reg.value != "" {
            next := next.(registrar := CanonicalRegistrar(reg.value));
          }
          if emails != [] {
            next := next.(privacy := PrivacyEnabled(emails));
          }
        }
    }
  }

  /** Strategy 3 as the scraper runs it: the date patterns are tried in
      order until one parses; the registrar line is read only when none does. */
  method TryPort43(st: WhoisState, domain: string, sock: SocketOutcome) returns (next: WhoisState)
    ensures next == SocketStage(st, domain, sock)
  {
    next := st;
    if !st.found {
      next := next.(tried := next.tried + [Port43(WhoisServer(domain))]);
      if sock.SocketReply? {
        var ms := sock.matches;
        var i := 0;
        while i < |ms|
          invariant 0 <= i <= |ms|
          invariant next == st.(tried := st.tried + [Port43(WhoisServer(domain))])
          invariant FirstParsed(ms) == FirstParsed(ms[i..])
        {
          assert ms[i..][1..] == ms[i + 1..];
          if ms[i].Parsed? {
            next := next.(age := ms[i].years, found := true);
            return;
          }
          i := i + 1;
        }
        if sock.registrarLine.Some? {
          next := next.(registrar := Take(Strip(sock.registrarLine.value), 30));
        }
      }
    }
  }

  /** The known-site fallback as the scraper runs it: the table is scanned
      in order and the first site named in the domain gives the age. */
  method AssumeKnownAge(st: WhoisState, domain: string) returns (next: WhoisState)
    ensures next == KnownSiteStage(st, domain)
  {
    next := st;
    if !st.found {
      next := next.(tried := next.tried + [KnownSites]);
      var hit := FindFirstHit(KnownSiteAges, Lower(domain));
      if hit.Some? {
        var row := KnownSiteAges[hit.value];
        next := next.(age := row.result as real, found := true,
                      log := next.log + [KnownAgeAssigned(row.patterns[0], row.result)]);
      }
    }
  }

  /** The lookup as the scraper runs it: one found flag carried across the
      chain, each later strategy attempted only while no age is known. */
  method ResolveWhois(domain: string, lib: LibraryOutcome, api: ApiOutcome, sock: SocketOutcome)
    returns (r: WhoisState)
    ensures r == Resolve(domain, lib, api, sock)
  {
    r := Initial();
    r := TryLibrary(r, domain, lib);
    // Strategy 2: the JSON service.
    if !r.found {
      r := r.(tried := r.tried + [JsonService]);
      if api.ApiReply? && api.status == 200 && api.created.Some? {
        r := r.(age := api.created.value, found := true);
        if api.registrarName.Some? {
          r := r.(registrar := Take(api.registrarName.value, 30));
        }
      }
    }
    r := TryPort43(r, domain, sock);
    // Fallback: registrar by site recognition.
    if r.registrar == "Unknown" && ContainsAny(Lower(domain), MarkMonitorSites) {
      r := r.(registrar := "MarkMonitor", log := r.log + [MarkMonitorAssigned]);
    }
    r := AssumeKnownAge(r, domain);
    if !r.found {
      r := r.(log := r.log + [AgeUnavailable(r.age)]);
    }
  }

  // ---------------------------------------------------------------- properties

  /** The age each strategy would give on its own. */
  function LibraryAge(lib: LibraryOutcome): Option<real> {
    if lib.LibraryAnswered? && lib.creation.Created? then Some(lib.creation.years) else None
  }

  function ApiAge(api: ApiOutcome): Option<real> {
    if api.ApiReply? && api.status == 200 && api.created.Some? then api.created else None
  }

  function SocketAge(sock: SocketOutcome): Option<real> {
    if sock.SocketReply? then FirstParsed(sock.matches) else None
  }

  /** The age found by the first strategy that finds one. */
  function StrategyAge(lib: LibraryOutcome, api: ApiOutcome, sock: SocketOutcome): Option<real> {
    if LibraryAge(lib).Some? then LibraryAge(lib)
    else if ApiAge(api).Some? then ApiAge(api)
    else SocketAge(sock)
  }

  // What each stage does to the found flag, the age and the strategies tried.

  lemma LibraryStageAge(st: WhoisState, domain: string, lib: LibraryOutcome)
    ensures var n := LibraryStage(st, domain, lib);
            n.tried == st.tried + [Library] &&
            (LibraryAge(lib).Some? ==> n.found && n.age == LibraryAge(lib).value) &&
            (LibraryAge(lib).None? ==> n.found == st.found && n.age == st.age)
  {
  }

  /** The library stage only appends to the log; the query is logged exactly
      when the library could be imported, and a failure of either kind is
      logged with its message. */
  lemma LibraryStageLog(st: WhoisState, domain: string, lib: LibraryOutcome)
    ensures var n := LibraryStage(st, domain, lib);
            |n.log| > |st.log| && n.log[..|st.log|] == st.log &&
            (n.log[|st.log|] == Querying(domain) <==> !lib.LibraryMissing?) &&
            (lib.LibraryMissing? ==> n.log == st.log + [LibraryFailed(lib.message)]) &&
            (lib.LibraryRaised? ==> n.log == st.log + [Querying(domain), LibraryFailed(lib.message)])
  {
  }

  lemma ApiStageAge(st: WhoisState, api: ApiOutcome)
    ensures var n := ApiStage(st, api);
            n.tried == st.tried + (if st.found then [] else [JsonService]) &&
            (st.found ==> n.found && n.age == st.age) &&
            (!st.found ==> n.found == ApiAge(api).Some? && n.age == (if ApiAge(api).Some? then ApiAge(api).value else st.age))
  {
  }

  lemma SocketStageAge(st: WhoisState, domain: string, sock: SocketOutcome)
    ensures var n := SocketStage(st, domain, sock);
            n.tried == st.tried + (if st.found then [] else [Port43(WhoisServer(domain))]) &&
            (st.found ==> n.found && n.age == st.age) &&
            (!st.found ==> n.found == SocketAge(sock).Some? && n.age == (if SocketAge(sock).Some? then SocketAge(sock).value else st.age))
  {
  }

  lemma KnownSiteStageAge(st: WhoisState, domain: string)
    ensures var n := KnownSiteStage(st, domain);
            var known := FirstHit(KnownSiteAges, Lower(domain));
            n.tried == st.tried + (if st.found then [] else [KnownSites]) &&
            (st.found ==> n.found && n.age == st.age) &&
            (!st.found ==> n.found == known.Some? &&
                           n.age == (if known.Some? then KnownSiteAges[known.value].result as real else st.age))
  {
  }

  /** The resulting age comes from the first strategy that yields one; only
      when none does is the known-site table consulted, its first matching
      entry deciding; when that fails too the age stays at the 5-year
      default and the log closes with an entry saying so. */
  lemma ResolvedAge(domain: string, lib: LibraryOutcome, api: ApiOutcome, sock: SocketOutcome)
    ensures var r := Resolve(domain, lib, api, sock);
            var known := FirstHit(KnownSiteAges, Lower(domain));
            (StrategyAge(lib, api, sock).Some? ==> r.found && r.age == StrategyAge(lib, api, sock).value) &&
            (StrategyAge(lib, api, sock).None? && known.Some? ==>
               r.found && r.age == KnownSiteAges[known.value].result as real) &&
            (StrategyAge(lib, api, sock).None? && known.None? ==>
               !r.found && r.age == DefaultAge && r.log[|r.log| - 1] == AgeUnavailable(DefaultAge))
  {
    var s1 := LibraryStage(Initial(), domain, lib);
    LibraryStageAge(Initial(), domain, lib);
    var s2 := ApiStage(s1, api);
    ApiStageAge(s1, api);
    var s3 := SocketStage(s2, domain, sock);
    SocketStageAge(s2, domain, sock);
    var s4 := MarkMonitorStage(s3, domain);
    var s5 := KnownSiteStage(s4, domain);
    KnownSiteStageAge(s4, domain);
  }

  /** Once a strategy has found an age, the later strategies cannot change it. */
  lemma EarlierStrategyWins(domain: string, lib: LibraryOutcome, api: ApiOutcome, api2: ApiOutcome,
                            sock: SocketOutcome, sock2: SocketOutcome)
    requires LibraryAge(lib).Some?
    ensures Resolve(domain, lib, api, sock).age == Resolve(domain, lib, api2, sock2).age
  {
    ResolvedAge(domain, lib, api, sock);
    ResolvedAge(domain, lib, api2, sock2);
  }

  /** The strategies are tried in order, each only when all before it found
      no age; the port-43 query goes to the server for the domain's TLD. */
  lemma TriedInOrder(domain: string, lib: LibraryOutcome, api: ApiOutcome, sock: SocketOutcome)
    ensures Resolve(domain, lib, api, sock).tried ==
            [Library] +
            (if LibraryAge(lib).Some? then [] else
              [JsonService] +
              (if ApiAge(api).Some? then [] else
                [Port43(WhoisServer(domain))] +
                (if SocketAge(sock).Some? then [] else [KnownSites])))
  {
    var s1 := LibraryStage(Initial(), domain, lib);
    LibraryStageAge(Initial(), domain, lib);
    var s2 := ApiStage(s1, api);
    ApiStageAge(s1, api);
    var s3 := SocketStage(s2, domain, sock);
    SocketStageAge(s2, domain, sock);
    var s4 := MarkMonitorStage(s3, domain);
    KnownSiteStageAge(s4, domain);
  }

  /** The library stage sets the registrar and the privacy flag only from
      an answer without a date error. */
  lemma LibraryStageFields(st: WhoisState, domain: string, lib: LibraryOutcome)
    ensures LibraryStage(st, domain, lib).registrar ==
      if lib.LibraryAnswered? && !lib.creation.AgeError? && lib.registrar.Some? && lib.registrar.value != ""
      then CanonicalRegistrar(lib.registrar.value) else st.registrar
    ensures LibraryStage(st, domain, lib).privacy ==
      if lib.LibraryAnswered? && !lib.creation.AgeError? && lib.emails != []
      then PrivacyEnabled(lib.emails) else st.privacy
  {
  }

  /** The stages after the library never touch the privacy flag, and keep
      the registrar within 30 characters. */
  lemma LaterStagesFields(st: WhoisState, domain: string, api: ApiOutcome, sock: SocketOutcome)
    ensures var r := FinishStage(KnownSiteStage(MarkMonitorStage(SocketStage(ApiStage(st, api), domain, sock), domain), domain));
      r.privacy == st.privacy &&
      (|st.registrar| <= 30 ==> |r.registrar| <= 30)
  {
  }

  /** Whatever the strategies return, the registrar has at most 30 characters. */
  lemma RegistrarBounded(domain: string, lib: LibraryOutcome, api: ApiOutcome, sock: SocketOutcome)
    ensures |Resolve(domain, lib, api, sock).registrar| <= 30
  {
    if lib.LibraryAnswered? && lib.registrar.Some? {
      RegistrarRange(lib.registrar.value);
    }
    LibraryStageFields(Initial(), domain, lib);
    LaterStagesFields(LibraryStage(Initial(), domain, lib), domain, api, sock);
  }

  /** WHOIS privacy is reported only from the library's contact e-mails. */
  lemma PrivacyFromLibraryOnly(domain: string, lib: LibraryOutcome, api: ApiOutcome, sock: SocketOutcome)
    ensures Resolve(domain, lib, api, sock).privacy <==>
            lib.LibraryAnswered? && !lib.creation.AgeError? && PrivacyEnabled(lib.emails)
  {
    LibraryStageFields(Initial(), domain, lib);
    LaterStagesFields(LibraryStage(Initial(), domain, lib), domain, api, sock);
  }

  /** The MarkMonitor fallback applies whenever the strategies left the
      registrar unknown, whether or not an age was found. */
  lemma MarkMonitorFallback(domain: string, lib: LibraryOutcome, api: ApiOutcome, sock: SocketOutcome)
    requires SocketStage(ApiStage(LibraryStage(Initial(), domain, lib), api), domain, sock).registrar == "Unknown"
    requires ContainsAny(Lower(domain), MarkMonitorSites)
    ensures Resolve(domain, lib, api, sock).registrar == "MarkMonitor"
    ensures MarkMonitorAssigned in Resolve(domain, lib, api, sock).log
  {
  }
}
