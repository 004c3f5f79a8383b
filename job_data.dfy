/**
 * `transform_job_data` (api.py): the scraper's loose dictionary of optional
 * strings becomes the one-element list of job records the applicant tracking
 * system expects.
 */
module JobData {
  import opened Wrappers
  import opened Strings

  /** The first recruiter entry: a dictionary with optional name and e-mail, or any
      other value, kept here as the text `str()` gives for it. */
  datatype Recruiter =
    | Contact(name: Option<string>, email: Option<string>)
    | Rendered(text: string)

  /** The scraper's result dictionary; `None` is a key that is absent or maps to None. */
  datatype ScrapeResult = ScrapeResult(
    jobId: Option<string>,
    jobTitle: Option<string>,
    jobDescription: Option<string>,
    skills: Option<string>,
    openings: Option<string>,
    location: Option<string>,
    jobType: Option<string>,
    recruiters: Option<seq<Recruiter>>)

  /** One job record as posted to the tracking system. `billRate` is the
      `client_bill_rate___salary` key, which only the request handler adds. */
  datatype JobRecord = JobRecord(
    jobTitle: string,
    remoteJob: int,
    jobStatus: int,
    client: string,
    recruitmentManager: string,
    jobDescription: string,
    jobType: int,
    clientManager: string,
    clientJobId: string,
    primarySkills: string,
    location: string,
    billRate: Option<string>)

  /** City, state and country read off a location string. */
  datatype Place = Place(city: string, state: string, country: string)

  /** The fixed client and recruitment-manager identifiers of the tracking system. */
  const ClientId := "z5G7h3l6a1kMvyS65NP3c1Wey4ZBSspA_4KksTSjJxU="
  const RecruitmentManagerId := "z5G7h3l6a1kMvyS65NP3c0wyhFsf0_8F-nELY1aw5Wk="

  const LocationSeparator := " - "

  const PermanentCode := 1
  const ContractCode := 7

  /** Python truthiness of an optional string: present and non-empty. */
  predicate Truthy(o: Option<string>) {
    o.Some? && o.value != ""
  }

  /** `d.get(key, '') or ''` */
  function OrEmpty(o: Option<string>): (r: string)
    ensures r == "" <==> !Truthy(o)
    ensures Truthy(o) ==> r == o.value
  {
    if o.Some? then o.value else ""
  }

  // ---------------------------------------------------------------------
  // Location
  // ---------------------------------------------------------------------

  /** Split the location on " - ": three or more pieces give city, state and
      country from the first three, two give city and state, one gives the city
      (which is the empty string for an empty location). */
  function ParseLocation(location: string): (p: Place)
    ensures Free(p.city, LocationSeparator) && Free(p.state, LocationSeparator)
    ensures Free(p.country, LocationSeparator)
  {
    var parts := Split(location, LocationSeparator);
    if |parts| >= 3 then Place(parts[0], parts[1], parts[2])
    else if |parts| == 2 then Place(parts[0], parts[1], "")
    else if |parts| == 1 && parts[0] != "" then Place(parts[0], "", "")
    else Place("", "", "")
  }

  /** What was read off is really in the location: it is the city alone, city and
      state joined by the separator, or the location begins with all three. */
  lemma ParseLocationReassembles(location: string)
    ensures var p := ParseLocation(location);
      || (location == p.city && p.state == "" && p.country == "")
      || (location == p.city + LocationSeparator + p.state && p.country == "")
      || StartsWith(location, p.city + LocationSeparator + p.state + LocationSeparator + p.country)
  {
    var sep := LocationSeparator;
    var parts := Split(location, sep);
    JoinSplit(location, sep);
    if |parts| >= 3 {
      JoinFirstThree(parts, sep);
    } else if |parts| == 2 {
      assert parts[1..] == [parts[1]];
    }
  }

  /** A join of three or more pieces begins with the first three joined. */
  lemma JoinFirstThree(parts: seq<string>, sep: string)
    requires |parts| >= 3
    ensures StartsWith(Join(parts, sep), parts[0] + sep + parts[1] + sep + parts[2])
  {
    var prefix := parts[0] + sep + parts[1] + sep + parts[2];
    var tail := parts[2..];
    assert parts[1..][1..] == tail;
    var rest := if |tail| == 1 then "" else sep + Join(tail[1..], sep);
    assert Join(tail, sep) == parts[2] + rest;
    assert Join(parts, sep) == prefix + rest;
  }

  /** A piece that can stand before " - " in a location: it holds no " - " and does
      not end in " -", so the first occurrence of the separator is the one right
      after it. Hyphenated names such as "Winston-Salem" qualify. */
  ghost predicate Piece(a: string) {
    Free(a, LocationSeparator) && !EndsWith(a, " -")
  }

  /** A piece followed by the separator: the first cut is right after the piece. */
  lemma SplitAfterPiece(a: string, rest: string)
    requires Piece(a)
    ensures Split(a + LocationSeparator + rest, LocationSeparator) == [a] + Split(rest, LocationSeparator)
  {
    var sep := LocationSeparator;
    var s := a + sep + rest;
    forall j: nat | j < |a| ensures !OccursAt(s, sep, j) {
      if j + 3 <= |a| {
        assert s[j..j + 3] == a[j..j + 3];
        assert !OccursAt(a, sep, j);
      } else if j + 2 == |a| {
        assert a[|a| - 2..] == [a[j], a[j + 1]];
        assert s[j..j + 3][..2] == [a[j], a[j + 1]];
      } else {
        assert s[j..j + 3][1] == s[j + 1] == ' ';
      }
    }
    SplitAfter(a, sep, rest);
  }

  /** A location without the separator is all city; in particular "" gives three
      empty parts. */
  lemma ParseLocationOnePart(location: string)
    requires Free(location, LocationSeparator)
    ensures ParseLocation(location) == Place(location, "", "")
  {
    SplitFree(location, LocationSeparator);
  }

  /** "City - State" */
  lemma ParseLocationTwoParts(city: string, state: string)
    requires Piece(city) && Free(state, LocationSeparator)
    ensures ParseLocation(city + LocationSeparator + state) == Place(city, state, "")
  {
    SplitAfterPiece(city, state);
    SplitFree(state, LocationSeparator);
  }

  /** "City - State - Country", e.g. "Covington - Kentucky - USA". */
  lemma ParseLocationThreeParts(city: string, state: string, country: string)
    requires Piece(city) && Piece(state) && Free(country, LocationSeparator)
    ensures ParseLocation(city + LocationSeparator + state + LocationSeparator + country)
         == Place(city, state, country)
  {
    var sep := LocationSeparator;
    assert city + sep + state + sep + country == city + sep + (state + sep + country);
    SplitAfterPiece(city, state + sep + country);
    SplitAfterPiece(state, country);
    SplitFree(country, sep);
  }

  /** Pieces after the third are dropped. */
  lemma ParseLocationExtraParts(city: string, state: string, country: string, more: string)
    requires Piece(city) && Piece(state) && Piece(country)
    ensures ParseLocation(city + LocationSeparator + state + LocationSeparator + country + LocationSeparator + more)
         == Place(city, state, country)
  {
    var sep := LocationSeparator;
    var t3 := country + sep + more;
    var t2 := state + sep + t3;
    var s := city + sep + state + sep + country + sep + more;
    assert s == city + sep + t2;
    SplitAfterPiece(city, t2);
    SplitAfterPiece(state, t3);
    SplitAfterPiece(country, more);
    var parts := Split(s, sep);
    assert parts == [city] + ([state] + ([country] + Split(more, sep)));
    assert parts[0] == city && parts[1] == state && parts[2] == country;
  }

  // ---------------------------------------------------------------------
  // Job type
  // ---------------------------------------------------------------------

  /** 1 (permanent) when the lower-cased job-type text is "permanent", else 7. */
  function JobTypeCode(text: Option<string>): (code: int)
    ensures code == PermanentCode || code == ContractCode
    ensures code == PermanentCode <==> Lower(OrEmpty(text)) == "permanent"
  {
    if Lower(OrEmpty(text)) == "permanent" then PermanentCode else ContractCode
  }

  /** The test ignores letter case and nothing else: each of the nine letters may be
      written in either case. */
  lemma PermanentInAnyCase(s: string)
    ensures Lower(s) == "permanent"
       <==> |s| == 9 && forall i :: 0 <= i < 9 ==> s[i] == "permanent"[i] || s[i] == "PERMANENT"[i]
  {
    if |s| == 9 {
      var lower, upper := "permanent", "PERMANENT";
      if Lower(s) == lower {
        forall i | 0 <= i < 9 ensures s[i] == lower[i] || s[i] == upper[i] {
          assert CharLower(s[i]) == lower[i];
        }
      }
      if forall i :: 0 <= i < 9 ==> s[i] == lower[i] || s[i] == upper[i] {
        forall i | 0 <= i < 9 ensures Lower(s)[i] == lower[i] {
          assert CharLower(s[i]) == lower[i];
        }
      }
    }
  }

  // ---------------------------------------------------------------------
  // Client manager (the portal's recruiter)
  // ---------------------------------------------------------------------

  /** A recruiter entry that yields no text. */
  predicate Silent(r: Recruiter) {
    match r
    case Contact(name, email) => !Truthy(name) && !Truthy(email)
    case Rendered(text) => text == ""
  }

  /** The first recruiter as "Name <Email>", the name alone, the e-mail alone, or the
      string form of a non-dictionary entry; "" when there is nobody. */
  function ClientManager(recruiters: seq<Recruiter>): (r: string)
    ensures r == "" <==> |recruiters| == 0 || Silent(recruiters[0])
    ensures |recruiters| > 0 && recruiters[0].Contact? ==>
      var c := recruiters[0];
      && (Truthy(c.name) && Truthy(c.email) ==> r == c.name.value + " <" + c.email.value + ">")
      && (Truthy(c.name) && !Truthy(c.email) ==> r == c.name.value)
      && (!Truthy(c.name) && Truthy(c.email) ==> r == c.email.value)
    ensures |recruiters| > 0 && recruiters[0].Rendered? ==> r == recruiters[0].text
  {
    if |recruiters| == 0 then ""
    else match recruiters[0]
      case Contact(name, email) =>
        if Truthy(name) && Truthy(email) then name.value + " <" + email.value + ">"
        else if Truthy(name) then name.value
        else if Truthy(email) then email.value
        else ""
      case Rendered(text) => text
  }

  /** Only the first recruiter matters. */
  lemma ClientManagerFirstOnly(first: Recruiter, others: seq<Recruiter>)
    ensures ClientManager([first] + others) == ClientManager([first])
  {
  }

  // ---------------------------------------------------------------------
  // The record
  // ---------------------------------------------------------------------

  /** The record produced when there is no scraper result at all. */
  const DefaultRecord := JobRecord(
    jobTitle := "Unknown Position",
    remoteJob := 1,
    jobStatus := 6,
    client := ClientId,
    recruitmentManager := RecruitmentManagerId,
    jobDescription := "",
    jobType := 0,
    clientManager := "",
    clientJobId := "",
    primarySkills := "",
    location := "",
    billRate := None)

  /** `transform_job_data(result)`. Always one record. Without a result it is the
      fixed default; otherwise the text fields are copied (absent means ""), the
      job type is 1 exactly for "permanent" in any case and 7 otherwise, the status
      is 1 exactly when openings are given, and the first recruiter becomes the
      client manager. City, state and country are computed by the source but not
      emitted, so they are not part of the record (see ParseLocation). */
  function TransformJobData(result: Option<ScrapeResult>): (data: seq<JobRecord>)
    ensures |data| == 1
    ensures result.None? ==> data[0] == DefaultRecord
    ensures result.Some? ==>
      var s, d := result.value, data[0];
      && d.remoteJob == 1 && d.client == ClientId && d.recruitmentManager == RecruitmentManagerId
      && d.location == OrEmpty(s.location)
      && d.jobTitle == OrEmpty(s.jobTitle)
      && d.jobDescription == OrEmpty(s.jobDescription)
      && d.clientJobId == OrEmpty(s.jobId)
      && d.primarySkills == OrEmpty(s.skills)
      && (d.jobStatus == 1 <==> Truthy(s.openings)) && (d.jobStatus == 0 <==> !Truthy(s.openings))
      && (d.jobType == PermanentCode <==> Lower(OrEmpty(s.jobType)) == "permanent")
      && (d.jobType == ContractCode <==> Lower(OrEmpty(s.jobType)) != "permanent")
      && d.clientManager == ClientManager(if s.recruiters.Some? then s.recruiters.value else [])
      && d.billRate.None?
  {
    match result
    case None => [DefaultRecord]
    case Some(s) =>
      var location := OrEmpty(s.location);
      // City, state and country are computed as the source does, but not emitted.
      var _ := ParseLocation(location);
      var recruiters := if s.recruiters.Some? then s.recruiters.value else [];
      [JobRecord(
        jobTitle := OrEmpty(s.jobTitle),
        remoteJob := 1,
        jobStatus := if Truthy(s.openings) then 1 else 0,
        client := ClientId,
        recruitmentManager := RecruitmentManagerId,
        jobDescription := OrEmpty(s.jobDescription),
        jobType := JobTypeCode(s.jobType),
        clientManager := ClientManager(recruiters),
        clientJobId := OrEmpty(s.jobId),
        primarySkills := OrEmpty(s.skills),
        location := location,
        billRate := None)]
  }

  /** The default record is recognisable: no scraper result ever transforms into
      it, since a transformed record has status 1 or 0 where the default has 6.
      Even a result with every key missing gets an empty title, status 0 and the
      contract type instead. */
  lemma DefaultRecordStandsApart(s: ScrapeResult)
    ensures TransformJobData(Some(s))[0] != DefaultRecord
    ensures TransformJobData(None)[0].jobStatus == 6 && TransformJobData(None)[0].jobType == 0
    ensures var d := TransformJobData(Some(ScrapeResult(None, None, None, None, None, None, None, None)))[0];
      d.jobTitle == "" && d.jobStatus == 0 && d.jobType == ContractCode
  {
  }
}
