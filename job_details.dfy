/**
 * The decisions `get_job_details` (api.py) takes around the scraper and the
 * language model: the country check, the choice of portal credentials, the
 * empty-description guard, and the in-place rewrite of the first job record with
 * the model's output. Environment lookups, the scraper and the model are
 * parameters; posting to the tracking system is not part of this model.
 */
module JobDetails {
  import opened Wrappers
  import opened Strings
  import opened JobData
  import opened AiReply

  datatype Country = Usa | India

  /** The JSON envelope `{"status", "message", "data"}` of an early return. */
  datatype Envelope = Envelope(status: string, message: string, data: seq<JobRecord>)

  datatype Credentials = Credentials(username: string, password: string)

  /** Where the handler stops in this model: an error envelope, or the job record
      list and the `final_data` summary that go on to the tracking system. */
  datatype Outcome =
    | Rejected(envelope: Envelope)
    | Prepared(data: seq<JobRecord>, summary: map<string, string>)

  const MissingCountryMessage := "Country parameter is required. Please specify either 'USA' or 'INDIA'."
  const InvalidCountryMessage := "Invalid country. Please specify either 'USA' or 'INDIA'."
  const NoDetailsMessage := "No job details found or job description is empty. Please check the job ID."
  const MissingCredentialsDetail := "Missing credentials. Please set ripple_username and ripple_password environment variables."
  const ErrorPrefix := "An error occurred: "
  const NotAvailable := "N/A"
  const ContractorWord := "contractor"

  const MissingCountry := Envelope("error", MissingCountryMessage, [])
  const InvalidCountry := Envelope("error", InvalidCountryMessage, [])
  const NoDetails := Envelope("error", NoDetailsMessage, [])
  /** The catch-all handler's envelope for the missing-credentials exception,
      rendered as `str()` renders an HTTP exception: "<status>: <detail>". */
  const MissingCredentials := Envelope("error", ErrorPrefix + "500: " + MissingCredentialsDetail, TransformJobData(None))

  /** Missing credentials end in the catch-all envelope: unlike the fixed rejections,
      which carry no record, it carries the default record, and its message is the
      catch-all prefix followed by the exception's text. */
  lemma MissingCredentialsIsCatchAll()
    ensures MissingCredentials.status == "error" && MissingCredentials.data == [DefaultRecord]
    ensures StartsWith(MissingCredentials.message, ErrorPrefix)
    ensures MissingCredentials.message[|ErrorPrefix|..] == "500: " + MissingCredentialsDetail
    ensures MissingCredentials != MissingCountry && MissingCredentials != InvalidCountry
         && MissingCredentials != NoDetails
  {
  }

  // ---------------------------------------------------------------------
  // Country and credentials
  // ---------------------------------------------------------------------

  /** A missing or empty country is refused first; then the upper-cased country
      must be USA or INDIA. */
  function CheckCountry(country: Option<string>): (r: Result<Country, Envelope>)
    ensures r == Failure(MissingCountry) <==> !Truthy(country)
    ensures r == Failure(InvalidCountry) <==> Truthy(country) && Upper(country.value) != "USA" && Upper(country.value) != "INDIA"
    ensures r == Success(Usa) <==> Truthy(country) && Upper(country.value) == "USA"
    ensures r == Success(India) <==> Truthy(country) && Upper(country.value) == "INDIA"
  {
    if !Truthy(country) then Failure(MissingCountry)
    else
      var upper := Upper(country.value);
      if upper == "USA" then Success(Usa)
      else if upper == "INDIA" then Success(India)
      else Failure(InvalidCountry)
  }

  /** Letter case does not matter. */
  lemma CountryCaseInsensitive(s: string)
    ensures CheckCountry(Some(s)) == CheckCountry(Some(Upper(s)))
  {
    UpperIdempotent(s);
  }

  /** Exactly the spellings of "usa" in any case (long s counting as an s) are USA. */
  lemma UsaSpellings(s: string)
    ensures CheckCountry(Some(s)) == Success(Usa)
       <==> (&& |s| == 3
             && (s[0] == 'u' || s[0] == 'U')
             && (s[1] == 's' || s[1] == 'S' || s[1] as int == 0x17F)
             && (s[2] == 'a' || s[2] == 'A'))
  {
    if |s| == 3 {
      assert Upper(s) == [CharUpper(s[0]), CharUpper(s[1]), CharUpper(s[2])];
    }
  }

  /** Exactly the spellings of "india" in any case (dotless i counting as an i) are INDIA. */
  lemma IndiaSpellings(s: string)
    ensures CheckCountry(Some(s)) == Success(India)
       <==> (&& |s| == 5
             && (s[0] == 'i' || s[0] == 'I' || s[0] as int == 0x131)
             && (s[1] == 'n' || s[1] == 'N')
             && (s[2] == 'd' || s[2] == 'D')
             && (s[3] == 'i' || s[3] == 'I' || s[3] as int == 0x131)
             && (s[4] == 'a' || s[4] == 'A'))
  {
    if |s| == 5 {
      assert Upper(s) == [CharUpper(s[0]), CharUpper(s[1]), CharUpper(s[2]), CharUpper(s[3]), CharUpper(s[4])];
    }
  }

  /** The environment variables holding the portal login for each country. */
  function CredentialKeys(c: Country): (keys: (string, string))
    ensures c == Usa <==> keys == ("ripple_username", "ripple_password")
    ensures c == India <==> keys == ("ripple_username_india", "ripple_password_india")
  {
    match c
    case Usa => ("ripple_username", "ripple_password")
    case India => ("ripple_username_india", "ripple_password_india")
  }

  /** Both variables of the country's pair must be set and non-empty. */
  function LookupCredentials(c: Country, env: map<string, string>): (r: Option<Credentials>)
    ensures var (user, pass) := CredentialKeys(c);
      && (r.Some? <==> user in env && pass in env && env[user] != "" && env[pass] != "")
      && (r.Some? ==> r.value == Credentials(env[user], env[pass]))
  {
    var (user, pass) := CredentialKeys(c);
    if user in env && pass in env && env[user] != "" && env[pass] != "" then
      Some(Credentials(env[user], env[pass]))
    else None
  }

  /** A country's login reads its own two variables and nothing else; in
      particular the INDIA variables never affect a USA request. */
  lemma CredentialsReadOwnKeysOnly(c: Country, env1: map<string, string>, env2: map<string, string>)
    requires forall k :: k == CredentialKeys(c).0 || k == CredentialKeys(c).1 ==>
      (k in env1 <==> k in env2) && (k in env1 ==> env1[k] == env2[k])
    ensures LookupCredentials(c, env1) == LookupCredentials(c, env2)
  {
    var (user, pass) := CredentialKeys(c);
    assert user in env1 <==> user in env2;
    assert pass in env1 <==> pass in env2;
  }

  // ---------------------------------------------------------------------
  // The scraper result and the model's output
  // ---------------------------------------------------------------------

  /** No result, or a result without a description, is refused. */
  function CheckScrape(result: Option<ScrapeResult>): (r: Result<ScrapeResult, Envelope>)
    ensures r.Success? <==> result.Some? && Truthy(result.value.jobDescription)
    ensures r.Success? ==> r.value == result.value
    ensures r.Failure? ==> r.error == NoDetails
  {
    if result.Some? && Truthy(result.value.jobDescription) then Success(result.value)
    else Failure(NoDetails)
  }

  /** A record that passed the guard always has a description, so the handler's
      formatting step is never skipped. */
  lemma GuardedRecordHasDescription(result: Option<ScrapeResult>)
    requires CheckScrape(result).Success?
    ensures TransformJobData(result)[0].jobDescription != ""
  {
  }

  /** `"contractor" in title.lower()`: the lower-cased title holds "contractor" at
      some position. */
  function IsContractorTitle(title: string): (b: bool)
    ensures b <==> exists j: nat :: OccursAt(Lower(title), ContractorWord, j)
  {
    Contains(Lower(title), ContractorWord)
  }

  /** "contractor" in any letter case, anywhere in the title. */
  lemma ContractorAnywhere(before: string, word: string, after: string)
    requires Lower(word) == ContractorWord
    ensures IsContractorTitle(before + word + after)
  {
    LowerAppend(before + word, after);
    LowerAppend(before, word);
    ContainsMiddle(Lower(before), ContractorWord, Lower(after));
  }

  /** The record after the model's output has been written into it: the new
      description, the rate or "N/A", and for a contractor title job type 7 with the
      model's title, otherwise job type 1 with the title kept. Nothing else changes. */
  function PostProcess(rec: JobRecord, ai: AiOutput): (r: JobRecord)
    ensures r.jobDescription == ai.jobDescription
    ensures r.billRate.Some? && r.billRate.value != ""
    ensures ai.rate != "" ==> r.billRate == Some(ai.rate)
    ensures ai.rate == "" ==> r.billRate == Some(NotAvailable)
    ensures r.jobType == ContractCode <==> IsContractorTitle(rec.jobTitle)
    ensures r.jobType == PermanentCode <==> !IsContractorTitle(rec.jobTitle)
    ensures r.jobTitle == if IsContractorTitle(rec.jobTitle) then ai.jobTitle else rec.jobTitle
    ensures r.(jobDescription := rec.jobDescription, billRate := rec.billRate,
               jobType := rec.jobType, jobTitle := rec.jobTitle) == rec
  {
    var contractor := IsContractorTitle(rec.jobTitle);
    rec.(jobDescription := ai.jobDescription,
         billRate := Some(if ai.rate != "" then ai.rate else NotAvailable),
         jobType := if contractor then ContractCode else PermanentCode,
         jobTitle := if contractor then ai.jobTitle else rec.jobTitle)
  }

  /** The scraped job-type text never reaches the posted record: the post-processing
      always overwrites the code that `transform_job_data` derived from it. */
  lemma ScrapedJobTypeIsOverridden(s: ScrapeResult, text: Option<string>, ai: AiOutput)
    ensures PostProcess(TransformJobData(Some(s))[0], ai)
         == PostProcess(TransformJobData(Some(s.(jobType := text)))[0], ai)
  {
    var d1, d2 := TransformJobData(Some(s))[0], TransformJobData(Some(s.(jobType := text)))[0];
    assert d1.(jobType := 0) == d2.(jobType := 0);
  }

  /** When the model's reply cannot be used, the rate is "N/A", and a contractor
      posting's title becomes empty. */
  lemma UnusableReplyEffects(rec: JobRecord, reply: LlmReply, decode: string -> Option<AiOutput>)
    requires !(reply.Content? && decode(CleanReply(reply.text)).Some?)
    ensures PostProcess(rec, GenAiOutput(reply, decode)).billRate == Some(NotAvailable)
    ensures IsContractorTitle(rec.jobTitle) ==> PostProcess(rec, GenAiOutput(reply, decode)).jobTitle == ""
  {
    FallbackHasNoRateOrTitle(reply, decode);
  }

  /** `final_data` before the posting step. */
  function Summary(rec: JobRecord): (m: map<string, string>)
    ensures m.Keys == {"recruitment_manager", "job_title"}
    ensures m["recruitment_manager"] == rec.recruitmentManager && m["job_title"] == rec.jobTitle
  {
    map["recruitment_manager" := rec.recruitmentManager, "job_title" := rec.jobTitle]
  }

  // ---------------------------------------------------------------------
  // The handler
  // ---------------------------------------------------------------------

  /** The formatting step of the handler: when the first record has a description,
      the model's output for it is written into that record, field by field. */
  method FormatFirstRecord(data: seq<JobRecord>, llm: string -> LlmReply, decode: string -> Option<AiOutput>)
    returns (updated: seq<JobRecord>)
    ensures |data| > 0 && data[0].jobDescription != "" ==>
      updated == data[0 := PostProcess(data[0], GenAiOutput(llm(data[0].jobDescription), decode))]
    ensures !(|data| > 0 && data[0].jobDescription != "") ==> updated == data
  {
    updated := data;
    if |data| > 0 && data[0].jobDescription != "" {
      var formatted := GenAiOutput(llm(data[0].jobDescription), decode);
      // `job` stands for the dictionary data[0], which the source updates in place.
      var job := data[0];
      var contractor := IsContractorTitle(job.jobTitle);
      job := job.(jobDescription := formatted.jobDescription);
      job := job.(billRate := Some(if formatted.rate != "" then formatted.rate else NotAvailable));
      if contractor {
        job := job.(jobType := ContractCode);
        job := job.(jobTitle := formatted.jobTitle);
      } else {
        job := job.(jobType := PermanentCode);
      }
      updated := updated[0 := job];
    }
  }

  /** `get_job_details` up to the posting step. The checks run in the source's
      order; the first record is then rewritten field by field in place. */
  method GetJobDetails(
    jobId: string,
    country: Option<string>,
    env: map<string, string>,
    scraper: (string, string, string) -> Option<ScrapeResult>,
    llm: string -> LlmReply,
    decode: string -> Option<AiOutput>)
    returns (out: Outcome)
    ensures CheckCountry(country).Failure? ==> out == Rejected(CheckCountry(country).error)
    ensures CheckCountry(country).Success? && LookupCredentials(CheckCountry(country).value, env).None?
      ==> out == Rejected(MissingCredentials)
    ensures CheckCountry(country).Success? && LookupCredentials(CheckCountry(country).value, env).Some? ==>
      var login := LookupCredentials(CheckCountry(country).value, env).value;
      var result := scraper(login.username, login.password, jobId);
      && (CheckScrape(result).Failure? ==> out == Rejected(NoDetails))
      && (CheckScrape(result).Success? ==>
           var rec := PostProcess(TransformJobData(result)[0], GenAiOutput(llm(result.value.jobDescription.value), decode));
           out == Prepared([rec], Summary(rec)))
    ensures out.Prepared? ==>
      && |out.data| == 1
      && out.data[0].billRate.Some? && out.data[0].billRate.value != ""
      && (out.data[0].jobType == PermanentCode || out.data[0].jobType == ContractCode)
  {
    var checked := CheckCountry(country);
    if checked.Failure? {
      return Rejected(checked.error);
    }
    var login := LookupCredentials(checked.value, env);
    if login.None? {
      return Rejected(MissingCredentials);
    }
    var result := scraper(login.value.username, login.value.password, jobId);
    var guarded := CheckScrape(result);
    if guarded.Failure? {
      return Rejected(guarded.error);
    }

    var data := TransformJobData(result);
    GuardedRecordHasDescription(result);
    data := FormatFirstRecord(data, llm, decode);
    var summary := map[];
    summary := summary["recruitment_manager" := data[0].recruitmentManager];
    summary := summary["job_title" := data[0].jobTitle];
    assert summary == Summary(data[0]);
    out := Prepared(data, summary);
  }
}
