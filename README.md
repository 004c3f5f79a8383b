# Job record shaping of the job scraper API, modelled in Dafny

The service takes a job id and a country. It logs into a recruiting portal with the
country's credentials and scrapes the posting. It then has a language model reformat
the description and republishes the job in an applicant tracking system (ATS).
This project models the part of `api.py` that can be stated without a browser, a
network or a model:

- `transform_job_data`: turns the scraper's loose dictionary into the one-element
  list of ATS job records. It covers the location split, the job-type code, the
  recruiter line and the fixed default record (module `JobData`, `job_data.dfy`).
- The reply cleanup in `gen_ai_output`: strips Markdown code fences and whitespace
  from the model's reply. When the JSON decoding fails, the cleaned reply becomes
  the description with empty rate and title. When the call returns no choice, a
  fixed text does. When the call fails, a fixed prefix followed by the exception's
  text does (module `AiReply`, `ai_reply.dfy`).
- `get_job_details` up to the posting step: checks the country, picks the
  credentials, refuses an empty description, and rewrites the first record with the
  model's output (module `JobDetails`, `job_details.dfy`).
- The Python `str` builtins these rely on: `strip`, `lower`, `upper`, `startswith`,
  `endswith`, `in`, `split` (module `Strings`, `strings.dfy`).
  `Wrappers` holds `Option` and `Result`.

The dictionaries are datatypes. A key that is absent and a key mapped to `None`
are both `None`, as `d.get(k, '') or ''` treats them alike. The environment
(`os.getenv`) is a `map<string, string>`. The scraper (`login_and_scrape`), the
chat-completion call and `json.loads` are function parameters of the handler.
The handler changes `data[0]` in place. `FormatFirstRecord` mirrors this by
updating a local copy of the record field by field and writing it back. Nothing
else shares that dictionary.

Facts the proofs bring out about the code:

- After the empty-description guard, the record always has a description
  (`GuardedRecordHasDescription`). So the formatting branch always runs. Its `else`
  never does.
- The job-type code that `transform_job_data` derives from the scraped "Permanent"
  text is therefore always overwritten by the contractor-title rule
  (`ScrapedJobTypeIsOverridden`).
- When the model's reply cannot be decoded, the rate becomes "N/A". A contractor
  posting's title then becomes the empty string (`UnusableReplyEffects`).
- `transform_job_data` computes city, state and country but does not emit them: the
  keys are commented out. `ParseLocation` models the split anyway.
- The guard `len(location_parts) == 1 and location_parts[0]` makes no difference.
  A single piece is the whole location, and that is "" exactly when the location
  is empty (`ParseLocationOnePart`).
- A missing credential pair raises an HTTP exception inside the handler's own `try`.
  It therefore ends in the catch-all envelope "An error occurred: …" with the
  default record. It does not produce a fixed error message of its own.

## Model

| member | source | states |
|---|---|---|
| `Strings.Strip` | api.py:545 | `strip()` leaves no whitespace (Python's `isspace` set) at either end, is no longer than its input, and is empty exactly for all-whitespace input |
| `Strings.StripAround` | api.py:545 | `strip()` removes exactly the whitespace around a stripped core, so it is determined |
| `Strings.StripIdempotent` | api.py:534-545 | stripping twice, as the reply cleanup does, is the same as stripping once |
| `Strings.Lower` | api.py:299 | `lower()` keeps the length, maps each character on its own, and leaves no ASCII capital |
| `Strings.Upper` | api.py:53 | `upper()` keeps the length, maps each character on its own, and leaves no ASCII small letter |
| `Strings.Contains` | api.py:121 | `p in s` is true exactly when `p` occurs at some position of `s` |
| `Strings.Find` | api.py:283 | the index found is an occurrence of the separator and no occurrence starts earlier; none means none at all |
| `Strings.Split` | api.py:283 | `split(' - ')` yields at least one piece and no piece contains the separator |
| `Strings.JoinSplit` | api.py:283 | joining the pieces with the separator gives back the original location |
| `Strings.SplitAfter` | api.py:283 | when the separator cannot start before the end of `a`, `a + sep + rest` splits into `a` followed by the pieces of `rest` |
| `JobData.OrEmpty` | api.py:321-325 | `d.get(k, '') or ''` is "" exactly when the value is absent or empty, else the value |
| `JobData.ParseLocation` | api.py:282-294 | city, state and country never contain the separator |
| `JobData.ParseLocationReassembles` | api.py:283-294 | the location is the city alone, city and state joined by " - ", or begins with city, state and country joined by " - " |
| `JobData.ParseLocationOnePart` | api.py:293-294 | a location without " - " is all city, and "" gives three empty parts |
| `JobData.SplitAfterPiece` | api.py:283 | a piece that holds no " - " and does not end in " -" (hyphenated names included) is cut off whole as the first piece |
| `JobData.ParseLocationTwoParts` | api.py:290-292 | "City - State" gives city and state and an empty country, when the city is such a piece and the state holds no " - " |
| `JobData.ParseLocationThreeParts` | api.py:286-289 | "City - State - Country" gives all three, when city and state are such pieces and the country holds no " - "; so "Winston-Salem - North Carolina - USA" is covered |
| `JobData.ParseLocationExtraParts` | api.py:286-289 | pieces after the third are dropped, when the first three are such pieces |
| `JobData.JobTypeCode` | api.py:297-299 | the code is 1 or 7, and 1 exactly when the lower-cased job-type text is "permanent" (missing text gives 7) |
| `JobData.PermanentInAnyCase` | api.py:299 | the test accepts exactly the nine letters of "permanent", each in either case |
| `JobData.ClientManager` | api.py:302-318 | the first recruiter as "Name <Email>", name only, e-mail only, or its string form; "" exactly when there is no recruiter or the first gives no text |
| `JobData.ClientManagerFirstOnly` | api.py:304-305 | recruiters after the first do not matter |
| `JobData.TransformJobData` | api.py:256-348 | always one record; the fixed default for no result; otherwise the constant remote flag, client and manager ids, copied text fields, status 1 exactly when openings are given and 0 otherwise, job type from `JobTypeCode`, client manager from the first recruiter |
| `JobData.DefaultRecordStandsApart` | api.py:261-279 | no scraper result transforms into the default record: its status is 6 and its type 0, which a transformed record never has; a result with every key missing gives title "", status 0 and type 7 |
| `AiReply.StripLeadingFence` | api.py:536-539 | a leading "```json" is removed if present, else a leading "```", else nothing |
| `AiReply.StripTrailingFence` | api.py:541-542 | a trailing "```" is removed if present, else nothing |
| `AiReply.CleanReply` | api.py:534-545 | the cleaned reply has no whitespace at either end and is no longer than the reply |
| `AiReply.CleanJsonFenced` | api.py:537-545 | a reply "```json body ```", with any whitespace around it, cleans to the stripped body |
| `AiReply.CleanPlainFenced` | api.py:539-545 | a reply "``` body ```" cleans to the stripped body unless the body begins with "json" |
| `AiReply.CleanUnfenced` | api.py:534-545 | a reply with no fence at either end is only stripped |
| `AiReply.CleanKeepsJsonFenceIff` | api.py:537-545 | the cleaned reply opens with "```json" if and only if the reply was double-fenced |
| `AiReply.CleanNeverJsonFenced` | api.py:537-545 | a reply that is not double-fenced never cleans to text opening with "```json" |
| `AiReply.GenAiOutput` | api.py:533-572 | a decoded reply is used as it is; an undecodable one gives the cleaned text with empty rate and title; no choices gives a fixed text; a failed call gives a fixed prefix followed by the exception's text; all three fallbacks have empty rate and title |
| `AiReply.FallbackHasNoRateOrTitle` | api.py:551-572 | every fallback has empty rate and title; a text fallback is stripped, and the fixed ones are non-empty |
| `JobDetails.CheckCountry` | api.py:42-62 | missing or empty country gives the "Country parameter is required…" envelope; otherwise USA on "USA", INDIA on "INDIA" after upper-casing, and the "Invalid country…" envelope for anything else (each both ways) |
| `JobDetails.CountryCaseInsensitive` | api.py:52-54 | a country and its upper-cased form are treated the same |
| `JobDetails.UsaSpellings` | api.py:53-54 | exactly the spellings of "usa" in any letter case select USA (long s counts as s) |
| `JobDetails.IndiaSpellings` | api.py:53-54 | exactly the spellings of "india" in any letter case select INDIA (dotless i counts as i) |
| `JobDetails.MissingCredentialsIsCatchAll` | api.py:195-206 | a missing login (the exception raised at api.py:72-76) ends in the catch-all envelope: status "error", the default record as data, and "An error occurred: " followed by the exception text; it differs from every fixed rejection |
| `JobDetails.CredentialKeys` | api.py:64-70 | USA reads `ripple_username`/`ripple_password`, INDIA the `_india` pair |
| `JobDetails.LookupCredentials` | api.py:64-76 | a login exists exactly when both variables of the pair are set and non-empty, and it holds their values |
| `JobDetails.CredentialsReadOwnKeysOnly` | api.py:64-70 | a country's login depends on its own two variables only |
| `JobDetails.CheckScrape` | api.py:86-95 | a result passes exactly when it exists and has a non-empty description; otherwise the "No job details found…" envelope |
| `JobDetails.GuardedRecordHasDescription` | api.py:87-105 | a record that passed the guard has a description, so formatting always runs |
| `JobDetails.IsContractorTitle` | api.py:121 | a title is a contractor title exactly when its lower-cased form holds "contractor" at some position |
| `JobDetails.ContractorAnywhere` | api.py:121 | "contractor" in any letter case, anywhere in the title, marks a contractor job |
| `JobDetails.PostProcess` | api.py:113-126 | the model's description is written in; the rate is never empty ("N/A" for an empty rate); type 7 with the model's title exactly for a contractor title, else type 1 with the title kept; no other field changes |
| `JobDetails.ScrapedJobTypeIsOverridden` | api.py:121-125 | the scraped job-type text has no effect on the post-processed record |
| `JobDetails.UnusableReplyEffects` | api.py:115-123 | an undecodable or failed reply gives rate "N/A" and an empty title for a contractor job |
| `JobDetails.Summary` | api.py:132-134 | `final_data` holds exactly the recruitment manager and the job title |
| `JobDetails.FormatFirstRecord` | api.py:104-129 | a first record with a description is replaced by its post-processed form; otherwise nothing changes |
| `JobDetails.GetJobDetails` | api.py:40-134 | the checks apply in the source's order (country, credentials, result); a request that passes them yields one record, post-processed from the transformed result with the model's output for its description, plus its summary; that record always has a non-empty rate and type 1 or 7 |

## Left out

- Posting to the ATS and confirming the post: `CeipalAPI`, `create_job_post`, `list_jobs`, the job-code match and the rest of `final_data` (api.py:136-189, 351-365). These are HTTP calls. `ceipal_data` (api.py:138-154) is built but never used.
- The scraper (`scraper.py`) and the ATS client (`ceipal_AI.py`). They are browser automation and HTTP/XML plumbing. The scraper is a parameter that returns an optional result. A scraper that raises is not modelled.
- The chat-completion request: prompt text, model name, token limit and the float temperature (api.py:455-530). The reply is an input (`LlmReply`), and `json.loads` is a `decode` parameter.
- A decoded JSON value that is not an object with three string values. The model assumes `decode` returns the three strings or nothing. In the source such values behave in different ways:
  - A value that is not an object raises a TypeError at api.py:114. So does an object without "job_description" or "rate", with a KeyError at api.py:114-115. Both end in the catch-all envelope.
  - An object without "job_title" raises a KeyError only for a contractor title, because api.py:123 is the only read of that key. Otherwise the record is written as usual.
  - Values that are not strings flow into the record unchanged. A numeric rate such as 75 becomes the bill rate, and a null or other falsy rate becomes "N/A" (api.py:115).
- The FastAPI/uvicorn wiring, `JSONResponse` status codes, the `/` endpoint and all `print` logging (api.py:26-30, 574-580).
- Commented-out code (api.py:208-254, 367-430).
- `JobDetails.MissingCredentialsIsCatchAll`: the catch-all message uses `str()` of the HTTP exception, assumed here to be "500: <detail>" (the rendering of recent Starlette versions). Other exceptions reaching the catch-all are not modelled.
- `Strings.Lower`, `Strings.Upper`: only map the characters whose case mapping is a single ASCII letter: A-Z and the Kelvin sign for `lower`, a-z, dotless i and long s for `upper`. All other characters are kept, and multi-character mappings such as capital I with dot are not modelled. The comparisons with "permanent", "contractor", "USA" and "INDIA" depend only on these characters. The case-mapped strings themselves are not full Unicode case mapping.
- `Strings.Split`: only for a non-empty separator. Python raises on an empty one, and the source always passes " - ".
