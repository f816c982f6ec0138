# BEU results fetcher: a verified model of its core

BEUlytics fetches Bihar Engineering University result records and turns them into a table.
This project models its core in Dafny and proves properties of the model.

- **Result API client** (`api_scraper.py`). It builds the registration numbers of a class:
  - `batch ++ branch ++ college ++` a three-digit sequence number;
  - optionally, thirty lateral-entry numbers 901..930 under `batch + 1`.

  It queries the results API once per number, in a retry loop with a polite pause, exponential
  backoff and a fixed classification of answers. It keeps the truthy results, gathered from a
  worker pool in completion order.
- **Legacy page scraper** (`scraper.py`). It fetches one student's HTML result page with
  retries, reads its labelled fields and its grade table into a dict, and fetches a range of
  numbers, collecting in submission order. It also finds the latest semester grade of a row
  that parses.
- **Record normaliser** (`data_processor.py`):
  - tolerant coercions `safe_int` and `safe_float`;
  - the latest-SGPA scan;
  - flattening a record into one row, with the CGPA fallback and numbered subject columns;
  - the SGPA bracket;
  - the conjunctive row filter.

The modules:

- `Optional`: `Option` and `Result`. `Raises` stands for an exception that escapes.
- `Text`: Python's `strip`, `upper`, `str()` of an integer and the `{n:03d}` format.
- `Numbers`: `float()` and `int()` of a text, over exact reals with `inf` and `nan`.
- `Json`: decoded JSON values, with dicts in insertion order.
- `Seqs`: filters, and dicts as ordered entry lists.
- `Trace`: sleeps and requests, recorded as events.

HTTP, time and thread scheduling are parameters of the model:

- `responses(attempt)` gives what each attempt of one call receives. For the pooled and
  sequential batches, `network(job)(attempt)` gives it per job.
- `completion` is the order in which the pool's workers finish. It may be any permutation of
  the jobs.
- Each call's sleeps and requests come back as a trace of `Sleep(seconds)` and
  `HttpGet(url)` events.

## Model

| member | source | states |
|---|---|---|
| DataProcessor.SafeFloat | data_processor.py:34-43 | `None`, JSON null and a null-sentinel (the stripped text upper-cased is NULL, NE, N/A, - or empty) give the default; any other value gives `float()` of its text, and a text `float()` rejects gives the default |
| DataProcessor.SafeInt | data_processor.py:23-32 | a value exactly when `safe_float` would give a finite number; that value is the number truncated toward zero; infinities and NaN fall back to the default |
| DataProcessor.SafeFloatOfText | data_processor.py:38-41 | a text or number that is no sentinel is read exactly as `float()` reads it |
| DataProcessor.SafeIntOfText | data_processor.py:30 | a non-sentinel text that `float()` reads as the integer n gives n |
| DataProcessor.SafeIntOfNatText | data_processor.py:30 | truncation goes through `float`: "57", "57.0" and the JSON number 57 all give 57 |
| DataProcessor.SafeIntOfWhole | data_processor.py:30 | `int()` of a float holding an integer is that integer |
| DataProcessor.LatestReadingNone | data_processor.py:47-60 | a history with no readable entry, the empty one included, gives NaN |
| DataProcessor.LatestReadingIsLast | data_processor.py:50-59 | otherwise the scan returns the reading of the last readable entry |
| DataProcessor.LatestReadingBeforeUnreadable | data_processor.py:50-59 | a readable entry followed only by None, sentinels or unparseable text is the one returned |
| DataProcessor.NullNotReadable | data_processor.py:51-52 | a JSON null entry is skipped |
| DataProcessor.LatestNumericSgpa | data_processor.py:45-60 | the reverse loop with early return computes the latest readable reading |
| DataProcessor.SampleHistoryReading | test_cgpa_null.py:37 | the fixture history (two NULLs, 7.67, then Nones) reads 7.67 |
| DataProcessor.RowOfShaped | data_processor.py:63-74 | a record whose subject lists are missing, falsy or lists of dicts, and whose `sgpa` is missing, falsy or a list, always makes a row |
| DataProcessor.CgpaNullFixture | test_cgpa_null.py:37-53 | a record shaped like the fixture (subject lists of dicts, that history, `cgpa` "NULL") makes a row, and it gets 7.67 as both Current SGPA and CGPA |
| DataProcessor.AddSubjectColumns | data_processor.py:97-107 | one `enumerate` loop adds the four columns of every subject to the row; a subject that is not a dict makes it fail |
| DataProcessor.BuildRow | data_processor.py:63-109 | the row construction for one record computes the row of the record specification, or none when it raises |
| DataProcessor.ColumnKeyInjective | data_processor.py:98-101 | within a group, a subject column name determines its index and its field |
| DataProcessor.ColumnKeyGroups | data_processor.py:98-107 | theory and practical columns never share a name |
| DataProcessor.ColumnKeyNotBase | data_processor.py:77-101 | no subject column is one of the sixteen base columns |
| DataProcessor.EntryCellsAt | data_processor.py:98-101 | the four columns of one subject each hold their own field |
| DataProcessor.EntryColumnsAt | data_processor.py:97-101 | column `Theory_i_<field>` exists exactly for i = 1..n and holds that field of subject i |
| DataProcessor.EntryColumnsKeys | data_processor.py:97-107 | every column a subject loop adds is a subject column of its group |
| DataProcessor.EntryColumnsNotBase | data_processor.py:97-107 | the subject loops never overwrite a base column |
| DataProcessor.EntryColumnsOtherGroup | data_processor.py:97-107 | each subject loop leaves the other group's columns alone |
| DataProcessor.RowOfBase | data_processor.py:77-94 | a base column of a produced row holds what the row dict literal put there |
| DataProcessor.RowCurrentSgpa | data_processor.py:69-70 | Current SGPA is the latest readable entry of `sgpa` (a missing or falsy list reads NaN) |
| DataProcessor.RowCgpa | data_processor.py:73-75 | CGPA is the parsed `cgpa` when that is a number other than NaN; when it is missing, null, a sentinel, unparseable or NaN it equals Current SGPA |
| DataProcessor.RowStatus | data_processor.py:90 | Status is `fail_any` when present and "PASS" when absent |
| DataProcessor.RowCounts | data_processor.py:91-93 | Theory Subjects and Practical Subjects are the list lengths, and Total Subjects is their sum |
| DataProcessor.RowTheory | data_processor.py:97-101 | theory columns exist exactly for i = 1..len and hold the i-th subject's fields, in source order |
| DataProcessor.RowPractical | data_processor.py:103-107 | the same for the practical subjects |
| DataProcessor.RowHasBaseColumns | data_processor.py:77-94 | every produced row has all sixteen base columns |
| DataProcessor.ProcessAllIsFilterMap | data_processor.py:62-113 | the call raises exactly when some record is not a dict (the handler's own `get` then raises); otherwise the rows are those of the records that normalise, in input order |
| DataProcessor.ProcessAllLength | data_processor.py:62-113 | at most one row per record, and exactly one each when none is skipped |
| DataProcessor.ProcessAllRows | data_processor.py:62-113 | every row comes from a record, and every record that normalises contributes its row |
| DataProcessor.ProcessAllSkips | data_processor.py:109-113 | a dict record whose processing raises is skipped without changing the other rows |
| DataProcessor.ProcessStudentResults | data_processor.py:62-113 | the loop appending one row per record computes the batch specification |
| DataProcessor.GradeCategory | data_processor.py:212-225 | the bracket is the highest one the SGPA reaches; NaN reaches only "Below Average" |
| DataProcessor.LabelsDistinct | data_processor.py:214-225 | the six bracket labels are distinct |
| DataProcessor.GradeCategoryMonotone | data_processor.py:212-225 | a higher SGPA never gets a lower bracket |
| DataProcessor.ColumnsOfMembers | data_processor.py:115 | a column of the frame is exactly a key of some row |
| DataProcessor.ApplyTestsSpec | data_processor.py:192-209 | a chain of masks raises exactly when a mask names a missing column, and otherwise keeps the rows passing every mask |
| DataProcessor.FilterStep | data_processor.py:194-207 | one more mask on the rows passing the earlier ones keeps the rows passing all of them |
| DataProcessor.TestsMatch | data_processor.py:194-207 | passing the masks of the arguments is meeting every criterion given; omitted criteria constrain nothing |
| DataProcessor.TestsColumns | data_processor.py:194-207 | the masks name a missing column exactly when a given criterion's column is missing |
| DataProcessor.FilterDataframeSpec | data_processor.py:170-209 | `filter_dataframe` raises KeyError exactly when a given criterion's column is missing; otherwise it keeps, in order, exactly the rows meeting every given criterion, with the same columns |
| DataProcessor.FilterDataframeKeeps | data_processor.py:192-209 | the result is a sub-multiset of the input, and a row is in it exactly when it is in the input and meets the criteria |
| DataProcessor.FilterDataframeNoCriteria | data_processor.py:192-209 | with no criterion given the frame comes back unchanged |
| DataProcessor.ProcessedFrameFilters | data_processor.py:192-209 | the frame of a non-empty processed batch never makes the filter raise |
| Text.Pad3Digits | api_scraper.py:110 | `{reg:03d}` of a sequence number 0..999 is three digits whose value is the number |
| Text.Pad3Injective | api_scraper.py:110 | distinct non-negative sequence numbers give distinct padded fields |
| Text.IntStrInjective | api_scraper.py:110 | `str()` of distinct integers differ |
| Text.StripSpec | data_processor.py:38 | `strip()` leaves a slice with no whitespace at either end, and leaves a text that has none unchanged |
| Text.StripIdempotent | data_processor.py:38 | stripping twice is stripping once |
| Numbers.ParseIntStr | api_scraper.py:109 | `int()` reads back `str()` of any integer |
| ApiScraper.GenerateRegistrationNumbers | api_scraper.py:105-118 | the two generating loops compute the registration-number list |
| ApiScraper.AppendBlock | api_scraper.py:109-118 | one generating loop appends the numbers of `count` consecutive sequence numbers, in order, after those already in the list |
| ApiScraper.RegistrationNumbersAt | api_scraper.py:109-118 | the list holds end - start + 1 regular numbers (none when end < start); position i is `batch ++ branch ++ college ++ pad3(start + i)`; with lateral entry, 30 more for 901..930 under batch + 1 |
| ApiScraper.BlockAt | api_scraper.py:109-111 | position i of a block is the number for sequence number first + i |
| ApiScraper.RegistrationNumberInjective | api_scraper.py:110 | two numbers with sequence numbers in 0..999 and batches of equal width are equal only for equal batch and sequence number |
| ApiScraper.RegistrationNumbersDistinct | api_scraper.py:105-118 | within 0..999 and a batch whose successor is as wide, no number is generated twice, the lateral block included |
| ApiScraper.RegularNumbersAscend | api_scraper.py:109-111 | every regular number has width batch + branch + college + 3, and its last three digits spell start + i; each regular number is smaller, as a Python string, than every later one |
| ApiScraper.ClassifySpec | api_scraper.py:50-69 | only a transport failure or a 4xx/5xx is retried; a non-dict body raises; status 200 with truthy data returns the data; any other dict, or an undecodable body, returns None at once |
| ApiScraper.FetchSingleResult | api_scraper.py:38-69 | the call on the query URL returns what the retry specification gives, with its trace |
| ApiScraper.Attempts | api_scraper.py:45-69 | the `for attempt in range(retries)` loop with its early returns computes the retry specification and its trace |
| ApiScraper.FetchStopsAt | api_scraper.py:45-69 | after transport failures on attempts before n, an answer at n ends the call with its verdict; the trace is (0.5, request, 2^k) per failure, then 0.5 and a request |
| ApiScraper.FetchGivesUp | api_scraper.py:61-66 | when every attempt fails the call returns None after `retries` requests, with no sleep after the last |
| ApiScraper.FailuresRequests | api_scraper.py:45-66 | the failed attempts k = from..to-1 make to - from requests |
| ApiScraper.FetchRequests | api_scraper.py:45 | a call makes at most `retries` requests, and at least one when `retries` is positive |
| ApiScraper.FetchPauses | api_scraper.py:47-50 | every request comes straight after the 0.5-second pause |
| ApiScraper.Kept | api_scraper.py:135-136 | a worker's result is appended exactly when it returned a truthy value |
| ApiScraper.OrderMembers | api_scraper.py:133 | a completion order lists every job exactly once |
| ApiScraper.RunWorkers | api_scraper.py:121-131 | every submitted request yields the outcome of its own `fetch_single_result` call, independently of the others |
| ApiScraper.WaitAll | api_scraper.py:133-136 | waiting on the futures in a completion order re-raises the first exception met and otherwise appends the truthy results in that order |
| ApiScraper.Collect | api_scraper.py:121-136 | submitting every request and waiting in completion order computes the gathering specification |
| ApiScraper.GatherRaisesLater | api_scraper.py:133-134 | once a worker's exception is re-raised, the remaining workers do not matter |
| ApiScraper.GatherIsFilterMap | api_scraper.py:133-136 | gathering raises exactly when a waited-for worker raised, and otherwise keeps the truthy results in completion order |
| ApiScraper.GatherSpec | api_scraper.py:121-138 | in any completion order the batch raises exactly when some worker raised; otherwise it is, as a multiset, the truthy results in submission order, at most one per request |
| ApiScraper.AllRequestsYear | api_scraper.py:121-131 | one request per generated number, in order, all with `year=batch` and the given semester, the lateral ones included |
| ApiScraper.FetchAllResults | api_scraper.py:72-138 | raises when a bound is not an integer or a worker raises; otherwise returns, as a multiset, exactly the truthy results of the generated requests |
| ApiScraper.Roman | api_scraper.py:174-177 | a semester has a numeral exactly when it is 1..8 |
| ApiScraper.SubmitSemester | api_scraper.py:182-209 | the two submission loops compute the semester request list |
| ApiScraper.SubmitBlock | api_scraper.py:186-209 | one submission loop adds a request for each of its numbers, in order; the `sem_romans[semester]` lookup raises KeyError at the first submission when the semester is outside 1..8, and a loop with nothing to submit never makes it |
| ApiScraper.SemesterRequestsSpec | api_scraper.py:174-209 | KeyError exactly when there is something to submit and the semester is outside 1..8; otherwise one request per generated number, in order, with the semester's numeral, `year=batch` for regular and `year=batch + 1` for lateral numbers |
| ApiScraper.FetchSemesterResults | api_scraper.py:141-216 | raises exactly on that KeyError or a worker's exception; otherwise returns, as a multiset, exactly the truthy results |
| Scraper.AddGrades | scraper.py:39-40 | the zip loop assigns `Sem <header>` to each paired value, in order, as dict assignment does |
| Scraper.ReadPage | scraper.py:20-41 | reading an arrived page computes the parse verdict |
| Scraper.ParseSpec | scraper.py:23-38 | a page without the name label gives None and is not retried; a missing other label is retried (AttributeError); a grade table with fewer than two rows raises (IndexError); otherwise a result |
| Scraper.ParsedBaseKeys | scraper.py:28-34 | every result has the five base keys; each holds the stripped text of its label, the Current SGPA that of the gross-theory-total label; grade columns never overwrite them |
| Scraper.ParsedWithoutTable | scraper.py:35-36 | without a grade table a result has exactly the five base keys and no `Sem` key |
| Scraper.ParsedGrades | scraper.py:37-40 | with a table, the stripped i-th header of the first row becomes the key `Sem <header>`, holding the stripped i-th cell of the second row at its last occurrence; pairing stops at the shorter list |
| Scraper.ParsedGradeCount | scraper.py:37-40 | with distinct headers the table adds exactly min(len(headers), len(values)) keys |
| Scraper.GradesLastWins | scraper.py:39-40 | after the zip loop a header's key holds the value paired with its last occurrence |
| Scraper.GradesKeepOthers | scraper.py:39-40 | the zip loop changes no key other than the `Sem` keys it assigns |
| Scraper.GradesAdded | scraper.py:39-40 | distinct new headers add exactly min(len(headers), len(values)) entries |
| Scraper.ParsedNonEmpty | scraper.py:28-41 | a parsed result is never an empty dict |
| Scraper.FetchAndParseResult | scraper.py:7-49 | one 1-second pause before the loop, then the retry loop on `base_url + str(registration_no)`; the result is the loop's |
| Scraper.Attempts | scraper.py:14-49 | the retry loop with its early returns computes the retry specification and its trace |
| Scraper.FetchStopsAt | scraper.py:14-49 | after retried attempts before n, a non-retried attempt n ends the call with its verdict; the trace is (request, backoff·2^k) per retry, then one request; no per-attempt pause |
| Scraper.FetchGivesUp | scraper.py:43-49 | when every attempt is retried the call returns None after `retries` requests, without a backoff after the last |
| Scraper.FailuresRequests | scraper.py:14-46 | the retried attempts k = from..to-1 make to - from requests |
| Scraper.FailuresSlept | scraper.py:45-46 | their backoffs total backoff_factor·(2^to - 2^from) seconds |
| Scraper.FetchRequests | scraper.py:14 | at most `retries` requests, and at least one when `retries` is positive |
| Scraper.FetchRequestsFollowBackoffs | scraper.py:14-46 | the loop's trace alternates requests and backoffs: even positions are requests to the URL, position 2k+1 is the backoff `backoff_factor * 2^(from+k)` of attempt from + k, and a non-empty trace ends with a request; so each later request directly follows the backoff of the attempt before it, and the loop makes no pause of its own |
| Scraper.RegRangeOnce | scraper.py:70-71 | the jobs are exactly start_reg..end_reg, each once, ascending |
| Scraper.FetchAllResults | scraper.py:51-77 | waiting for the futures in submission order computes the collection specification |
| Scraper.CollectRaisesLater | scraper.py:73-74 | once a job's exception is re-raised, later jobs do not matter |
| Scraper.CollectSpec | scraper.py:73-76 | the batch raises exactly when some job raises; otherwise it is the kept results in submission order |
| Scraper.FetchedNonEmpty | scraper.py:14-49 | any result a call returns is a dict with at least the five base keys |
| Scraper.OutcomesKept | scraper.py:75-76 | `if result:` drops only None: every record a job finds is collected |
| Scraper.LatestGradeAt | scraper.py:87-93 | scanning the `Sem` columns from the last, the first that `float()` accepts gives the grade; a missing cell is NaN, which it accepts |
| Scraper.LatestGradeNone | scraper.py:87-94 | when no column converts the grade is -1 |
| Scraper.LatestGradeFrom | scraper.py:87-94 | a grade other than -1 is the converted value of one of the scanned columns |
| Scraper.GetLatestGradeIgnoresOthers | scraper.py:85 | only columns starting with `Sem ` are scanned; other columns never affect the grade |
| Seqs.PutAllLast | scraper.py:40 | after successive dict assignments a key holds the last value assigned to it |
| Seqs.PutAllOther | scraper.py:40 | a key no assignment names keeps its value |

## Left out

- The HTTP requests, the `requests` session and its headers, and timeouts are left out. Each attempt's outcome is an input instead: transport failure, undecodable body or decoded body for the API client; transport failure or parsed page for the scraper.
- `raise_for_status` is folded into the transport failure, because a 4xx/5xx status is a `RequestException`.
- BeautifulSoup is left out. A page is the text of each element by id, plus the `th`/`td` texts of the grade table's rows.
- JSON decoding is left out. A body is a decoded value, or undecodable.
- An undecodable API body is not retried: the model gives `None` at once, as the separate `json.JSONDecodeError` clause does. That holds for the requests releases before 2.27, where `response.json()` raises a plain `json.JSONDecodeError` (a `ValueError`). From 2.27 on it raises `requests.exceptions.JSONDecodeError`, which is also a `RequestException`, so the first clause catches it: an undecodable body is then retried with the `2 ** attempt` backoff like a transport failure, and a later attempt can still return data. The model does not cover that library version.
- `time.sleep` is not performed. Each sleep is recorded in the trace.
- `print` calls are left out.
- The thread pools are modelled as follows:
  - Each job runs on its own outcome function.
  - The pool's collection is sequential, in submission order for `scraper.py` and in a given completion order for `api_scraper.py`.
  - The interleaving of the jobs' traces and the shared session are not modelled.
  - `max_workers` has no effect in the model.
- Python floats are exact reals with infinities and NaN. There is no double rounding, overflow, signed zero or `%.2f` formatting.
- `float()` and `int()` accept ASCII digits only. Other Unicode decimal digits are left out.
- `upper()` is ASCII-only. That is exact for the sentinel test.
- `pd.to_numeric` after building the frame is left out. It leaves the model's Current SGPA and CGPA cells as they are.
- DataFrame dtypes and the index are left out. A frame is its set of columns and its list of rows.
- `sort_dataframe`, `sort_by_current_cgpa` and the final sort of `sort_by_latest_semester_grade` are left out, because they are library sorts. Only `get_latest_grade` is modelled.
- `get_sorting_options`, `add_grade_category`, `get_subject_performance` and `get_statistics_summary` are left out. They are statistics and display helpers outside the core.
- `app.py` (the Streamlit interface and its code tables) is not part of this model.
- `enhanced_analytics.py` (charts) is not part of this model.
- `str()` of a list or dict value is kept symbolic. It is never a sentinel and never parses.
- `get_latest_grade` is modelled on a row of text cells. A missing cell is NaN. A non-text cell such as None, whose `float()` raises TypeError, is not modelled.
- Scraper.ParsedGradeCount: the count is stated for distinct headers only. A repeated header collapses into one key, which GradesLastWins states.
- ApiScraper.RegistrationNumbersDistinct: distinctness is stated for sequence numbers 0..999 and for a batch whose successor has the same number of digits. Outside that range `{reg:03d}` widens, and numbers for different batches can collide.
- DataProcessor.FilterDataframeSpec: the SGPA bounds are finite numbers, and the "exactly when" is stated for frames whose Current SGPA cells are numbers, as every frame `process_student_results` builds is. An infinite or NaN bound (with NaN pandas keeps no row), a text cell (pandas raises TypeError) and a bool cell (pandas compares it as 0 or 1) are not modelled.
- A JSON object with a repeated key is not excluded by the type. `json.loads` keeps the last value, so a decoded object never holds two; on such a value `Get` finds the first.
- ApiScraper.GatherSpec: the results in completion order are stated as a multiset, not a sequence, because the source does not fix the order.
