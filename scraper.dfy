/**
 * The HTML page scraper: fetch one student's result page with retries and exponential
 * backoff, read its labelled fields and its grade table into a dict, fetch a range of
 * registration numbers one job per number, and pick the latest semester grade of a row.
 *
 * The HTTP session and BeautifulSoup are replaced by what they deliver: for each attempt
 * either a transport failure or a parsed page, given as the text of each element by id
 * and the rows of the grade table.
 */
module Scraper {
  import opened Optional
  import opened Text
  import opened Numbers
  import opened Seqs
  import opened Trace

  // ---------------------------------------------------------------------------
  // The result page
  // ---------------------------------------------------------------------------

  const StudentNameId := "ContentPlaceHolder1_DataList1_StudentNameLabel_0"
  const RegistrationNoId := "ContentPlaceHolder1_DataList1_RegistrationNoLabel_0"
  const FatherNameId := "ContentPlaceHolder1_DataList1_FatherNameLabel_0"
  const MotherNameId := "ContentPlaceHolder1_DataList1_MotherNameLabel_0"
  const GrossTotalId := "ContentPlaceHolder1_DataList5_GROSSTHEORYTOTALLabel_0"

  /** The keys of a parsed result, in dict order, and the labels they are read from. */
  const BaseKeys: seq<string> := ["Registration No.", "Student Name", "Father's Name", "Mother's Name", "Current SGPA"]
  const BaseIds: seq<string> := [RegistrationNoId, StudentNameId, FatherNameId, MotherNameId, GrossTotalId]

  /** One `tr` of the grade table `#ContentPlaceHolder1_GridView3`: the texts of its `th` and of its `td` cells. */
  datatype TableRow = TableRow(headerCells: seq<string>, dataCells: seq<string>)

  /** A page as BeautifulSoup sees it: the text of the element with each id, and the grade table's rows if it has one. */
  datatype Page = Page(labels: map<string, string>, gradeTable: Option<seq<TableRow>>)

  datatype Response =
    | Unreachable        // a connection error, a timeout or a 4xx/5xx status: a RequestException
    | Served(page: Page)

  /** A result dict, in insertion order. */
  type Record = seq<(string, string)>

  /** Whether the loop tries again, or stops with a result (or an escaping exception). */
  datatype Verdict = Retry | Stop(result: Result<Option<Record>>)

  function Min(a: int, b: int): int
  {
    if a <= b then a else b
  }

  /** Every label the result dict reads is on the page. */
  predicate HasFields(labels: map<string, string>)
  {
    forall i :: 0 <= i < |BaseIds| ==> BaseIds[i] in labels
  }

  /** The dict literal: each base key holds the stripped text of its label. */
  function BaseRecord(labels: map<string, string>): (r: Record)
    requires HasFields(labels)
    ensures |r| == |BaseKeys|
  {
    seq(|BaseKeys|, i requires 0 <= i < |BaseKeys| => (BaseKeys[i], Strip(labels[BaseIds[i]])))
  }

  function StripAll(cells: seq<string>): (r: seq<string>)
    ensures |r| == |cells| && forall i :: 0 <= i < |cells| ==> r[i] == Strip(cells[i])
  {
    seq(|cells|, i requires 0 <= i < |cells| => Strip(cells[i]))
  }

  /** The key a grade column gets: `f"Sem {header}"`. */
  function SemKey(header: string): string
  {
    "Sem " + header
  }

  predicate IsSemColumn(c: string)
  {
    |c| >= 4 && c[..4] == "Sem "
  }

  /** `zip(headers, values)`, each header turned into its key: it stops at the shorter list. */
  function GradePairs(headers: seq<string>, values: seq<string>): (ps: Record)
    ensures |ps| == Min(|headers|, |values|)
    ensures forall i :: 0 <= i < |ps| ==> ps[i] == (SemKey(headers[i]), values[i])
  {
    seq(Min(|headers|, |values|), i requires 0 <= i < Min(|headers|, |values|) => (SemKey(headers[i]), values[i]))
  }

  /**
   * The body of the loop once a page has arrived. Without the name label the page is not a
   * result and the call returns `None`; a missing other label raises AttributeError, which
   * is tried again; a grade table with fewer than two rows raises IndexError, which
   * escapes; otherwise the dict, with the grade columns when there is a table.
   */
  function Parse(page: Page): Verdict
  {
    if StudentNameId !in page.labels then Stop(Ok(None))
    else if !HasFields(page.labels) then Retry
    else
      match page.gradeTable
      case None => Stop(Ok(Some(BaseRecord(page.labels))))
      case Some(rows) =>
        if |rows| < 2 then Stop(Raises)
        else Stop(Ok(Some(PutAll(BaseRecord(page.labels), GradePairs(StripAll(rows[0].headerCells), StripAll(rows[1].dataCells))))))
  }

  function Judge(r: Response): Verdict
  {
    match r
    case Unreachable => Retry
    case Served(page) => Parse(page)
  }

  /** The `for header, value in zip(headers, values)` loop: `result[f"Sem {header}"] = value`. */
  method AddGrades(record: Record, headers: seq<string>, values: seq<string>) returns (r: Record)
    ensures r == PutAll(record, GradePairs(headers, values))
  {
    ghost var ps := GradePairs(headers, values);
    var n := Min(|headers|, |values|);
    r := record;
    for i := 0 to n
      invariant r == PutAll(record, ps[..i])
    {
      assert ps[..i + 1][..i] == ps[..i];
      r := Put(r, SemKey(headers[i]), values[i]);
    }
    assert ps[..n] == ps;
  }

  /** The parsing part of the loop body, on a page that arrived. */
  method ReadPage(page: Page) returns (verdict: Verdict)
    ensures verdict == Parse(page)
  {
    var labels := page.labels;
    if StudentNameId !in labels {
      return Stop(Ok(None));
    }
    if !HasFields(labels) {
      return Retry;
    }
    var result := BaseRecord(labels);
    if page.gradeTable.Some? {
      var rows := page.gradeTable.value;
      if |rows| < 2 {
        return Stop(Raises);
      }
      result := AddGrades(result, StripAll(rows[0].headerCells), StripAll(rows[1].dataCells));
    }
    return Stop(Ok(Some(result)));
  }

  /**
   * The name label alone decides whether a page is a result; the other labels missing is
   * the one parse fault that is tried again; a short grade table escapes.
   */
  lemma ParseSpec(page: Page)
    ensures Parse(page) == Stop(Ok(None)) <==> StudentNameId !in page.labels
    ensures Parse(page).Retry? <==> StudentNameId in page.labels && !HasFields(page.labels)
    ensures Parse(page) == Stop(Raises) <==>
      (HasFields(page.labels) && page.gradeTable.Some? && |page.gradeTable.value| < 2)
    ensures (Parse(page).Stop? && Parse(page).result.Ok? && Parse(page).result.value.Some?) <==>
      (HasFields(page.labels) && (page.gradeTable.Some? ==> |page.gradeTable.value| >= 2))
  {
    if HasFields(page.labels) {
      assert BaseIds[1] == StudentNameId;
    }
  }

  lemma BaseKeysDistinct()
    ensures forall i, j :: 0 <= i < j < |BaseKeys| ==> BaseKeys[i] != BaseKeys[j]
  {
    assert forall i :: 0 <= i < |BaseKeys| - 1 ==> BaseKeys[i][0] != BaseKeys[i + 1][0];
    assert BaseKeys[0][0] != BaseKeys[2][0] && BaseKeys[0][0] != BaseKeys[3][0] && BaseKeys[0][0] != BaseKeys[4][0];
    assert BaseKeys[1][0] != BaseKeys[3][0] && BaseKeys[1][0] != BaseKeys[4][0] && BaseKeys[2][0] != BaseKeys[4][0];
  }

  lemma BaseKeysNotSem()
    ensures forall i :: 0 <= i < |BaseKeys| ==> !IsSemColumn(BaseKeys[i])
  {
    forall i | 0 <= i < |BaseKeys| ensures !IsSemColumn(BaseKeys[i]) {
      assert BaseKeys[i][..4] != "Sem " by {
        assert BaseKeys[i][..4][1] == BaseKeys[i][1] != 'e' || BaseKeys[i][..4][0] == BaseKeys[i][0] != 'S';
      }
    }
  }

  lemma SemKeyIsSem(header: string)
    ensures IsSemColumn(SemKey(header))
    ensures SemKey(header)[4..] == header
  {
    assert SemKey(header)[..4] == "Sem ";
  }

  /** The grade loop assigns no key other than the `Sem` keys of the paired headers. */
  lemma {:induction false} GradesKeepOthers(d: Record, headers: seq<string>, values: seq<string>, k: string)
    requires forall i :: 0 <= i < Min(|headers|, |values|) ==> k != SemKey(headers[i])
    ensures Lookup(PutAll(d, GradePairs(headers, values)), k) == Lookup(d, k)
  {
    PutAllOther(d, GradePairs(headers, values), k);
  }

  /**
   * After the grade loop, the key of a paired header holds the value paired with its last
   * occurrence: a repeated header keeps only the last value.
   */
  lemma {:induction false} GradesLastWins(d: Record, headers: seq<string>, values: seq<string>, i: nat)
    requires i < Min(|headers|, |values|)
    requires forall j :: i < j < Min(|headers|, |values|) ==> headers[j] != headers[i]
    ensures Lookup(PutAll(d, GradePairs(headers, values)), SemKey(headers[i])) == Some(values[i])
  {
    var ps := GradePairs(headers, values);
    forall j | i < j < |ps| ensures ps[j].0 != ps[i].0 {
      SemKeyIsSem(headers[i]);
      SemKeyIsSem(headers[j]);
    }
    PutAllLast(d, ps, i);
  }

  /** Distinct headers whose keys are new add exactly `min(len(headers), len(values))` entries. */
  lemma {:induction false} GradesAdded(d: Record, headers: seq<string>, values: seq<string>)
    requires forall i, j :: 0 <= i < j < |headers| ==> headers[i] != headers[j]
    requires forall i :: 0 <= i < |headers| ==> Lookup(d, SemKey(headers[i])).None?
    ensures |PutAll(d, GradePairs(headers, values))| == |d| + Min(|headers|, |values|)
  {
    var ps := GradePairs(headers, values);
    forall i, j | 0 <= i < j < |ps| ensures ps[i].0 != ps[j].0 {
      SemKeyIsSem(headers[i]);
      SemKeyIsSem(headers[j]);
    }
    PutAllLength(d, ps);
  }

  /** No base key is a `Sem` key, so a base record has none. */
  lemma BaseRecordNoSem(labels: map<string, string>, k: string)
    requires HasFields(labels)
    requires IsSemColumn(k)
    ensures Lookup(BaseRecord(labels), k) == None
  {
    BaseKeysNotSem();
    LookupNone(BaseRecord(labels), k);
  }

  /**
   * A parsed result always has the five base keys, the key `BaseKeys[i]` holding the
   * stripped text of the label `BaseIds[i]`; the grade columns never overwrite them.
   */
  lemma ParsedBaseKeys(page: Page, i: nat)
    requires Parse(page).Stop? && Parse(page).result.Ok? && Parse(page).result.value.Some?
    requires i < |BaseKeys|
    ensures BaseIds[i] in page.labels
    ensures Lookup(Parse(page).result.value.value, BaseKeys[i]) == Some(Strip(page.labels[BaseIds[i]]))
  {
    var base := BaseRecord(page.labels);
    BaseKeysDistinct();
    LookupAt(base, i);
    if page.gradeTable.Some? {
      var rows := page.gradeTable.value;
      var headers, values := StripAll(rows[0].headerCells), StripAll(rows[1].dataCells);
      BaseKeysNotSem();
      forall j | 0 <= j < Min(|headers|, |values|) ensures BaseKeys[i] != SemKey(headers[j]) {
        SemKeyIsSem(headers[j]);
      }
      GradesKeepOthers(base, headers, values, BaseKeys[i]);
    }
  }

  /** Without a grade table, a parsed result is the base record alone: no `Sem` key. */
  lemma ParsedWithoutTable(page: Page, k: string)
    requires page.gradeTable.None?
    requires Parse(page).Stop? && Parse(page).result.Ok? && Parse(page).result.value.Some?
    requires IsSemColumn(k)
    ensures |Parse(page).result.value.value| == |BaseKeys|
    ensures Lookup(Parse(page).result.value.value, k) == None
  {
    BaseRecordNoSem(page.labels, k);
  }

  /**
   * With a grade table, each stripped header of the first row, paired positionally with a
   * stripped cell of the second, is a `Sem` key holding the cell paired with its last
   * occurrence; with distinct headers that is exactly `min(len(headers), len(values))`
   * more keys.
   */
  lemma ParsedGrades(page: Page, i: nat)
    requires page.gradeTable.Some? && |page.gradeTable.value| >= 2
    requires Parse(page).Stop? && Parse(page).result.Ok? && Parse(page).result.value.Some?
    requires i < Min(|page.gradeTable.value[0].headerCells|, |page.gradeTable.value[1].dataCells|)
    requires forall j :: i < j < Min(|page.gradeTable.value[0].headerCells|, |page.gradeTable.value[1].dataCells|) ==>
      Strip(page.gradeTable.value[0].headerCells[j]) != Strip(page.gradeTable.value[0].headerCells[i])
    ensures Lookup(Parse(page).result.value.value, SemKey(Strip(page.gradeTable.value[0].headerCells[i]))) ==
      Some(Strip(page.gradeTable.value[1].dataCells[i]))
  {
    var rows := page.gradeTable.value;
    GradesLastWins(BaseRecord(page.labels), StripAll(rows[0].headerCells), StripAll(rows[1].dataCells), i);
  }

  lemma ParsedGradeCount(page: Page)
    requires page.gradeTable.Some? && |page.gradeTable.value| >= 2
    requires Parse(page).Stop? && Parse(page).result.Ok? && Parse(page).result.value.Some?
    requires forall i, j :: 0 <= i < j < |page.gradeTable.value[0].headerCells| ==>
      Strip(page.gradeTable.value[0].headerCells[i]) != Strip(page.gradeTable.value[0].headerCells[j])
    ensures |Parse(page).result.value.value| ==
      |BaseKeys| + Min(|page.gradeTable.value[0].headerCells|, |page.gradeTable.value[1].dataCells|)
  {
    var rows := page.gradeTable.value;
    var headers := StripAll(rows[0].headerCells);
    forall i | 0 <= i < |headers| ensures Lookup(BaseRecord(page.labels), SemKey(headers[i])).None? {
      SemKeyIsSem(headers[i]);
      BaseRecordNoSem(page.labels, SemKey(headers[i]));
    }
    GradesAdded(BaseRecord(page.labels), headers, StripAll(rows[1].dataCells));
  }

  /** A parsed result is never an empty dict. */
  lemma ParsedNonEmpty(page: Page)
    requires Parse(page).Stop? && Parse(page).result.Ok? && Parse(page).result.value.Some?
    ensures |Parse(page).result.value.value| >= |BaseKeys|
  {
  }

  // ---------------------------------------------------------------------------
  // One registration number, with retries
  // ---------------------------------------------------------------------------

  const PoliteDelay: real := 1.0
  const DefaultRetries := 5
  const DefaultBackoff: real := 1.0

  /** `f"{base_url}{registration_no}"`. */
  function Url(baseUrl: string, registrationNo: int): string
  {
    baseUrl + IntStr(registrationNo)
  }

  /** The pause after failed attempt `attempt`: `backoff_factor * (2 ** attempt)` seconds. */
  function Backoff(backoff: real, attempt: nat): real
  {
    backoff * Pow2(attempt) as real
  }

  /** What a call returns, and what it did on the way. */
  datatype Fetched = Fetched(result: Result<Option<Record>>, trace: seq<Event>)

  /**
   * The `for attempt in range(retries)` loop from attempt `attempt` on: a request, then
   * either the verdict or, on a retried fault, the backoff `backoff * 2^attempt` seconds
   * before every attempt but the last.
   */
  function FetchFrom(url: string, retries: int, backoff: real, responses: nat -> Response, attempt: nat): Fetched
    decreases retries - attempt
  {
    if attempt >= retries then Fetched(Ok(None), [])
    else
      match Judge(responses(attempt))
      case Stop(r) => Fetched(r, [HttpGet(url)])
      case Retry =>
        if attempt < retries - 1 then
          var rest := FetchFrom(url, retries, backoff, responses, attempt + 1);
          Fetched(rest.result, [HttpGet(url), Sleep(Backoff(backoff, attempt))] + rest.trace)
        else
          Fetched(Ok(None), [HttpGet(url)])
  }

  /**
   * `fetch_and_parse_result(session, base_url, registration_no, retries, backoff_factor)`:
   * one polite pause, then the retry loop on the student's URL.
   */
  method FetchAndParseResult(baseUrl: string, registrationNo: int, retries: int, backoffFactor: real, responses: nat -> Response)
    returns (result: Result<Option<Record>>, trace: seq<Event>)
    ensures result == FetchFrom(Url(baseUrl, registrationNo), retries, backoffFactor, responses, 0).result
    ensures trace == [Sleep(PoliteDelay)] + FetchFrom(Url(baseUrl, registrationNo), retries, backoffFactor, responses, 0).trace
  {
    var url := Url(baseUrl, registrationNo);
    var attempts;
    result, attempts := Attempts(url, retries, backoffFactor, responses);
    trace := [Sleep(PoliteDelay)] + attempts;
  }

  /** The retry loop itself. */
  method Attempts(url: string, retries: int, backoff: real, responses: nat -> Response)
    returns (result: Result<Option<Record>>, trace: seq<Event>)
    ensures Fetched(result, trace) == FetchFrom(url, retries, backoff, responses, 0)
  {
    trace := [];
    var attempt: nat := 0;
    while attempt < retries
      invariant Resumes(url, retries, backoff, responses, attempt, trace)
      decreases retries - attempt
    {
      var before := trace;
      trace := trace + [HttpGet(url)];
      var response := responses(attempt);
      var verdict := Retry;
      if response.Served? {
        verdict := ReadPage(response.page);
      }
      assert verdict == Judge(responses(attempt));
      if verdict.Stop? {
        StopEnds(url, retries, backoff, responses, attempt, before, trace);
        return verdict.result, trace;
      }
      if attempt < retries - 1 {
        var backedOff := trace + [Sleep(Backoff(backoff, attempt))];
        RetryResumes(url, retries, backoff, responses, attempt, before, backedOff);
        trace := backedOff;
      } else {
        LastEnds(url, retries, backoff, responses, attempt, before, trace);
        return Ok(None), trace;
      }
      attempt := attempt + 1;
    }
    result := Ok(None);
  }

  /** The loop invariant: after the trace so far, the loop from `attempt` on completes the whole call. */
  predicate Resumes(url: string, retries: int, backoff: real, responses: nat -> Response, attempt: nat, trace: seq<Event>)
  {
    FetchFrom(url, retries, backoff, responses, 0) ==
      Fetched(FetchFrom(url, retries, backoff, responses, attempt).result,
              trace + FetchFrom(url, retries, backoff, responses, attempt).trace)
  }

  lemma StopEnds(url: string, retries: int, backoff: real, responses: nat -> Response, attempt: nat,
                 before: seq<Event>, trace: seq<Event>)
    requires attempt < retries && Judge(responses(attempt)).Stop?
    requires Resumes(url, retries, backoff, responses, attempt, before) && trace == before + [HttpGet(url)]
    ensures FetchFrom(url, retries, backoff, responses, 0) == Fetched(Judge(responses(attempt)).result, trace)
  {
  }

  lemma LastEnds(url: string, retries: int, backoff: real, responses: nat -> Response, attempt: nat,
                 before: seq<Event>, trace: seq<Event>)
    requires attempt == retries - 1 && Judge(responses(attempt)).Retry?
    requires Resumes(url, retries, backoff, responses, attempt, before) && trace == before + [HttpGet(url)]
    ensures FetchFrom(url, retries, backoff, responses, 0) == Fetched(Ok(None), trace)
  {
  }

  lemma RetryResumes(url: string, retries: int, backoff: real, responses: nat -> Response, attempt: nat,
                     before: seq<Event>, trace: seq<Event>)
    requires attempt < retries - 1 && Judge(responses(attempt)).Retry?
    requires Resumes(url, retries, backoff, responses, attempt, before)
    requires trace == before + [HttpGet(url)] + [Sleep(Backoff(backoff, attempt))]
    ensures Resumes(url, retries, backoff, responses, attempt + 1, trace)
  {
    var rest := FetchFrom(url, retries, backoff, responses, attempt + 1).trace;
    assert trace + rest == before + ([HttpGet(url), Sleep(Backoff(backoff, attempt))] + rest);
  }

  /** The failed attempts `from` .. `to - 1`: each is a request and the backoff `backoff * 2^k` seconds. */
  function Failures(url: string, backoff: real, from: nat, to: nat): seq<Event>
    decreases if from >= to then 0 else to - from
  {
    if from >= to then [] else [HttpGet(url), Sleep(Backoff(backoff, from))] + Failures(url, backoff, from + 1, to)
  }

  /**
   * When every attempt before `n` is retried and attempt `n` is not, the loop stops at `n`
   * with that attempt's verdict; the trace is the failed attempts with their backoffs, then
   * one more request. In particular a page without the name label ends the loop with `None`.
   */
  lemma {:induction false} FetchStopsAt(url: string, retries: int, backoff: real, responses: nat -> Response, from: nat, n: nat)
    requires from <= n < retries
    requires forall k :: from <= k < n ==> Judge(responses(k)).Retry?
    requires Judge(responses(n)).Stop?
    ensures FetchFrom(url, retries, backoff, responses, from) ==
      Fetched(Judge(responses(n)).result, Failures(url, backoff, from, n) + [HttpGet(url)])
    decreases n - from
  {
    if from < n {
      FetchStopsAt(url, retries, backoff, responses, from + 1, n);
    }
  }

  /**
   * When every attempt is retried the call gives up with `None` after `retries` requests,
   * without a backoff after the last one.
   */
  lemma {:induction false} FetchGivesUp(url: string, retries: int, backoff: real, responses: nat -> Response, from: nat)
    requires from < retries
    requires forall k :: from <= k < retries ==> Judge(responses(k)).Retry?
    ensures FetchFrom(url, retries, backoff, responses, from) ==
      Fetched(Ok(None), Failures(url, backoff, from, retries - 1) + [HttpGet(url)])
    decreases retries - from
  {
    if from < retries - 1 {
      FetchGivesUp(url, retries, backoff, responses, from + 1);
    }
  }

  /** The failed attempts `from` .. `to - 1` make `to - from` requests. */
  lemma {:induction false} FailuresRequests(url: string, backoff: real, from: nat, to: nat)
    requires from <= to
    ensures Requests(Failures(url, backoff, from, to)) == to - from
    decreases if from >= to then 0 else to - from
  {
    if from < to {
      FailuresRequests(url, backoff, from + 1, to);
      RequestsAppend([HttpGet(url), Sleep(Backoff(backoff, from))], Failures(url, backoff, from + 1, to));
      RequestThenSleep(url, Backoff(backoff, from));
    }
  }

  /** The backoffs of the failed attempts `from` .. `to - 1` add up to `backoff * (2^to - 2^from)` seconds. */
  lemma FailuresSlept(url: string, backoff: real, from: nat, to: nat)
    requires from <= to
    ensures Slept(Failures(url, backoff, from, to)) == backoff * (Pow2(to) as real - Pow2(from) as real)
  {
    FailuresSleepSum(url, backoff, from, to);
    BackoffSumClosed(backoff, from, to);
  }

  /** The backoffs `backoff * 2^i` for `i` in `from .. to - 1`, summed one by one. */
  function BackoffSum(backoff: real, from: nat, to: nat): real
    decreases if from >= to then 0 else to - from
  {
    if from >= to then 0.0 else Backoff(backoff, from) + BackoffSum(backoff, from + 1, to)
  }

  lemma {:induction false} FailuresSleepSum(url: string, backoff: real, from: nat, to: nat)
    ensures Slept(Failures(url, backoff, from, to)) == BackoffSum(backoff, from, to)
    decreases if from >= to then 0 else to - from
  {
    if from < to {
      var x := Backoff(backoff, from);
      var block, rest := [HttpGet(url), Sleep(x)], Failures(url, backoff, from + 1, to);
      assert Failures(url, backoff, from, to) == block + rest;
      FailuresSleepSum(url, backoff, from + 1, to);
      SleptAppend(block, rest);
      RequestThenSleep(url, x);
    }
  }

  lemma {:induction false} BackoffSumClosed(backoff: real, from: nat, to: nat)
    requires from <= to
    ensures BackoffSum(backoff, from, to) == backoff * (Pow2(to) as real - Pow2(from) as real)
    decreases if from >= to then 0 else to - from
  {
    if from < to {
      BackoffSumClosed(backoff, from + 1, to);
      assert BackoffSum(backoff, from, to) == Backoff(backoff, from) + BackoffSum(backoff, from + 1, to);
      assert Backoff(backoff, from) == backoff * Pow2(from) as real;
      assert Pow2(from + 1) == 2 * Pow2(from);
      Doubling(backoff, Pow2(from) as real, Pow2(from + 1) as real, Pow2(to) as real);
    }
  }

  /** One backoff then the later ones: `b * 2^from + b * (2^to - 2^(from+1)) == b * (2^to - 2^from)`. */
  lemma Doubling(b: real, m: real, n: real, k: real)
    requires n == 2.0 * m
    ensures b * m + b * (k - n) == b * (k - m)
  {
  }

  /** A call makes at most `retries` requests, and at least one when `retries` is positive. */
  lemma {:induction false} FetchRequests(url: string, retries: int, backoff: real, responses: nat -> Response, from: nat)
    ensures Requests(FetchFrom(url, retries, backoff, responses, from).trace) <= if retries > from then retries - from else 0
    ensures from < retries ==> Requests(FetchFrom(url, retries, backoff, responses, from).trace) >= 1
    decreases retries - from
  {
    RequestsSingle(HttpGet(url));
    if from < retries && Judge(responses(from)).Retry? && from < retries - 1 {
      var block := [HttpGet(url), Sleep(Backoff(backoff, from))];
      var rest := FetchFrom(url, retries, backoff, responses, from + 1);
      FetchRequests(url, retries, backoff, responses, from + 1);
      RequestsAppend(block, rest.trace);
      assert block[..1] == [HttpGet(url)];
    }
  }

  /**
   * The loop's trace alternates requests and backoffs, and makes no pause of its own: the
   * events at even positions are requests, and the one at odd position `i` is the backoff
   * after attempt `from + i / 2`, so each later request directly follows the backoff
   * `backoff * 2^k` of the attempt `k` before it.
   */
  predicate Alternates(t: seq<Event>, url: string, backoff: real, from: nat)
  {
    forall i :: 0 <= i < |t| ==> t[i] == if i % 2 == 0 then HttpGet(url) else Sleep(Backoff(backoff, from + i / 2))
  }

  lemma {:induction false} FetchRequestsFollowBackoffs(url: string, retries: int, backoff: real, responses: nat -> Response, from: nat)
    ensures Alternates(FetchFrom(url, retries, backoff, responses, from).trace, url, backoff, from)
    ensures FetchFrom(url, retries, backoff, responses, from).trace == [] ||
      |FetchFrom(url, retries, backoff, responses, from).trace| % 2 == 1
    decreases retries - from
  {
    var t := FetchFrom(url, retries, backoff, responses, from).trace;
    if from < retries && Judge(responses(from)).Retry? && from < retries - 1 {
      var rest := FetchFrom(url, retries, backoff, responses, from + 1).trace;
      FetchRequestsFollowBackoffs(url, retries, backoff, responses, from + 1);
      assert t == [HttpGet(url), Sleep(Backoff(backoff, from))] + rest;
      AlternatesCons(rest, url, backoff, from);
    } else if t != [] {
      assert t == [HttpGet(url)];
    }
  }

  /** A request and the backoff of attempt `from` before an alternating trace from `from + 1` alternate from `from`. */
  lemma AlternatesCons(rest: seq<Event>, url: string, backoff: real, from: nat)
    requires Alternates(rest, url, backoff, from + 1)
    ensures Alternates([HttpGet(url), Sleep(Backoff(backoff, from))] + rest, url, backoff, from)
  {
    var t := [HttpGet(url), Sleep(Backoff(backoff, from))] + rest;
    forall i | 0 <= i < |t|
      ensures t[i] == if i % 2 == 0 then HttpGet(url) else Sleep(Backoff(backoff, from + i / 2))
    {
      if i >= 2 {
        assert t[i] == rest[i - 2];
        assert (i - 2) % 2 == i % 2 && from + 1 + (i - 2) / 2 == from + i / 2;
      }
    }
  }


  // ---------------------------------------------------------------------------
  // A range of registration numbers
  // ---------------------------------------------------------------------------

  /** `range(start_reg, end_reg + 1)`. */
  function RegRange(startReg: int, endReg: int): (regs: seq<int>)
    ensures |regs| == if endReg >= startReg then endReg - startReg + 1 else 0
    ensures forall i :: 0 <= i < |regs| ==> regs[i] == startReg + i
  {
    if endReg < startReg then [] else seq(endReg - startReg + 1, i => startReg + i)
  }

  /** Every number from `start_reg` to `end_reg` is submitted, each once, in ascending order. */
  lemma RegRangeOnce(startReg: int, endReg: int)
    ensures forall reg :: reg in RegRange(startReg, endReg) <==> startReg <= reg <= endReg
    ensures forall i, j :: 0 <= i < j < |RegRange(startReg, endReg)| ==> RegRange(startReg, endReg)[i] < RegRange(startReg, endReg)[j]
  {
    var regs := RegRange(startReg, endReg);
    forall reg | startReg <= reg <= endReg ensures reg in regs {
      assert regs[reg - startReg] == reg;
    }
  }

  /** What the job for each submitted number returns; job `i` sees the network `network(i)`. */
  function Outcomes(baseUrl: string, regs: seq<int>, network: nat -> nat -> Response): (os: seq<Result<Option<Record>>>)
    ensures |os| == |regs|
  {
    seq(|regs|, i requires 0 <= i < |regs| => FetchFrom(Url(baseUrl, regs[i]), DefaultRetries, DefaultBackoff, network(i), 0).result)
  }

  /** The `if result:` test: an empty dict or `None` is dropped. */
  function Kept(o: Result<Option<Record>>): (k: Option<Record>)
    ensures k.Some? <==> o.Ok? && o.value.Some? && o.value.value != []
    ensures k.Some? ==> o == Ok(k)
  {
    if o.Ok? && o.value.Some? && o.value.value != [] then o.value else None
  }

  /** The `for future in futures` loop: `future.result()` re-raises a job's exception. */
  function Collect(outcomes: seq<Result<Option<Record>>>): Result<seq<Record>>
  {
    if outcomes == [] then Ok([])
    else
      match Collect(outcomes[..|outcomes| - 1])
      case Raises => Raises
      case Ok(rs) =>
        var o := outcomes[|outcomes| - 1];
        if o.Raises? then Raises
        else if Kept(o).Some? then Ok(rs + [Kept(o).value])
        else Ok(rs)
  }

  /** `fetch_all_results(base_url, start_reg, end_reg)`: collects the jobs' results in submission order. */
  method FetchAllResults(baseUrl: string, startReg: int, endReg: int, network: nat -> nat -> Response)
    returns (results: Result<seq<Record>>)
    ensures results == Collect(Outcomes(baseUrl, RegRange(startReg, endReg), network))
  {
    var regs := RegRange(startReg, endReg);
    ghost var os := Outcomes(baseUrl, regs, network);
    var rs: seq<Record> := [];
    for i := 0 to |regs|
      invariant Collect(os[..i]) == Ok(rs)
    {
      assert os[..i + 1][..i] == os[..i];
      var result, _ := FetchAndParseResult(baseUrl, regs[i], DefaultRetries, DefaultBackoff, network(i));
      assert result == os[i];
      if result.Raises? {
        CollectRaisesLater(os, i + 1);
        return Raises;
      }
      if result.value.Some? && result.value.value != [] {
        rs := rs + [result.value.value];
      }
    }
    assert os[..|regs|] == os;
    results := Ok(rs);
  }

  /** Once a job raises, the jobs after it do not matter. */
  lemma {:induction false} CollectRaisesLater(outcomes: seq<Result<Option<Record>>>, n: nat)
    requires n <= |outcomes| && Collect(outcomes[..n]) == Raises
    ensures Collect(outcomes) == Raises
    decreases |outcomes| - n
  {
    if n < |outcomes| {
      assert outcomes[..n + 1][..n] == outcomes[..n];
      CollectRaisesLater(outcomes, n + 1);
    } else {
      assert outcomes[..n] == outcomes;
    }
  }

  /**
   * The batch raises exactly when some job raises; otherwise it is the kept results, in
   * submission order.
   */
  lemma {:induction false} CollectSpec(outcomes: seq<Result<Option<Record>>>)
    ensures Collect(outcomes).Raises? <==> exists i :: 0 <= i < |outcomes| && outcomes[i].Raises?
    ensures Collect(outcomes).Ok? ==> Collect(outcomes).value == FilterMap(outcomes, Kept)
  {
    if outcomes != [] {
      var front := outcomes[..|outcomes| - 1];
      CollectSpec(front);
      assert forall i :: 0 <= i < |front| ==> front[i] == outcomes[i];
    }
  }

  /** A loop that stops with a result stops on a parsed page, so the result is never an empty dict. */
  lemma {:induction false} FetchedNonEmpty(url: string, retries: int, backoff: real, responses: nat -> Response, from: nat)
    requires FetchFrom(url, retries, backoff, responses, from).result.Ok?
    requires FetchFrom(url, retries, backoff, responses, from).result.value.Some?
    ensures |FetchFrom(url, retries, backoff, responses, from).result.value.value| >= |BaseKeys|
    decreases retries - from
  {
    if from < retries && Judge(responses(from)).Retry? && from < retries - 1 {
      FetchedNonEmpty(url, retries, backoff, responses, from + 1);
    }
  }

  /** Every record a job finds is collected: `if result:` drops only `None`. */
  lemma OutcomesKept(baseUrl: string, regs: seq<int>, network: nat -> nat -> Response, i: nat)
    requires i < |regs|
    ensures Kept(Outcomes(baseUrl, regs, network)[i]).Some? <==>
      Outcomes(baseUrl, regs, network)[i].Ok? && Outcomes(baseUrl, regs, network)[i].value.Some?
  {
    var o := Outcomes(baseUrl, regs, network)[i];
    if o.Ok? && o.value.Some? {
      FetchedNonEmpty(Url(baseUrl, regs[i]), DefaultRetries, DefaultBackoff, network(i), 0);
    }
  }

  // ---------------------------------------------------------------------------
  // The latest semester grade of a row
  // ---------------------------------------------------------------------------

  /** `[col for col in df.columns if col.startswith("Sem ")]`. */
  function SemColumns(columns: seq<string>): seq<string>
  {
    Filter(columns, IsSemColumn)
  }

  /**
   * `float(row[col])`: a column the student's dict lacked holds NaN, which converts;
   * text that is not a number raises ValueError.
   */
  function CellFloat(row: map<string, string>, column: string): Option<Float>
  {
    if column in row then ParseFloat(row[column]) else Some(NaN)
  }

  /** `get_latest_grade(row)` over the columns `semColumns`, scanned from the last. */
  function LatestGrade(semColumns: seq<string>, row: map<string, string>): Float
  {
    if semColumns == [] then Finite(-1.0)
    else
      match CellFloat(row, semColumns[|semColumns| - 1])
      case Some(v) => v
      case None => LatestGrade(semColumns[..|semColumns| - 1], row)
  }

  /** The grade of the last column that converts wins. */
  lemma {:induction false} LatestGradeAt(semColumns: seq<string>, row: map<string, string>, k: nat)
    requires k < |semColumns| && CellFloat(row, semColumns[k]).Some?
    requires forall j :: k < j < |semColumns| ==> CellFloat(row, semColumns[j]).None?
    ensures LatestGrade(semColumns, row) == CellFloat(row, semColumns[k]).value
  {
    if k < |semColumns| - 1 {
      var front := semColumns[..|semColumns| - 1];
      assert CellFloat(row, semColumns[|semColumns| - 1]).None?;
      assert forall j :: k < j < |front| ==> front[j] == semColumns[j];
      LatestGradeAt(front, row, k);
    }
  }

  /** When no column converts the grade is -1. */
  lemma {:induction false} LatestGradeNone(semColumns: seq<string>, row: map<string, string>)
    requires forall j :: 0 <= j < |semColumns| ==> CellFloat(row, semColumns[j]).None?
    ensures LatestGrade(semColumns, row) == Finite(-1.0)
  {
    if semColumns != [] {
      var front := semColumns[..|semColumns| - 1];
      assert forall j :: 0 <= j < |front| ==> front[j] == semColumns[j];
      LatestGradeNone(front, row);
    }
  }

  /** A grade other than -1 comes from one of the given columns. */
  lemma {:induction false} LatestGradeFrom(semColumns: seq<string>, row: map<string, string>)
    ensures LatestGrade(semColumns, row) == Finite(-1.0) ||
      exists j :: 0 <= j < |semColumns| && CellFloat(row, semColumns[j]) == Some(LatestGrade(semColumns, row))
  {
    if semColumns != [] {
      var front := semColumns[..|semColumns| - 1];
      LatestGradeFrom(front, row);
      assert forall j :: 0 <= j < |front| ==> front[j] == semColumns[j];
    }
  }

  /** The scan over a frame looks only at its `Sem ` columns, in frame order. */
  function GetLatestGrade(columns: seq<string>, row: map<string, string>): Float
  {
    LatestGrade(SemColumns(columns), row)
  }

  /** Columns that are not `Sem ` columns never affect the latest grade. */
  lemma GetLatestGradeIgnoresOthers(columns: seq<string>, others: seq<string>, row: map<string, string>)
    requires forall j :: 0 <= j < |others| ==> !IsSemColumn(others[j])
    ensures GetLatestGrade(columns + others, row) == GetLatestGrade(columns, row)
  {
    FilterAppend(columns, others, IsSemColumn);
    FilterNone(others, IsSemColumn);
    assert Filter(columns, IsSemColumn) + [] == Filter(columns, IsSemColumn);
  }
}
