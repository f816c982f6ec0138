/**
 * The client of the BEU JSON results API: the registration numbers a batch is made of,
 * the retrying fetch of one student's result, and the collection of a batch's results
 * from a pool of workers.
 *
 * The network is an oracle the caller supplies: `network(i)(k)` is what attempt `k` of
 * the `i`-th submitted request meets. Sleeps and requests are recorded in a trace instead
 * of being performed. The order in which the pool's workers finish is a caller-supplied
 * permutation of the requests.
 */
module ApiScraper {
  import opened Optional
  import opened Text
  import opened Numbers
  import opened Json
  import opened Seqs
  import opened Trace

  const BaseUrl := "https://www.beu-bih.ac.in/backend/v1/result/get-result"

  /** The pause before every attempt. */
  const PoliteDelay: real := 0.5

  /** The number of attempts both batch fetchers leave `retries` at. */
  const DefaultRetries := 3

  /** Lateral-entry students are numbered from 901, thirty of them. */
  const LateralFirst := 901
  const LateralCount := 30

  // ---------------------------------------------------------------------------
  // Registration numbers
  // ---------------------------------------------------------------------------

  /** Batch year, branch code, college code and the sequence number padded to three digits. */
  function RegistrationNumber(batch: int, branch: string, college: string, reg: int): string
  {
    IntStr(batch) + branch + college + Pad3(reg)
  }

  /** The numbers for sequence numbers `first`, `first + 1`, ..., `count` of them. */
  function Block(batch: int, branch: string, college: string, first: int, count: nat): (ids: seq<string>)
    ensures |ids| == count
  {
    if count == 0 then [] else Block(batch, branch, college, first, count - 1) + [RegistrationNumber(batch, branch, college, first + count - 1)]
  }

  /** The block grows by the number for the next sequence number. */
  lemma BlockStep(batch: int, branch: string, college: string, first: int, count: nat, reg: int)
    requires reg == first + count
    ensures Block(batch, branch, college, first, count + 1) ==
      Block(batch, branch, college, first, count) + [RegistrationNumber(batch, branch, college, reg)]
  {
  }

  lemma {:induction false} BlockAt(batch: int, branch: string, college: string, first: int, count: nat, i: nat)
    requires i < count
    ensures Block(batch, branch, college, first, count)[i] == RegistrationNumber(batch, branch, college, first + i)
  {
    if i < count - 1 {
      BlockAt(batch, branch, college, first, count - 1, i);
    }
  }

  /** How many numbers `range(start, end + 1)` yields. */
  function RangeCount(start: int, end: int): nat
  {
    if end >= start then end - start + 1 else 0
  }

  /** The regular block for `start..end`, then, when asked for, the lateral-entry block under `batch + 1`. */
  function RegistrationNumbers(batch: int, branch: string, college: string, start: int, end: int, includeLateral: bool): seq<string>
  {
    Block(batch, branch, college, start, RangeCount(start, end)) +
    (if includeLateral then Block(batch + 1, branch, college, LateralFirst, LateralCount) else [])
  }

  /**
   * The two generating loops of `fetch_all_results`: `end - start + 1` regular numbers
   * (none when `end < start`), numbered `start` upwards, then, with `includeLateral`,
   * thirty more numbered 901 to 930 under `batch + 1`.
   */
  method GenerateRegistrationNumbers(batch: int, branch: string, college: string, start: int, end: int, includeLateral: bool)
    returns (ids: seq<string>)
    ensures ids == RegistrationNumbers(batch, branch, college, start, end, includeLateral)
  {
    ids := AppendBlock([], batch, branch, college, start, RangeCount(start, end));
    assert [] + Block(batch, branch, college, start, RangeCount(start, end)) == Block(batch, branch, college, start, RangeCount(start, end));
    if includeLateral {
      ids := AppendBlock(ids, batch + 1, branch, college, LateralFirst, LateralCount);
    } else {
      assert ids == ids + [];
    }
  }

  /** One generating loop: `ids.append(...)` for `count` sequence numbers from `first` on. */
  method AppendBlock(ids: seq<string>, batch: int, branch: string, college: string, first: int, count: nat) returns (r: seq<string>)
    ensures r == ids + Block(batch, branch, college, first, count)
  {
    r := ids;
    for i := 0 to count
      invariant r == ids + Block(batch, branch, college, first, i)
    {
      var done := Block(batch, branch, college, first, i);
      var next := RegistrationNumber(batch, branch, college, first + i);
      BlockStep(batch, branch, college, first, i, first + i);
      assert ids + done + [next] == ids + (done + [next]);
      r := r + [next];
    }
  }

  /**
   * Two numbers with sequence numbers in 0..999 and batch years of the same width are
   * equal only when their batch years and sequence numbers are.
   */
  lemma RegistrationNumberInjective(b1: int, b2: int, branch: string, college: string, r1: int, r2: int)
    requires |IntStr(b1)| == |IntStr(b2)|
    requires 0 <= r1 <= 999 && 0 <= r2 <= 999
    requires RegistrationNumber(b1, branch, college, r1) == RegistrationNumber(b2, branch, college, r2)
    ensures b1 == b2 && r1 == r2
  {
    var s := RegistrationNumber(b1, branch, college, r1);
    Pad3Digits(r1);
    Pad3Digits(r2);
    var w := |IntStr(b1)|;
    assert s[..w] == IntStr(b1);
    assert RegistrationNumber(b2, branch, college, r2)[..w] == IntStr(b2);
    IntStrInjective(b1, b2);
    assert s[|s| - 3..] == Pad3(r1);
    assert RegistrationNumber(b2, branch, college, r2)[|s| - 3..] == Pad3(r2);
    Pad3Injective(r1, r2);
  }

  /**
   * The generated list has `end - start + 1` regular numbers (none when `end < start`),
   * the one at position `i` for sequence number `start + i`, then, with `includeLateral`,
   * thirty more for 901 to 930 under `batch + 1`.
   */
  lemma RegistrationNumbersAt(batch: int, branch: string, college: string, start: int, end: int, includeLateral: bool, i: nat)
    ensures |RegistrationNumbers(batch, branch, college, start, end, includeLateral)| ==
      RangeCount(start, end) + (if includeLateral then LateralCount else 0)
    ensures i < |RegistrationNumbers(batch, branch, college, start, end, includeLateral)| ==>
      RegistrationNumbers(batch, branch, college, start, end, includeLateral)[i] ==
        if i < RangeCount(start, end) then RegistrationNumber(batch, branch, college, start + i)
        else RegistrationNumber(batch + 1, branch, college, LateralFirst + (i - RangeCount(start, end)))
  {
    var n := RangeCount(start, end);
    var regular := Block(batch, branch, college, start, n);
    if i < n {
      BlockAt(batch, branch, college, start, n, i);
    } else if includeLateral && i < n + LateralCount {
      BlockAt(batch + 1, branch, college, LateralFirst, LateralCount, i - n);
    }
  }

  /**
   * With sequence numbers inside 0..999 and `batch + 1` as wide as `batch`, no number is
   * generated twice, the regular and lateral blocks included.
   */
  lemma RegistrationNumbersDistinct(batch: int, branch: string, college: string, start: int, end: int, includeLateral: bool)
    requires 0 <= start && end <= 999 && |IntStr(batch)| == |IntStr(batch + 1)|
    ensures var ids := RegistrationNumbers(batch, branch, college, start, end, includeLateral);
      forall i, j :: 0 <= i < j < |ids| ==> ids[i] != ids[j]
  {
    var ids := RegistrationNumbers(batch, branch, college, start, end, includeLateral);
    var n := RangeCount(start, end);
    forall i, j | 0 <= i < j < |ids| ensures ids[i] != ids[j] {
      RegistrationNumbersAt(batch, branch, college, start, end, includeLateral, i);
      RegistrationNumbersAt(batch, branch, college, start, end, includeLateral, j);
      var bi, ri := if i < n then batch else batch + 1, if i < n then start + i else LateralFirst + (i - n);
      var bj, rj := if j < n then batch else batch + 1, if j < n then start + j else LateralFirst + (j - n);
      if ids[i] == ids[j] {
        RegistrationNumberInjective(bi, bj, branch, college, ri, rj);
      }
    }
  }

  /**
   * Within 0..999 every regular number is exactly as wide as its three parts plus three
   * digits, and its last three digits spell its sequence number. So the block ascends: each
   * regular number is smaller, as a Python string, than every one after it.
   */
  lemma RegularNumbersAscend(batch: int, branch: string, college: string, start: int, end: int, includeLateral: bool)
    requires 0 <= start && end <= 999
    ensures var ids := RegistrationNumbers(batch, branch, college, start, end, includeLateral);
      forall i :: 0 <= i < RangeCount(start, end) ==>
        |ids[i]| == |IntStr(batch)| + |branch| + |college| + 3 &&
        DigitsValue(ids[i][|ids[i]| - 3..]) == start + i
    ensures var ids := RegistrationNumbers(batch, branch, college, start, end, includeLateral);
      forall i, j :: 0 <= i < j < RangeCount(start, end) ==> LexLess(ids[i], ids[j])
  {
    var ids := RegistrationNumbers(batch, branch, college, start, end, includeLateral);
    forall i | 0 <= i < RangeCount(start, end)
      ensures |ids[i]| == |IntStr(batch)| + |branch| + |college| + 3
      ensures DigitsValue(ids[i][|ids[i]| - 3..]) == start + i
    {
      RegistrationNumbersAt(batch, branch, college, start, end, includeLateral, i);
      Pad3Digits(start + i);
      assert ids[i][|ids[i]| - 3..] == Pad3(start + i);
    }
    forall i, j | 0 <= i < j < RangeCount(start, end) ensures LexLess(ids[i], ids[j]) {
      RegistrationNumbersAt(batch, branch, college, start, end, includeLateral, i);
      RegistrationNumbersAt(batch, branch, college, start, end, includeLateral, j);
      Pad3Ascends(start + i, start + j);
      LexLessPrefix(IntStr(batch) + branch + college, Pad3(start + i), Pad3(start + j));
    }
  }

  /** Two sequence numbers in 0..999 pad to three-digit fields in the same order. */
  lemma Pad3Ascends(m: int, n: int)
    requires 0 <= m < n <= 999
    ensures LexLess(Pad3(m), Pad3(n))
  {
    Pad3Digits(m);
    Pad3Digits(n);
    DigitsOrderLex(Pad3(m), Pad3(n));
  }

  // ---------------------------------------------------------------------------
  // One result, with retries
  // ---------------------------------------------------------------------------

  /** The arguments of one `fetch_single_result` call that end up in its query. */
  datatype Request = Request(registrationNo: string, semester: string, year: int, examMonth: string, examYear: int)

  function Url(q: Request): string
  {
    BaseUrl + "?year=" + IntStr(q.year) + "&redg_no=" + q.registrationNo + "&semester=" + q.semester +
    "&exam_held=" + q.examMonth + "/" + IntStr(q.examYear)
  }

  /** What one attempt meets. */
  datatype Attempt =
    | Unreachable           // a connection error, a timeout or a 4xx/5xx status: a RequestException
    | Undecodable           // a body that is not JSON: `json.JSONDecodeError`, not a RequestException before requests 2.27
    | Body(payload: Json)   // the decoded body

  /** Whether the loop tries again, or stops with a result (or an escaping exception). */
  datatype Verdict = Retry | Stop(result: Result<Option<Json>>)

  /** The body of the loop, after the request: only a transport failure is tried again. */
  function Classify(a: Attempt): Verdict
  {
    match a
    case Unreachable => Retry
    case Undecodable => Stop(Ok(None))
    case Body(v) =>
      // `data.get` on anything but a dict raises AttributeError, which nothing catches
      if !v.JObj? then Stop(Raises)
      else if EqualsInt(Get(v.fields, "status"), 200) && TruthyOpt(Get(v.fields, "data")) then Stop(Ok(Get(v.fields, "data")))
      else Stop(Ok(None))
  }

  /**
   * Only a transport failure is tried again. A body that is not a dict raises; a dict
   * gives its `data` when its `status` equals 200 and the data is truthy, and `None`
   * otherwise, as does an undecodable body.
   */
  lemma ClassifySpec(a: Attempt)
    ensures Classify(a).Retry? <==> a.Unreachable?
    ensures Classify(a) == Stop(Raises) <==> a.Body? && !a.payload.JObj?
    ensures Classify(a) == Stop(Ok(None)) <==> (a.Undecodable? ||
      (a.Body? && a.payload.JObj? && !(EqualsInt(Get(a.payload.fields, "status"), 200) && TruthyOpt(Get(a.payload.fields, "data")))))
    ensures Classify(a).Stop? && Classify(a).result.Ok? && Classify(a).result.value.Some? ==>
      a.Body? && a.payload.JObj? && EqualsInt(Get(a.payload.fields, "status"), 200) &&
      Classify(a).result.value == Get(a.payload.fields, "data") && Truthy(Classify(a).result.value.value)
  {
  }

  /** The pause after failed attempt `attempt`: `2 ** attempt` seconds. */
  function Backoff(attempt: nat): real
  {
    Pow2(attempt) as real
  }

  /** What a call returns, and what it did on the way. */
  datatype Fetched = Fetched(result: Result<Option<Json>>, trace: seq<Event>)

  /** The loop from attempt `attempt` on. */
  function FetchFrom(url: string, retries: int, responses: nat -> Attempt, attempt: nat): Fetched
    decreases retries - attempt
  {
    if attempt >= retries then Fetched(Ok(None), [])
    else
      var begun := [Sleep(PoliteDelay), HttpGet(url)];
      match Classify(responses(attempt))
      case Stop(r) => Fetched(r, begun)
      case Retry =>
        if attempt < retries - 1 then
          var rest := FetchFrom(url, retries, responses, attempt + 1);
          Fetched(rest.result, begun + [Sleep(Backoff(attempt))] + rest.trace)
        else
          Fetched(Ok(None), begun)
  }

  /** `fetch_single_result(registration_no, semester, batch, exam_month, exam_year, retries)`. */
  method FetchSingleResult(q: Request, retries: int, responses: nat -> Attempt) returns (result: Result<Option<Json>>, trace: seq<Event>)
    ensures Fetched(result, trace) == FetchFrom(Url(q), retries, responses, 0)
  {
    result, trace := Attempts(Url(q), retries, responses);
  }

  /** The `for attempt in range(retries)` loop on the query URL. */
  method Attempts(url: string, retries: int, responses: nat -> Attempt) returns (result: Result<Option<Json>>, trace: seq<Event>)
    ensures Fetched(result, trace) == FetchFrom(url, retries, responses, 0)
  {
    trace := [];
    var attempt: nat := 0;
    while attempt < retries
      invariant Resumes(url, retries, responses, attempt, trace)
      decreases retries - attempt
    {
      var before := trace;
      trace := trace + [Sleep(PoliteDelay), HttpGet(url)];
      var verdict := Classify(responses(attempt));
      if verdict.Stop? {
        StopEnds(url, retries, responses, attempt, before, trace);
        return verdict.result, trace;
      }
      if attempt < retries - 1 {
        var backoff := trace + [Sleep(Backoff(attempt))];
        RetryResumes(url, retries, responses, attempt, before, backoff);
        trace := backoff;
      } else {
        LastEnds(url, retries, responses, attempt, before, trace);
        return Ok(None), trace;
      }
      attempt := attempt + 1;
    }
    result := Ok(None);
  }

  /** The loop invariant: after the trace so far, the loop from `attempt` on completes the whole call. */
  predicate Resumes(url: string, retries: int, responses: nat -> Attempt, attempt: nat, trace: seq<Event>)
  {
    FetchFrom(url, retries, responses, 0) ==
      Fetched(FetchFrom(url, retries, responses, attempt).result, trace + FetchFrom(url, retries, responses, attempt).trace)
  }

  lemma StopEnds(url: string, retries: int, responses: nat -> Attempt, attempt: nat, before: seq<Event>, trace: seq<Event>)
    requires attempt < retries && Classify(responses(attempt)).Stop?
    requires Resumes(url, retries, responses, attempt, before) && trace == before + [Sleep(PoliteDelay), HttpGet(url)]
    ensures FetchFrom(url, retries, responses, 0) == Fetched(Classify(responses(attempt)).result, trace)
  {
    FetchFromStop(url, retries, responses, attempt);
  }

  lemma LastEnds(url: string, retries: int, responses: nat -> Attempt, attempt: nat, before: seq<Event>, trace: seq<Event>)
    requires attempt == retries - 1 && Classify(responses(attempt)).Retry?
    requires Resumes(url, retries, responses, attempt, before) && trace == before + [Sleep(PoliteDelay), HttpGet(url)]
    ensures FetchFrom(url, retries, responses, 0) == Fetched(Ok(None), trace)
  {
    FetchFromLast(url, retries, responses, attempt);
  }

  lemma RetryResumes(url: string, retries: int, responses: nat -> Attempt, attempt: nat, before: seq<Event>, trace: seq<Event>)
    requires attempt < retries - 1 && Classify(responses(attempt)).Retry?
    requires Resumes(url, retries, responses, attempt, before)
    requires trace == before + [Sleep(PoliteDelay), HttpGet(url)] + [Sleep(Backoff(attempt))]
    ensures Resumes(url, retries, responses, attempt + 1, trace)
  {
    FetchFromRetry(url, retries, responses, attempt);
    var rest := FetchFrom(url, retries, responses, attempt + 1).trace;
    assert trace + rest == before + ([Sleep(PoliteDelay), HttpGet(url), Sleep(Backoff(attempt))] + rest);
  }

  /** An attempt that gets an answer ends the loop with its verdict, after the pause and the request. */
  lemma FetchFromStop(url: string, retries: int, responses: nat -> Attempt, attempt: nat)
    requires attempt < retries && Classify(responses(attempt)).Stop?
    ensures FetchFrom(url, retries, responses, attempt) ==
      Fetched(Classify(responses(attempt)).result, [Sleep(PoliteDelay), HttpGet(url)])
  {
  }

  /** A failed attempt before the last is the pause, the request and the backoff, then the rest of the loop. */
  lemma FetchFromRetry(url: string, retries: int, responses: nat -> Attempt, attempt: nat)
    requires attempt < retries - 1 && Classify(responses(attempt)).Retry?
    ensures FetchFrom(url, retries, responses, attempt) ==
      Fetched(FetchFrom(url, retries, responses, attempt + 1).result,
              [Sleep(PoliteDelay), HttpGet(url), Sleep(Backoff(attempt))] + FetchFrom(url, retries, responses, attempt + 1).trace)
  {
    assert [Sleep(PoliteDelay), HttpGet(url)] + [Sleep(Backoff(attempt))] ==
      [Sleep(PoliteDelay), HttpGet(url), Sleep(Backoff(attempt))];
  }

  /** A failed last attempt gives up with `None`, without a backoff. */
  lemma FetchFromLast(url: string, retries: int, responses: nat -> Attempt, attempt: nat)
    requires attempt == retries - 1 && Classify(responses(attempt)).Retry?
    ensures FetchFrom(url, retries, responses, attempt) == Fetched(Ok(None), [Sleep(PoliteDelay), HttpGet(url)])
  {
  }

  /** The failed attempts `from` .. `to - 1`: each is the pause, the request and the backoff `2^k` seconds. */
  function Failures(url: string, from: nat, to: nat): seq<Event>
    decreases if from >= to then 0 else to - from
  {
    if from >= to then [] else [Sleep(PoliteDelay), HttpGet(url), Sleep(Backoff(from))] + Failures(url, from + 1, to)
  }

  /**
   * When every attempt before `n` fails in transport and attempt `n` gets an answer, the
   * loop stops at `n` with that answer's verdict: an undecodable body or a refusal is not
   * retried. The trace is the failed attempts with their backoffs, then one more pause and
   * request.
   */
  lemma {:induction false} FetchStopsAt(url: string, retries: int, responses: nat -> Attempt, from: nat, n: nat)
    requires from <= n < retries
    requires forall k :: from <= k < n ==> responses(k).Unreachable?
    requires !responses(n).Unreachable?
    ensures FetchFrom(url, retries, responses, from) ==
      Fetched(Classify(responses(n)).result, Failures(url, from, n) + [Sleep(PoliteDelay), HttpGet(url)])
    decreases n - from
  {
    var tail := [Sleep(PoliteDelay), HttpGet(url)];
    if from < n {
      FetchStopsAt(url, retries, responses, from + 1, n);
      FetchFromRetry(url, retries, responses, from);
      var block := [Sleep(PoliteDelay), HttpGet(url), Sleep(Backoff(from))];
      FailuresStep(url, from, n);
      assert block + (Failures(url, from + 1, n) + tail) == Failures(url, from, n) + tail;
    } else {
      FetchFromStop(url, retries, responses, from);
      assert Failures(url, from, n) + tail == tail;
    }
  }

  /**
   * When every attempt fails in transport the call gives up with `None`, after
   * `retries` requests and without sleeping after the last one.
   */
  lemma {:induction false} FetchGivesUp(url: string, retries: int, responses: nat -> Attempt, from: nat)
    requires from < retries
    requires forall k :: from <= k < retries ==> responses(k).Unreachable?
    ensures FetchFrom(url, retries, responses, from) ==
      Fetched(Ok(None), Failures(url, from, retries - 1) + [Sleep(PoliteDelay), HttpGet(url)])
    decreases retries - from
  {
    var tail := [Sleep(PoliteDelay), HttpGet(url)];
    if from < retries - 1 {
      FetchGivesUp(url, retries, responses, from + 1);
      FetchFromRetry(url, retries, responses, from);
      var block := [Sleep(PoliteDelay), HttpGet(url), Sleep(Backoff(from))];
      FailuresStep(url, from, retries - 1);
      assert block + (Failures(url, from + 1, retries - 1) + tail) == Failures(url, from, retries - 1) + tail;
    } else {
      FetchFromLast(url, retries, responses, from);
      assert Failures(url, from, retries - 1) + tail == tail;
    }
  }

  lemma FailuresStep(url: string, from: nat, to: nat)
    requires from < to
    ensures Failures(url, from, to) == [Sleep(PoliteDelay), HttpGet(url), Sleep(Backoff(from))] + Failures(url, from + 1, to)
  {
  }

  /** The failed attempts `from` .. `to - 1` are `to - from` requests. */
  lemma {:induction false} FailuresRequests(url: string, from: nat, to: nat)
    ensures Requests(Failures(url, from, to)) == (if to >= from then to - from else 0)
    decreases if from >= to then 0 else to - from
  {
    if from < to {
      var block := [Sleep(PoliteDelay), HttpGet(url), Sleep(Backoff(from))];
      FailuresRequests(url, from + 1, to);
      RequestsAppend(block, Failures(url, from + 1, to));
      assert Requests(block) == 1 by {
        assert block == [Sleep(PoliteDelay), HttpGet(url)] + [Sleep(Backoff(from))];
        assert [Sleep(PoliteDelay), HttpGet(url)] == [Sleep(PoliteDelay)] + [HttpGet(url)];
        RequestsAppend([Sleep(PoliteDelay), HttpGet(url)], [Sleep(Backoff(from))]);
        RequestsAppend([Sleep(PoliteDelay)], [HttpGet(url)]);
        RequestsSingle(Sleep(PoliteDelay));
        RequestsSingle(HttpGet(url));
        RequestsSingle(Sleep(Backoff(from)));
      }
    }
  }

  /** A call makes at most `retries` requests, and at least one when `retries` is positive. */
  lemma {:induction false} FetchRequests(url: string, retries: int, responses: nat -> Attempt, from: nat)
    ensures Requests(FetchFrom(url, retries, responses, from).trace) <= if retries > from then retries - from else 0
    ensures from < retries ==> Requests(FetchFrom(url, retries, responses, from).trace) >= 1
    decreases retries - from
  {
    var begun := [Sleep(PoliteDelay), HttpGet(url)];
    assert Requests(begun) == 1 by {
      assert begun[..1] == [Sleep(PoliteDelay)];
    }
    if from < retries && Classify(responses(from)).Retry? && from < retries - 1 {
      var rest := FetchFrom(url, retries, responses, from + 1);
      FetchRequests(url, retries, responses, from + 1);
      RequestsAppend(begun + [Sleep(Backoff(from))], rest.trace);
      RequestsAppend(begun, [Sleep(Backoff(from))]);
    }
  }

  /** Every request in a trace comes straight after the polite pause. */
  predicate PausedBeforeRequests(t: seq<Event>)
  {
    forall i :: 0 <= i < |t| && t[i].HttpGet? ==> i > 0 && t[i - 1] == Sleep(PoliteDelay)
  }

  lemma {:induction false} FetchPauses(url: string, retries: int, responses: nat -> Attempt, from: nat)
    ensures PausedBeforeRequests(FetchFrom(url, retries, responses, from).trace)
    decreases retries - from
  {
    if from < retries && Classify(responses(from)).Retry? && from < retries - 1 {
      var rest := FetchFrom(url, retries, responses, from + 1);
      FetchPauses(url, retries, responses, from + 1);
      var t := [Sleep(PoliteDelay), HttpGet(url), Sleep(Backoff(from))] + rest.trace;
      assert FetchFrom(url, retries, responses, from).trace == t;
      forall i | 0 <= i < |t| && t[i].HttpGet? ensures i > 0 && t[i - 1] == Sleep(PoliteDelay) {
        if i >= 3 {
          assert t[i] == rest.trace[i - 3];
          assert i - 3 > 0 && t[i - 1] == rest.trace[i - 4];
        }
      }
    }
  }

  // ---------------------------------------------------------------------------
  // A batch, fetched by a pool of workers
  // ---------------------------------------------------------------------------

  /** The `if result:` test on what a worker returned. */
  function Kept(o: Result<Option<Json>>): (k: Option<Json>)
    ensures k.Some? <==> o.Ok? && o.value.Some? && Truthy(o.value.value)
    ensures k.Some? ==> o == Ok(k)
  {
    if o.Ok? && o.value.Some? && Truthy(o.value.value) then o.value else None
  }

  function Range(n: nat): (r: seq<nat>)
    ensures |r| == n && forall i :: 0 <= i < n ==> r[i] == i
  {
    seq(n, i => i)
  }

  /** `order` lists each of the indices below `n` exactly once: a possible completion order. */
  predicate IsOrder(order: seq<nat>, n: nat)
  {
    multiset(order) == multiset(Range(n))
  }

  lemma OrderMembers(order: seq<nat>, n: nat)
    requires IsOrder(order, n)
    ensures |order| == n
    ensures forall j :: 0 <= j < |order| ==> order[j] < n
    ensures forall i :: 0 <= i < n ==> i in order
  {
    assert |order| == |multiset(order)| == |multiset(Range(n))| == n;
    forall j | 0 <= j < |order| ensures order[j] < n {
      assert order[j] in multiset(Range(n));
    }
    forall i | 0 <= i < n ensures i in order {
      assert Range(n)[i] == i;
      assert i in multiset(order);
    }
  }

  /** What each submitted request's worker returns. */
  function Outcomes(requests: seq<Request>, network: nat -> nat -> Attempt): (os: seq<Result<Option<Json>>>)
    ensures |os| == |requests|
  {
    seq(|requests|, i requires 0 <= i < |requests| => FetchFrom(Url(requests[i]), DefaultRetries, network(i), 0).result)
  }

  /**
   * The `as_completed` loop over the workers in the order `order`: `future.result()`
   * re-raises a worker's exception, and a truthy result is appended.
   */
  function Gather(outcomes: seq<Result<Option<Json>>>, order: seq<nat>): Result<seq<Json>>
    requires forall j :: 0 <= j < |order| ==> order[j] < |outcomes|
  {
    if order == [] then Ok([])
    else
      match Gather(outcomes, order[..|order| - 1])
      case Raises => Raises
      case Ok(rs) =>
        var o := outcomes[order[|order| - 1]];
        if o.Raises? then Raises
        else if Kept(o).Some? then Ok(rs + [Kept(o).value])
        else Ok(rs)
  }

  lemma {:induction false} GatherRaisesLater(outcomes: seq<Result<Option<Json>>>, order: seq<nat>, j: nat)
    requires forall k :: 0 <= k < |order| ==> order[k] < |outcomes|
    requires j <= |order| && Gather(outcomes, order[..j]).Raises?
    ensures Gather(outcomes, order).Raises?
    decreases |order| - j
  {
    if j < |order| {
      assert order[..j + 1][..j] == order[..j];
      GatherRaisesLater(outcomes, order, j + 1);
    } else {
      assert order[..j] == order;
    }
  }

  /** The pool: each request is submitted once, then the workers are waited for in completion order. */
  method Collect(requests: seq<Request>, network: nat -> nat -> Attempt, completion: seq<nat>) returns (r: Result<seq<Json>>)
    requires IsOrder(completion, |requests|)
    ensures forall j :: 0 <= j < |completion| ==> completion[j] < |requests|
    ensures r == Gather(Outcomes(requests, network), completion)
  {
    OrderMembers(completion, |requests|);
    var outcomes := RunWorkers(requests, network);
    r := WaitAll(outcomes, completion);
  }

  /** Every request submitted to the pool runs `fetch_single_result` on its own answers. */
  method RunWorkers(requests: seq<Request>, network: nat -> nat -> Attempt) returns (outcomes: seq<Result<Option<Json>>>)
    ensures outcomes == Outcomes(requests, network)
  {
    outcomes := [];
    for i := 0 to |requests|
      invariant outcomes == Outcomes(requests, network)[..i]
    {
      var result, _ := FetchSingleResult(requests[i], DefaultRetries, network(i));
      assert Outcomes(requests, network)[..i + 1] == Outcomes(requests, network)[..i] + [result];
      outcomes := outcomes + [result];
    }
    assert Outcomes(requests, network)[..|requests|] == Outcomes(requests, network);
  }

  /** The `as_completed` loop: `future.result()` re-raises a worker's exception, and truthy results are appended. */
  method WaitAll(outcomes: seq<Result<Option<Json>>>, completion: seq<nat>) returns (r: Result<seq<Json>>)
    requires forall j :: 0 <= j < |completion| ==> completion[j] < |outcomes|
    ensures r == Gather(outcomes, completion)
  {
    var results: seq<Json> := [];
    for j := 0 to |completion|
      invariant Gather(outcomes, completion[..j]) == Ok(results)
    {
      assert completion[..j + 1][..j] == completion[..j];
      var o := outcomes[completion[j]];
      if o.Raises? {
        GatherRaisesLater(outcomes, completion, j + 1);
        return Raises;
      }
      if Kept(o).Some? {
        results := results + [Kept(o).value];
      }
    }
    assert completion[..|completion|] == completion;
    r := Ok(results);
  }

  /** The worker outcome at an index, kept or not. */
  function Picked(outcomes: seq<Result<Option<Json>>>): nat -> Option<Json>
  {
    (i: nat) => if i < |outcomes| then Kept(outcomes[i]) else None
  }

  lemma {:induction false} GatherIsFilterMap(outcomes: seq<Result<Option<Json>>>, order: seq<nat>)
    requires forall j :: 0 <= j < |order| ==> order[j] < |outcomes|
    ensures Gather(outcomes, order).Raises? <==> exists j :: 0 <= j < |order| && outcomes[order[j]].Raises?
    ensures Gather(outcomes, order).Ok? ==> Gather(outcomes, order).value == FilterMap(order, Picked(outcomes))
  {
    if order != [] {
      var front := order[..|order| - 1];
      assert forall j :: 0 <= j < |front| ==> front[j] == order[j];
      GatherIsFilterMap(outcomes, front);
    }
  }

  lemma {:induction false} PickedRange(outcomes: seq<Result<Option<Json>>>, n: nat)
    requires n <= |outcomes|
    ensures FilterMap(Range(n), Picked(outcomes)) == FilterMap(outcomes[..n], Kept)
  {
    if n > 0 {
      assert Range(n)[..n - 1] == Range(n - 1);
      assert outcomes[..n][..n - 1] == outcomes[..n - 1];
      PickedRange(outcomes, n - 1);
    }
  }

  /**
   * Whatever order the workers finish in, the batch raises exactly when some worker
   * raised, and otherwise holds exactly the truthy results, as many times as requests
   * produced them: the multiset collected in submission order, at most one per request.
   */
  lemma GatherSpec(outcomes: seq<Result<Option<Json>>>, order: seq<nat>)
    requires IsOrder(order, |outcomes|)
    ensures forall j :: 0 <= j < |order| ==> order[j] < |outcomes|
    ensures Gather(outcomes, order).Raises? <==> exists i :: 0 <= i < |outcomes| && outcomes[i].Raises?
    ensures Gather(outcomes, order).Ok? ==>
      multiset(Gather(outcomes, order).value) == multiset(FilterMap(outcomes, Kept)) &&
      |Gather(outcomes, order).value| <= |outcomes|
  {
    var n := |outcomes|;
    OrderMembers(order, n);
    GatherIsFilterMap(outcomes, order);
    if exists i :: 0 <= i < n && outcomes[i].Raises? {
      var i :| 0 <= i < n && outcomes[i].Raises?;
      assert i in order;
      var j :| 0 <= j < |order| && order[j] == i;
    }
    if Gather(outcomes, order).Ok? {
      FilterMapPermutation(order, Range(n), Picked(outcomes));
      PickedRange(outcomes, n);
      assert outcomes[..n] == outcomes;
      FilterMapLength(outcomes, Kept);
      var v := Gather(outcomes, order).value;
      assert |v| == |multiset(v)| == |multiset(FilterMap(outcomes, Kept))| == |FilterMap(outcomes, Kept)|;
    }
  }

  // ---------------------------------------------------------------------------
  // The two batch fetchers
  // ---------------------------------------------------------------------------

  /** Every number asked for with the same semester and the same `year`. */
  function RequestsFor(ids: seq<string>, semester: string, year: int, examMonth: string, examYear: int): (qs: seq<Request>)
    ensures |qs| == |ids|
  {
    if ids == [] then []
    else RequestsFor(ids[..|ids| - 1], semester, year, examMonth, examYear) + [Request(ids[|ids| - 1], semester, year, examMonth, examYear)]
  }

  lemma {:induction false} RequestsForAt(ids: seq<string>, semester: string, year: int, examMonth: string, examYear: int)
    ensures forall i :: 0 <= i < |ids| ==>
      RequestsFor(ids, semester, year, examMonth, examYear)[i] == Request(ids[i], semester, year, examMonth, examYear)
  {
    if ids != [] {
      RequestsForAt(ids[..|ids| - 1], semester, year, examMonth, examYear);
    }
  }

  lemma RequestsForStep(ids: seq<string>, id: string, semester: string, year: int, examMonth: string, examYear: int)
    ensures RequestsFor(ids + [id], semester, year, examMonth, examYear) ==
      RequestsFor(ids, semester, year, examMonth, examYear) + [Request(id, semester, year, examMonth, examYear)]
  {
    assert (ids + [id])[..|ids|] == ids;
  }

  /** The requests `fetch_all_results` submits, or `Raises` when a bound is not an integer literal. */
  function AllRequests(startReg: string, endReg: string, semester: string, batch: int, branch: string, college: string,
                       examMonth: string, examYear: int, includeLateral: bool): Result<seq<Request>>
  {
    match (ParseInt(startReg), ParseInt(endReg))
    case (Some(start), Some(end)) =>
      Ok(RequestsFor(RegistrationNumbers(batch, branch, college, start, end, includeLateral), semester, batch, examMonth, examYear))
    case _ => Raises
  }

  /**
   * Every request of `fetch_all_results` carries `year=batch`, the lateral-entry ones
   * included, and there is one per generated registration number, in order.
   */
  lemma AllRequestsYear(startReg: string, endReg: string, semester: string, batch: int, branch: string, college: string,
                        examMonth: string, examYear: int, includeLateral: bool)
    requires AllRequests(startReg, endReg, semester, batch, branch, college, examMonth, examYear, includeLateral).Ok?
    ensures var qs := AllRequests(startReg, endReg, semester, batch, branch, college, examMonth, examYear, includeLateral).value;
      var ids := RegistrationNumbers(batch, branch, college, ParseInt(startReg).value, ParseInt(endReg).value, includeLateral);
      |qs| == |ids| && forall i :: 0 <= i < |qs| ==> qs[i].registrationNo == ids[i] && qs[i].year == batch && qs[i].semester == semester
  {
    var ids := RegistrationNumbers(batch, branch, college, ParseInt(startReg).value, ParseInt(endReg).value, includeLateral);
    RequestsForAt(ids, semester, batch, examMonth, examYear);
  }

  /**
   * `fetch_all_results(start_reg, end_reg, semester, batch, branch, college, exam_month,
   * exam_year, include_lateral)`. A bound that `int()` rejects raises before anything is
   * submitted.
   */
  method FetchAllResults(startReg: string, endReg: string, semester: string, batch: int, branch: string, college: string,
                         examMonth: string, examYear: int, includeLateral: bool,
                         network: nat -> nat -> Attempt, completion: seq<nat>) returns (r: Result<seq<Json>>)
    requires AllRequests(startReg, endReg, semester, batch, branch, college, examMonth, examYear, includeLateral).Ok? ==>
      IsOrder(completion, |AllRequests(startReg, endReg, semester, batch, branch, college, examMonth, examYear, includeLateral).value|)
    ensures r.Raises? <==>
      AllRequests(startReg, endReg, semester, batch, branch, college, examMonth, examYear, includeLateral).Raises? ||
      exists i :: 0 <= i < |AllRequests(startReg, endReg, semester, batch, branch, college, examMonth, examYear, includeLateral).value| &&
        Outcomes(AllRequests(startReg, endReg, semester, batch, branch, college, examMonth, examYear, includeLateral).value, network)[i].Raises?
    ensures r.Ok? ==>
      multiset(r.value) ==
        multiset(FilterMap(Outcomes(AllRequests(startReg, endReg, semester, batch, branch, college, examMonth, examYear, includeLateral).value, network), Kept))
  {
    var start := ParseInt(startReg);
    var end := ParseInt(endReg);
    if start.None? || end.None? {
      return Raises;
    }
    var ids := GenerateRegistrationNumbers(batch, branch, college, start.value, end.value, includeLateral);
    var requests := RequestsFor(ids, semester, batch, examMonth, examYear);
    r := Collect(requests, network, completion);
    GatherSpec(Outcomes(requests, network), completion);
  }

  /** `sem_romans[semester]`: the Roman numeral of a semester 1..8; any other key is missing. */
  function Roman(semester: int): (s: Option<string>)
    ensures s.Some? <==> 1 <= semester <= 8
  {
    match semester
    case 1 => Some("I")
    case 2 => Some("II")
    case 3 => Some("III")
    case 4 => Some("IV")
    case 5 => Some("V")
    case 6 => Some("VI")
    case 7 => Some("VII")
    case 8 => Some("VIII")
    case _ => None
  }

  /**
   * The requests `fetch_semester_results` submits: the regular block under `batch`, then
   * the lateral block asked for with `year=batch + 1`. The missing Roman numeral of a bad
   * semester raises KeyError at the first submission, so only when there is one.
   */
  function SemesterRequests(regStart: int, regEnd: int, branch: string, college: string, semester: int, batch: int,
                            includeLateral: bool, examMonth: string, examYear: int): Result<seq<Request>>
  {
    var regular := Block(batch, branch, college, regStart, RangeCount(regStart, regEnd));
    var lateral := if includeLateral then Block(batch + 1, branch, college, LateralFirst, LateralCount) else [];
    if regular + lateral == [] then Ok([])
    else
      match Roman(semester)
      case None => Raises
      case Some(roman) =>
        Ok(RequestsFor(regular, roman, batch, examMonth, examYear) + RequestsFor(lateral, roman, batch + 1, examMonth, examYear))
  }

  /** The Roman numeral, or nothing when the semester has none. */
  function Numeral(semester: int): string
  {
    if Roman(semester).Some? then Roman(semester).value else ""
  }

  /**
   * The two submission loops of `fetch_semester_results`, which fill the futures dict one
   * request at a time.
   */
  method SubmitSemester(regStart: int, regEnd: int, branch: string, college: string, semester: int, batch: int,
                        includeLateral: bool, examMonth: string, examYear: int) returns (r: Result<seq<Request>>)
    ensures r == SemesterRequests(regStart, regEnd, branch, college, semester, batch, includeLateral, examMonth, examYear)
  {
    var lateralCount := if includeLateral then LateralCount else 0;
    SemesterFromBlocks(regStart, regEnd, branch, college, semester, batch, includeLateral, examMonth, examYear);
    var regular := SubmitBlock([], batch, branch, college, regStart, RangeCount(regStart, regEnd), semester, batch, examMonth, examYear);
    if regular.Raises? {
      return Raises;
    }
    r := SubmitBlock(regular.value, batch + 1, branch, college, LateralFirst, lateralCount, semester, batch + 1, examMonth, examYear);
  }

  /** The semester's requests are the two blocks' requests, unless a non-empty block meets a semester with no numeral. */
  lemma SemesterFromBlocks(regStart: int, regEnd: int, branch: string, college: string, semester: int, batch: int,
                           includeLateral: bool, examMonth: string, examYear: int)
    ensures var count := RangeCount(regStart, regEnd);
      var lateralCount := if includeLateral then LateralCount else 0;
      var num := Numeral(semester);
      SemesterRequests(regStart, regEnd, branch, college, semester, batch, includeLateral, examMonth, examYear) ==
        if (count > 0 || lateralCount > 0) && Roman(semester).None? then Raises
        else Ok(([] + RequestsFor(Block(batch, branch, college, regStart, count), num, batch, examMonth, examYear)) +
                RequestsFor(Block(batch + 1, branch, college, LateralFirst, lateralCount), num, batch + 1, examMonth, examYear))
  {
    var regularIds := Block(batch, branch, college, regStart, RangeCount(regStart, regEnd));
    var lateralIds := Block(batch + 1, branch, college, LateralFirst, if includeLateral then LateralCount else 0);
    assert lateralIds == if includeLateral then Block(batch + 1, branch, college, LateralFirst, LateralCount) else [];
    assert [] + RequestsFor(regularIds, Numeral(semester), batch, examMonth, examYear) == RequestsFor(regularIds, Numeral(semester), batch, examMonth, examYear);
    if regularIds + lateralIds == [] {
      assert regularIds == [] && lateralIds == [];
    }
  }

  /**
   * One submission loop: a request for each of `count` sequence numbers from `first` on.
   * Looking up the Roman numeral of a bad semester raises KeyError at the first submission.
   */
  method SubmitBlock(futures: seq<Request>, batch: int, branch: string, college: string, first: int, count: nat,
                     semester: int, year: int, examMonth: string, examYear: int) returns (r: Result<seq<Request>>)
    ensures count > 0 && Roman(semester).None? ==> r == Raises
    ensures !(count > 0 && Roman(semester).None?) ==>
      r == Ok(futures + RequestsFor(Block(batch, branch, college, first, count), Numeral(semester), year, examMonth, examYear))
  {
    var acc := futures;
    for i := 0 to count
      invariant i > 0 ==> Roman(semester).Some?
      invariant acc == futures + RequestsFor(Block(batch, branch, college, first, i), Numeral(semester), year, examMonth, examYear)
    {
      var roman := Roman(semester);
      if roman.None? {
        return Raises;
      }
      var done := Block(batch, branch, college, first, i);
      var id := RegistrationNumber(batch, branch, college, first + i);
      var q := Request(id, roman.value, year, examMonth, examYear);
      BlockStep(batch, branch, college, first, i, first + i);
      RequestsForStep(done, id, roman.value, year, examMonth, examYear);
      AppendAssociative(futures, RequestsFor(done, roman.value, year, examMonth, examYear), [q]);
      acc := acc + [q];
    }
    r := Ok(acc);
  }

  /**
   * `fetch_semester_results` raises KeyError exactly when there is something to submit
   * and the semester is not 1..8. Otherwise it asks for the same registration numbers
   * `fetch_all_results` generates, in order, each once, all for the semester's Roman
   * numeral: the regular ones with `year=batch`, the lateral-entry ones with `year=batch + 1`.
   */
  lemma SemesterRequestsSpec(regStart: int, regEnd: int, branch: string, college: string, semester: int, batch: int,
                             includeLateral: bool, examMonth: string, examYear: int)
    ensures var r := SemesterRequests(regStart, regEnd, branch, college, semester, batch, includeLateral, examMonth, examYear);
      var ids := RegistrationNumbers(batch, branch, college, regStart, regEnd, includeLateral);
      (r.Raises? <==> ids != [] && !(1 <= semester <= 8)) &&
      (r.Ok? ==> (|r.value| == |ids| &&
        forall i :: 0 <= i < |ids| ==>
          r.value[i].registrationNo == ids[i] && r.value[i].semester == Roman(semester).value &&
          r.value[i].year == (if i < RangeCount(regStart, regEnd) then batch else batch + 1)))
  {
    var ids := RegistrationNumbers(batch, branch, college, regStart, regEnd, includeLateral);
    var n := RangeCount(regStart, regEnd);
    var regular := Block(batch, branch, college, regStart, n);
    var lateral := if includeLateral then Block(batch + 1, branch, college, LateralFirst, LateralCount) else [];
    assert ids == regular + lateral;
    var r := SemesterRequests(regStart, regEnd, branch, college, semester, batch, includeLateral, examMonth, examYear);
    if r.Ok? && ids != [] {
      var roman := Roman(semester).value;
      RequestsForAt(regular, roman, batch, examMonth, examYear);
      RequestsForAt(lateral, roman, batch + 1, examMonth, examYear);
      assert r.value == RequestsFor(regular, roman, batch, examMonth, examYear) + RequestsFor(lateral, roman, batch + 1, examMonth, examYear);
    }
  }

  /**
   * `fetch_semester_results(reg_start, reg_end, branch, college, semester, batch,
   * include_lateral, exam_month, exam_year)`.
   */
  method FetchSemesterResults(regStart: int, regEnd: int, branch: string, college: string, semester: int, batch: int,
                              includeLateral: bool, examMonth: string, examYear: int,
                              network: nat -> nat -> Attempt, completion: seq<nat>) returns (r: Result<seq<Json>>)
    requires SemesterRequests(regStart, regEnd, branch, college, semester, batch, includeLateral, examMonth, examYear).Ok? ==>
      IsOrder(completion, |SemesterRequests(regStart, regEnd, branch, college, semester, batch, includeLateral, examMonth, examYear).value|)
    ensures r.Raises? <==>
      SemesterRequests(regStart, regEnd, branch, college, semester, batch, includeLateral, examMonth, examYear).Raises? ||
      exists i :: 0 <= i < |SemesterRequests(regStart, regEnd, branch, college, semester, batch, includeLateral, examMonth, examYear).value| &&
        Outcomes(SemesterRequests(regStart, regEnd, branch, college, semester, batch, includeLateral, examMonth, examYear).value, network)[i].Raises?
    ensures r.Ok? ==>
      multiset(r.value) ==
        multiset(FilterMap(Outcomes(SemesterRequests(regStart, regEnd, branch, college, semester, batch, includeLateral, examMonth, examYear).value, network), Kept))
  {
    var submitted := SubmitSemester(regStart, regEnd, branch, college, semester, batch, includeLateral, examMonth, examYear);
    if submitted.Raises? {
      return Raises;
    }
    r := Collect(submitted.value, network, completion);
    GatherSpec(Outcomes(submitted.value, network), completion);
  }
}
