/** `MyErrorHandler` of the foo example module: the error handler installed
    while the module is generated. It counts the wrappers that failed to
    generate and always tells the generator to carry on without them. */
module ErrorHandler {

  /** One call of `handle_error`: the wrapper that failed and the exception
      it raised. The traceback argument is never read. */
  datatype ErrorReport = ErrorReport(wrapper: string, exception: string)

  /** The handler's one field, `num_errors`. */
  datatype Counter = Counter(numErrors: nat)

  /** The handler as constructed. */
  const Fresh := Counter(0)

  /** `handle_error`: count the error and answer `True`, "continue". The
      message written to standard error is not modelled. */
  function HandleError(h: Counter, report: ErrorReport): (r: (bool, Counter))
    ensures r.0
    ensures r.1.numErrors == h.numErrors + 1
  {
    (true, Counter(h.numErrors + 1))
  }

  /** Report `reports` to the handler in order, collecting its answers. */
  function HandleAll(h: Counter, reports: seq<ErrorReport>): (r: (seq<bool>, Counter))
    decreases |reports|
  {
    if |reports| == 0 then ([], h)
    else
      var (answer, next) := HandleError(h, reports[0]);
      var (answers, last) := HandleAll(next, reports[1..]);
      ([answer] + answers, last)
  }

  /** Every report is answered "continue", and the count grows by exactly
      the number of reports. */
  lemma {:induction false} HandleAllCounts(h: Counter, reports: seq<ErrorReport>)
    ensures |HandleAll(h, reports).0| == |reports|
    ensures forall i :: 0 <= i < |reports| ==> HandleAll(h, reports).0[i]
    ensures HandleAll(h, reports).1.numErrors == h.numErrors + |reports|
    decreases |reports|
  {
    if |reports| > 0 {
      HandleAllCounts(HandleError(h, reports[0]).1, reports[1..]);
    }
  }

  /** After `n` errors a fresh handler's `num_errors` is `n`. */
  lemma CountFromFresh(reports: seq<ErrorReport>)
    ensures HandleAll(Fresh, reports).1.numErrors == |reports|
  {
    HandleAllCounts(Fresh, reports);
  }

  /** Reporting in two batches counts the same as reporting all at once. */
  lemma {:induction false} HandleAllSplit(h: Counter, first: seq<ErrorReport>, second: seq<ErrorReport>)
    ensures HandleAll(h, first + second).1 == HandleAll(HandleAll(h, first).1, second).1
    decreases |first|
  {
    if |first| > 0 {
      assert (first + second)[1..] == first[1..] + second;
      HandleAllSplit(HandleError(h, first[0]).1, first[1..], second);
    } else {
      assert first + second == second;
    }
  }

  /** The handler object as the generator holds it. */
  class MyErrorHandler {
    var numErrors: nat

    constructor ()
      ensures numErrors == 0
    {
      numErrors := 0;
    }

    method HandleErrorCall(report: ErrorReport) returns (keepGoing: bool)
      modifies this
      ensures keepGoing
      ensures numErrors == old(numErrors) + 1
    {
      var (answer, next) := HandleError(Counter(numErrors), report);
      numErrors := next.numErrors;
      keepGoing := answer;
    }
  }
}
