/** The retry recursion inside `add_query`: what reaches the driver on each attempt. */
module QueryRetry {
  import opened Text
  import opened SqlScanner

  /** A bound value: a datetime with its ISO text, or anything else. */
  datatype Binding = DateTime(iso: string) | Value(text: string)

  datatype Request = Request(sql: string, bindings: Option<seq<Binding>>)

  datatype Outcome = Success | RetryableError | OtherError

  /** The requests sent to the driver, in order, and how the last one ended. */
  datatype Report = Report(sent: seq<Request>, outcome: Outcome)

  function IsoFormatted(bindings: seq<Binding>): (r: seq<Binding>)
    ensures |r| == |bindings|
  {
    seq(|bindings|, i requires 0 <= i < |bindings| =>
      match bindings[i] case DateTime(iso) => Value(iso) case Value(text) => Value(text))
  }

  /** What one attempt sends: bindings formatted and, on ADBC, placeholders rewritten. */
  function Prepared(r: Request, adbc: bool): Request {
    match r.bindings
    case None => r
    case Some(bs) =>
      Request(if adbc then Rewrite(r.sql, |bs|) else r.sql, Some(IsoFormatted(bs)))
  }

  /** `_execute_query_with_retry`; `driver(k)` is how the k-th attempt ends. Each retry starts
      from the text and bindings the failed attempt sent. */
  function Execute(r: Request, adbc: bool, driver: nat -> Outcome, retryLimit: int, attempt: nat): Report
    decreases retryLimit - attempt
  {
    var p := Prepared(r, adbc);
    match driver(attempt)
    case Success => Report([p], Success)
    case OtherError => Report([p], OtherError)
    case RetryableError =>
      if attempt >= retryLimit then Report([p], RetryableError)
      else
        var rest := Execute(p, adbc, driver, retryLimit, attempt + 1);
        Report([p] + rest.sent, rest.outcome)
  }

  /** The number of attempts is bounded by `retries`, is at least one, and a retryable error
      surfaces only when every allowed attempt was spent. */
  lemma {:induction false} AttemptsBounded(r: Request, adbc: bool, driver: nat -> Outcome, retryLimit: int, attempt: nat)
    ensures var report := Execute(r, adbc, driver, retryLimit, attempt);
            var allowed := if retryLimit <= attempt then 1 else retryLimit - attempt + 1;
            && 1 <= |report.sent| <= allowed
            && (report.outcome == RetryableError ==> |report.sent| == allowed)
            && report.outcome == driver(attempt + |report.sent| - 1)
            && (forall k: nat :: attempt <= k < attempt + |report.sent| - 1 ==> driver(k) == RetryableError)
    decreases retryLimit - attempt
  {
    if driver(attempt) == RetryableError && attempt < retryLimit {
      var p := Prepared(r, adbc);
      AttemptsBounded(p, adbc, driver, retryLimit, attempt + 1);
    }
  }

  /** What the driver gets first: the bindings in order, a datetime as its ISO text, and the text as it is unless
      it is rewritten for ADBC. Without bindings it is the request itself. */
  lemma FirstSent(r: Request, adbc: bool, driver: nat -> Outcome, retryLimit: int, attempt: nat)
    ensures var first := Execute(r, adbc, driver, retryLimit, attempt).sent[0];
            if r.bindings.None? then first == r
            else
              && first.bindings.Some? && |first.bindings.value| == |r.bindings.value|
              && (forall i :: 0 <= i < |r.bindings.value| ==>
                    match r.bindings.value[i]
                    case DateTime(iso) => first.bindings.value[i] == Value(iso)
                    case Value(text) => first.bindings.value[i] == Value(text))
              && first.sql == (if adbc then Rewrite(r.sql, |r.bindings.value|) else r.sql)
  {
    assert Execute(r, adbc, driver, retryLimit, attempt).sent[0] == Prepared(r, adbc);
  }

  /** There are at least as many bindings as placeholders, or the text is not rewritten at all. */
  predicate FullyBound(r: Request, adbc: bool) {
    !adbc || r.bindings.None? || |r.bindings.value| == 0
    || Holes(Items(r.sql)) <= |r.bindings.value|
  }

  lemma PreparedTwice(r: Request, adbc: bool)
    ensures Prepared(Prepared(r, adbc), adbc) == Prepared(r, adbc) <==> FullyBound(r, adbc)
  {
    if r.bindings.Some? {
      var bs := r.bindings.value;
      assert IsoFormatted(IsoFormatted(bs)) == IsoFormatted(bs);
      if adbc {
        RewriteStable(r.sql, |bs|);
      }
    }
  }

  lemma {:induction false} FixedRequestRepeats(p: Request, adbc: bool, driver: nat -> Outcome, retryLimit: int, attempt: nat)
    requires Prepared(p, adbc) == p
    ensures forall k :: 0 <= k < |Execute(p, adbc, driver, retryLimit, attempt).sent| ==>
              Execute(p, adbc, driver, retryLimit, attempt).sent[k] == p
    decreases retryLimit - attempt
  {
    if driver(attempt) == RetryableError && attempt < retryLimit {
      FixedRequestRepeats(p, adbc, driver, retryLimit, attempt + 1);
    }
  }

  /** Every attempt sends the same text and bindings exactly when there was only one attempt
      or the first rewrite numbered every placeholder. */
  lemma RetriesRepeatTheRequest(r: Request, adbc: bool, driver: nat -> Outcome, retryLimit: int, attempt: nat)
    ensures var sent := Execute(r, adbc, driver, retryLimit, attempt).sent;
            (forall k :: 0 <= k < |sent| ==> sent[k] == Prepared(r, adbc))
            <==> |sent| == 1 || FullyBound(r, adbc)
  {
    var p := Prepared(r, adbc);
    var sent := Execute(r, adbc, driver, retryLimit, attempt).sent;
    AttemptsBounded(r, adbc, driver, retryLimit, attempt);
    PreparedTwice(r, adbc);
    if driver(attempt) == RetryableError && attempt < retryLimit {
      AttemptsBounded(p, adbc, driver, retryLimit, attempt + 1);
      if FullyBound(r, adbc) {
        FixedRequestRepeats(p, adbc, driver, retryLimit, attempt + 1);
      } else {
        assert sent[1] == Prepared(p, adbc);
      }
    }
  }

  /** Every attempt sends the prepared request. */
  predicate AllSame(r: Request, adbc: bool, driver: nat -> Outcome, retries: int) {
    var sent := Execute(r, adbc, driver, retries, 1).sent;
    forall k :: 0 <= k < |sent| ==> sent[k] == Prepared(r, adbc)
  }

  /** Whatever the driver answers, every attempt sends the same text and bindings: exactly when one attempt is
      allowed or the first rewrite numbers every placeholder. */
  lemma RetriesRepeatIff(r: Request, adbc: bool, retries: int)
    ensures (forall driver: nat -> Outcome :: AllSame(r, adbc, driver, retries)) <==> retries <= 1 || FullyBound(r, adbc)
  {
    hide Prepared, FullyBound, Execute;
    forall driver: nat -> Outcome
      ensures AllSame(r, adbc, driver, retries)
              <==> |Execute(r, adbc, driver, retries, 1).sent| == 1 || FullyBound(r, adbc)
      ensures retries <= 1 ==> |Execute(r, adbc, driver, retries, 1).sent| == 1
    {
      RetriesRepeatTheRequest(r, adbc, driver, retries, 1);
      AttemptsBounded(r, adbc, driver, retries, 1);
    }
    if retries > 1 && !FullyBound(r, adbc) {
      var driver: nat -> Outcome := k => RetryableError;
      AttemptsBounded(r, adbc, driver, retries, 1);
      assert !AllSame(r, adbc, driver, retries);
    }
  }

  /** One placeholder too many: a retried ADBC query does not send the text it sent first. */
  lemma UnderboundRetryDiffers()
    ensures var driver: nat -> Outcome := k => RetryableError;
            var sent := Execute(Request("??", Some([Value("x")])), true, driver, 2, 1).sent;
            |sent| == 2 && sent[0] != sent[1]
  {
    var driver: nat -> Outcome := k => RetryableError;
    var r := Request("??", Some([Value("x")]));
    assert "??"[1..] == "?";
    assert Items("??") == [HOLE] + ([HOLE] + []);
    RetriesRepeatTheRequest(r, true, driver, 2, 1);
    AttemptsBounded(r, true, driver, 2, 1);
  }
}
