/**
 * The sync pass (syncService.ts): take a snapshot of the offline queue, clear the
 * store, and deliver each operation in order with up to MAX_RETRIES attempts;
 * an operation whose attempts all fail is reported to the failure endpoint and
 * offered to the user, who may put it back on the queue.
 *
 * The network, the failure endpoint and the user's answer are inputs: `network(i, k)`
 * is what `fetch` does on attempt `k` for the operation at position `i` of the
 * snapshot, `notifier(i)` what the failure report's `fetch` does, and `answer(i)`
 * the button the user presses in that operation's prompt.
 */
module SyncService {
  import opened Wrappers
  import opened Text
  import opened OfflineQueue

  /** Delivery attempts per operation in one pass. */
  const MAX_RETRIES: nat := 3

  /** Where exhausted operations are reported. */
  const EDGE_FUNCTION_URL: string := "/functions/v1/sync-failure-email"

  /** What one `fetch` call does: resolve with an HTTP status, or throw (its `String(error)` text). */
  datatype FetchOutcome = Responded(status: int) | Threw(error: string)

  /** `res.ok`: the status lies in 200-299. */
  predicate IsOk(status: int)
  {
    200 <= status <= 299
  }

  /** The error `sendOperation` ends with: a non-ok status it turned into an error, or what `fetch` threw. */
  datatype SendError = RequestFailed(status: int) | FetchError(error: string)

  /** `sendOperation(op)` given what its `fetch` does: `None` when it returns normally, else the error it throws. */
  function SendOperation(outcome: FetchOutcome): (r: Option<SendError>)
    ensures r.None? <==> outcome.Responded? && IsOk(outcome.status)
    ensures outcome.Threw? ==> r == Some(FetchError(outcome.error))
    ensures outcome.Responded? && !IsOk(outcome.status) ==> r == Some(RequestFailed(outcome.status))
  {
    match outcome
    case Threw(e) => Some(FetchError(e))
    case Responded(status) => if IsOk(status) then None else Some(RequestFailed(status))
  }

  /** An attempt succeeds when `sendOperation` does not throw. */
  predicate Succeeds(outcome: FetchOutcome)
  {
    SendOperation(outcome).None?
  }

  /** A non-ok response fails an attempt exactly as a thrown error does, and an ok one is the only success. */
  lemma NonOkIsFailure(outcome: FetchOutcome)
    ensures Succeeds(outcome) <==> outcome.Responded? && IsOk(outcome.status)
    ensures outcome.Responded? && !IsOk(outcome.status) ==> SendOperation(outcome) == Some(RequestFailed(outcome.status))
  {
  }

  /** `String(error)` for the last error, as it goes into the failure report. */
  function ErrorText(e: SendError): string
  {
    match e
    case RequestFailed(status) => "Error: Request failed: " + IntToDecimal(status)
    case FetchError(text) => text
  }

  /** The POST `notifyFailure` sends: JSON carrying the operation and the error text. */
  datatype FailureReport = FailureReport(
    url: string,
    httpMethod: string,
    contentType: string,
    operation: OfflineOperation,
    error: string)

  /**
   * What `notifyFailure(op, error)` posts. Whatever its own `fetch` then does is caught and
   * dropped, so the pass never depends on it: see `ProcessQueue`, whose contract holds for
   * every `notifier`.
   */
  function FailureNotice(op: OfflineOperation, e: SendError): FailureReport
  {
    FailureReport(EDGE_FUNCTION_URL, "POST", "application/json", op, ErrorText(e))
  }

  /** The error text in a report carries the failing status without loss. */
  lemma ErrorTextDeterminesStatus(s1: int, s2: int)
    requires ErrorText(RequestFailed(s1)) == ErrorText(RequestFailed(s2))
    ensures s1 == s2
  {
    var prefix := "Error: Request failed: ";
    assert IntToDecimal(s1) == ErrorText(RequestFailed(s1))[|prefix|..];
    assert IntToDecimal(s2) == ErrorText(RequestFailed(s2))[|prefix|..];
    IntToDecimalInjective(s1, s2);
  }

  /**
   * How many attempts the retry loop makes for the operation at position `i`, counting
   * from attempt `k`: it stops after the first success or after attempt MAX_RETRIES - 1.
   */
  function AttemptsFrom(network: (nat, nat) -> FetchOutcome, i: nat, k: nat): (n: nat)
    requires k < MAX_RETRIES
    ensures k < n <= MAX_RETRIES
    ensures forall j | k <= j < n - 1 :: !Succeeds(network(i, j))
    ensures n < MAX_RETRIES ==> Succeeds(network(i, n - 1))
    decreases MAX_RETRIES - k
  {
    if Succeeds(network(i, k)) || k + 1 == MAX_RETRIES then k + 1 else AttemptsFrom(network, i, k + 1)
  }

  /** The number of delivery attempts for the operation at position `i` in one pass. */
  function Attempts(network: (nat, nat) -> FetchOutcome, i: nat): nat
  {
    AttemptsFrom(network, i, 0)
  }

  /** Every operation gets at least one and at most MAX_RETRIES attempts. */
  lemma AttemptsBounded(network: (nat, nat) -> FetchOutcome, i: nat)
    ensures 1 <= Attempts(network, i) <= MAX_RETRIES
  {
  }

  /** When attempt `k` is the first success, exactly k + 1 attempts are made and the last one succeeds. */
  lemma FirstSuccessCutoff(network: (nat, nat) -> FetchOutcome, i: nat, k: nat)
    requires k < MAX_RETRIES
    requires Succeeds(network(i, k))
    requires forall j | 0 <= j < k :: !Succeeds(network(i, j))
    ensures Attempts(network, i) == k + 1
    ensures Succeeds(network(i, Attempts(network, i) - 1))
  {
  }

  /** The last attempt fails exactly when every one of the MAX_RETRIES attempts fails, and then all were made. */
  lemma {:induction false} ExhaustedIffAllFail(network: (nat, nat) -> FetchOutcome, i: nat)
    ensures var n := Attempts(network, i);
      !Succeeds(network(i, n - 1)) <==> forall k | 0 <= k < MAX_RETRIES :: !Succeeds(network(i, k))
    ensures !Succeeds(network(i, Attempts(network, i) - 1)) ==> Attempts(network, i) == MAX_RETRIES
  {
    var n := Attempts(network, i);
    if !Succeeds(network(i, n - 1)) {
      assert n == MAX_RETRIES;
      forall k | 0 <= k < MAX_RETRIES
        ensures !Succeeds(network(i, k))
      {
        if k < n - 1 { } else { assert k == n - 1; }
      }
    }
  }

  /** The user's choice in the "sync failed, retry?" prompt. */
  datatype Answer = Retry | Close

  /** What became of one operation of the snapshot. */
  datatype Disposition =
    | Delivered
    | Escalated(report: FailureReport, answer: Answer)

  datatype OpReport = OpReport(op: OfflineOperation, attempts: nat, disposition: Disposition)

  /** What the pass does with the operation at position `i` of its snapshot. */
  function Handle(i: nat, op: OfflineOperation, network: (nat, nat) -> FetchOutcome, answer: nat -> Answer): (r: OpReport)
    ensures r.op == op && r.attempts == Attempts(network, i) && 1 <= r.attempts <= MAX_RETRIES
    ensures r.disposition.Escalated? <==> !Succeeds(network(i, r.attempts - 1))
    ensures r.disposition.Escalated? ==>
      && r.disposition.report.url == EDGE_FUNCTION_URL
      && r.disposition.report.operation == op
      && r.disposition.report.error == ErrorText(SendOperation(network(i, MAX_RETRIES - 1)).value)
      && r.disposition.answer == answer(i)
  {
    AttemptsBounded(network, i);
    ExhaustedIffAllFail(network, i);
    var n := Attempts(network, i);
    var last := network(i, n - 1);
    if Succeeds(last) then OpReport(op, n, Delivered)
    else OpReport(op, n, Escalated(FailureNotice(op, SendOperation(last).value), answer(i)))
  }

  /** Escalation (one failure report, one prompt) happens exactly when all MAX_RETRIES attempts fail. */
  lemma HandleEscalatesIffAllFail(i: nat, op: OfflineOperation, network: (nat, nat) -> FetchOutcome, answer: nat -> Answer)
    ensures var r := Handle(i, op, network, answer);
      && r.op == op
      && 1 <= r.attempts <= MAX_RETRIES
      && (r.disposition.Escalated? <==> forall k | 0 <= k < MAX_RETRIES :: !Succeeds(network(i, k)))
      && (r.disposition.Escalated? ==> r.attempts == MAX_RETRIES && r.disposition.report.operation == op
                                       && r.disposition.answer == answer(i))
  {
    ExhaustedIffAllFail(network, i);
  }

  /** The operations the user chose to put back, in the order of their prompts. */
  function Requeued(reports: seq<OpReport>): (ops: seq<OfflineOperation>)
    ensures |ops| <= |reports|
  {
    if |reports| == 0 then []
    else
      var last := reports[|reports| - 1];
      Requeued(reports[..|reports| - 1])
        + (if IsRequeued(last) then [last.op] else [])
  }

  /** An operation is put back only if it was escalated and the user answered Retry. */
  lemma {:induction false} RequeuedOnlyRetried(reports: seq<OpReport>, op: OfflineOperation)
    requires op in Requeued(reports)
    ensures exists r | r in reports :: r.op == op && IsRequeued(r)
    decreases |reports|
  {
    var prefix := reports[..|reports| - 1];
    var last := reports[|reports| - 1];
    if op in Requeued(prefix) {
      RequeuedOnlyRetried(prefix, op);
      var r :| r in prefix && r.op == op && IsRequeued(r);
      assert r in reports;
    } else {
      assert last in reports;
    }
  }

  /**
   * The retry loop of `processQueue` for the operation at position `i`: attempts stop at the
   * first success or after MAX_RETRIES; on failure `lastError` is the last attempt's error.
   */
  method DeliverWithRetries(network: (nat, nat) -> FetchOutcome, i: nat)
    returns (success: bool, attempts: nat, lastError: Option<SendError>)
    ensures attempts == Attempts(network, i)
    ensures 1 <= attempts <= MAX_RETRIES
    ensures success <==> Succeeds(network(i, attempts - 1))
    ensures forall k | 0 <= k < attempts - 1 :: !Succeeds(network(i, k))
    ensures !success ==> attempts == MAX_RETRIES && lastError == SendOperation(network(i, attempts - 1))
  {
    success := false;
    lastError := None;
    var attempt: nat := 0;
    while attempt < MAX_RETRIES && !success
      invariant attempt <= MAX_RETRIES
      invariant forall k | 0 <= k < attempt - 1 :: !Succeeds(network(i, k))
      invariant success ==> 1 <= attempt && Succeeds(network(i, attempt - 1)) && Attempts(network, i) == attempt
      invariant !success ==> forall k | 0 <= k < attempt :: !Succeeds(network(i, k))
      invariant !success && 0 < attempt ==> lastError == SendOperation(network(i, attempt - 1))
      invariant !success && attempt < MAX_RETRIES ==> Attempts(network, i) == AttemptsFrom(network, i, attempt)
      invariant !success && attempt == MAX_RETRIES ==> Attempts(network, i) == MAX_RETRIES
      decreases MAX_RETRIES - attempt
    {
      var result := SendOperation(network(i, attempt));
      if result.None? {
        success := true;
      } else {
        lastError := result;
      }
      attempt := attempt + 1;
    }
    attempts := attempt;
  }

  /** Whether the user put this operation back on the queue. */
  predicate IsRequeued(r: OpReport)
  {
    r.disposition.Escalated? && r.disposition.answer == Retry
  }

  /** Handling one more operation puts it back exactly when the user chose Retry. */
  lemma RequeuedSnoc(reports: seq<OpReport>, report: OpReport)
    ensures IsRequeued(report) ==> Requeued(reports + [report]) == Requeued(reports) + [report.op]
    ensures !IsRequeued(report) ==> Requeued(reports + [report]) == Requeued(reports)
  {
    assert (reports + [report])[..|reports|] == reports;
    assert Requeued(reports) + [] == Requeued(reports);
  }

  /**
   * One iteration of `processQueue`'s outer loop: deliver with retries; on exhaustion,
   * report the failure and ask the user, re-enqueuing the operation on Retry. The store
   * is touched only by that re-enqueue.
   */
  method HandleOperation(
    store: QueueStore,
    i: nat,
    op: OfflineOperation,
    network: (nat, nat) -> FetchOutcome,
    notifier: nat -> FetchOutcome,
    answer: nat -> Answer)
    returns (report: OpReport)
    modifies store
    ensures report == Handle(i, op, network, answer)
    ensures report.op == op
    ensures store.stored == if IsRequeued(report) then AfterEnqueue(old(store.stored), op) else old(store.stored)
  {
    var success, attempts, lastError := DeliverWithRetries(network, i);
    if success {
      report := OpReport(op, attempts, Delivered);
    } else {
      // `notifyFailure`: its own fetch (`notifier(i)`) is caught and dropped, so nothing here depends on it.
      var notice := FailureNotice(op, lastError.value);
      var choice := answer(i);
      if choice == Retry {
        store.Enqueue(op);
      }
      report := OpReport(op, attempts, Escalated(notice, choice));
    }
  }

  /**
   * `processQueue()`: the snapshot is taken and the store emptied before any delivery;
   * every snapshot operation, and nothing else, is handled, in snapshot order; afterwards
   * the store holds exactly the operations the user chose to retry.
   */
  method ProcessQueue(
    store: QueueStore,
    network: (nat, nat) -> FetchOutcome,
    notifier: nat -> FetchOutcome,
    answer: nat -> Answer)
    returns (reports: seq<OpReport>)
    modifies store
    ensures |reports| == |old(store.Contents())|
    ensures forall i | 0 <= i < |reports| :: reports[i] == Handle(i, old(store.Contents())[i], network, answer)
    ensures store.stored == EnqueueAll(None, Requeued(reports))
    ensures store.Contents() == Requeued(reports)
  {
    var queue := store.PeekQueue();
    store.ClearQueue();
    ghost var expected := seq(|queue|, j requires 0 <= j < |queue| => Handle(j, queue[j], network, answer));
    reports := [];
    for i := 0 to |queue|
      invariant reports == expected[..i]
      invariant store.stored == EnqueueAll(None, Requeued(reports))
    {
      var report := HandleOperation(store, i, queue[i], network, notifier, answer);
      RequeuedSnoc(reports, report);
      if IsRequeued(report) {
        EnqueueAllSnoc(None, Requeued(reports), report.op);
      }
      assert expected[..i + 1] == expected[..i] + [report];
      reports := reports + [report];
    }
    assert reports == expected;
    EnqueueAllAppends(None, Requeued(reports));
  }

  /**
   * The connectivity listener of `initSyncService`: a pass runs exactly when the new
   * state reports `isConnected` true; otherwise the store is left alone.
   */
  method OnConnectivityChange(
    store: QueueStore,
    isConnected: Option<bool>,
    network: (nat, nat) -> FetchOutcome,
    notifier: nat -> FetchOutcome,
    answer: nat -> Answer)
    returns (pass: Option<seq<OpReport>>)
    modifies store
    ensures isConnected != Some(true) ==> pass == None && store.stored == old(store.stored)
    ensures isConnected == Some(true) ==>
      pass.Some? && |pass.value| == |old(store.Contents())| && store.Contents() == Requeued(pass.value)
    ensures isConnected == Some(true) ==>
      && (forall i | 0 <= i < |pass.value| :: pass.value[i] == Handle(i, old(store.Contents())[i], network, answer))
      && store.stored == EnqueueAll(None, Requeued(pass.value))
  {
    if isConnected == Some(true) {
      var reports := ProcessQueue(store, network, notifier, answer);
      pass := Some(reports);
    } else {
      pass := None;
    }
  }
}
