/**
  The retry loop of internal/dispatcher/dispatcher.go: what a sequence of
  webhook results means for the execution.
 */
module Dispatch {
  import opened Options
  import opened ExecutionRows

  const MAX_ATTEMPTS := 4

  datatype SendError = DestinationBlocked | OtherError

  datatype WebhookResult = WebhookResult(statusCode: int, error: Option<SendError>)

  predicate IsSuccess(r: WebhookResult) {
    r.error.None? && 200 <= r.statusCode < 300
  }

  predicate IsRetryable(r: WebhookResult) {
    if r.error.Some? then !r.error.value.DestinationBlocked?
    else r.statusCode == 429 || r.statusCode >= 500
  }

  datatype Verdict = Deliver | GiveUp | Retry

  /** The decision after the last result of `sends` has been recorded. */
  function AfterSend(sends: seq<WebhookResult>): Verdict
    requires sends != []
  {
    var last := sends[|sends| - 1];
    if IsSuccess(last) then Deliver
    else if !IsRetryable(last) then GiveUp
    else if |sends| >= MAX_ATTEMPTS then GiveUp
    else Retry
  }

  /**
    The retry policy: only timeouts and other transport errors, "too many
    requests" and server errors are tried again, up to the fourth attempt; only a
    response of the 2xx class counts as delivered.
   */
  lemma RetryPolicy(sends: seq<WebhookResult>)
    requires sends != []
    ensures var last := sends[|sends| - 1];
            && (AfterSend(sends) == Deliver <==> last.error.None? && last.statusCode / 100 == 2)
            && (AfterSend(sends) == Retry <==>
                  && |sends| <= 3
                  && (last.error == Some(OtherError)
                      || (last.error.None? && (last.statusCode == 429 || last.statusCode / 100 >= 5))))
  {
  }

  /** Every result so far was a failure worth another attempt. */
  predicate OnlyRetryable(sends: seq<WebhookResult>) {
    forall r | r in sends :: IsRetryable(r) && !IsSuccess(r)
  }

  /** What a terminal status claims about the attempts behind it. */
  predicate Justifies(sends: seq<WebhookResult>, status: Status) {
    && 1 <= |sends| <= MAX_ATTEMPTS
    && OnlyRetryable(sends[..|sends| - 1])
    && var last := sends[|sends| - 1];
       match status
       case Delivered => IsSuccess(last)
       case Failed => !IsSuccess(last) && (!IsRetryable(last) || |sends| == MAX_ATTEMPTS)
       case _ => false
  }

  /** A result sequence justifies at most one terminal status, and none that could still be retried. */
  lemma JustificationIsExact(sends: seq<WebhookResult>, status: Status)
    requires sends != [] && |sends| <= MAX_ATTEMPTS && OnlyRetryable(sends[..|sends| - 1])
    ensures Justifies(sends, status) <==>
              match AfterSend(sends)
              case Deliver => status == Delivered
              case GiveUp => status == Failed
              case Retry => false
  {
  }

  /** Failed means failed: no attempt behind it succeeded. */
  lemma FailedMeansNoSuccess(sends: seq<WebhookResult>)
    requires Justifies(sends, Failed)
    ensures forall r | r in sends :: !IsSuccess(r)
  {
    forall r | r in sends
      ensures !IsSuccess(r)
    {
      var i :| 0 <= i < |sends| && sends[i] == r;
      if i < |sends| - 1 {
        assert sends[..|sends| - 1][i] == r;
      }
    }
  }

  /** What the loop sees around attempt i (counted from zero). */
  datatype Surroundings = Surroundings(
    backoffSurvived: bool,  // the lease context outlived the wait before this attempt
    renewed: bool,          // renewal succeeded and the context is still live before Send
    result: WebhookResult,
    stillOwner: bool        // the context is live after the attempt was recorded
  )

  datatype Ending = Concluded(status: Status) | OwnershipLost

  datatype BreakerReports = BreakerReports(successes: nat, failures: nat)

  /** The context was live at every check of this attempt. */
  predicate Owned(around: Surroundings, attempt: nat) {
    (attempt > 1 ==> around.backoffSurvived) && around.renewed && around.stillOwner
  }

  predicate OwnedThrough(env: seq<Surroundings>, n: nat)
    requires n <= |env|
  {
    forall i | 0 <= i < n :: Owned(env[i], i + 1)
  }

  function Results(env: seq<Surroundings>, n: nat): (results: seq<WebhookResult>)
    requires n <= |env|
    ensures |results| == n
    ensures forall i | 0 <= i < n :: results[i] == env[i].result
  {
    if n == 0 then [] else Results(env, n - 1) + [env[n - 1].result]
  }

  /**
    The loop stops with attempt n: ownership held throughout, all earlier results
    were worth a retry, and this one is not.
   */
  predicate Stops(env: seq<Surroundings>, n: nat)
    requires n <= |env|
  {
    n > 0 && OwnedThrough(env, n) && OnlyRetryable(Results(env, n - 1)) && AfterSend(Results(env, n)) != Retry
  }

  /** Ownership goes in attempt n: while it waits or renews, or once its result was recorded. */
  predicate LosesAt(env: seq<Surroundings>, n: nat, sent: nat)
    requires 0 < n <= |env|
  {
    && OwnedThrough(env, n - 1) && OnlyRetryable(Results(env, n - 1))
    && (if sent == n - 1 then (n > 1 && !env[n - 1].backoffSurvived) || !env[n - 1].renewed
        else sent == n && !env[n - 1].stillOwner)
  }

  /** After retryable results only, short of the limit, the loop goes on. */
  lemma RetryableGoesOn(env: seq<Surroundings>, n: nat, m: nat)
    requires 0 < n <= m <= |env| && n < MAX_ATTEMPTS && OnlyRetryable(Results(env, m))
    ensures AfterSend(Results(env, n)) == Retry
  {
    assert Results(env, m)[n - 1] == Results(env, n)[n - 1] == env[n - 1].result;
    assert env[n - 1].result in Results(env, m);
  }

  /** The surroundings leave one way to end: a stop excludes every other stop and every loss. */
  lemma StopsAlone(env: seq<Surroundings>, m: nat, n: nat, sent: nat)
    requires |env| == MAX_ATTEMPTS && m <= MAX_ATTEMPTS && 0 < n <= MAX_ATTEMPTS && Stops(env, m)
    ensures Stops(env, n) ==> n == m
    ensures !LosesAt(env, n, sent)
  {
    if n < m {
      RetryableGoesOn(env, n, m - 1);
    } else if m < n && OnlyRetryable(Results(env, n - 1)) {
      RetryableGoesOn(env, m, n - 1);
    }
    if n <= m {
      assert Owned(env[n - 1], n);
    }
  }

  /** The ending that the surroundings call for. */
  predicate Called(env: seq<Surroundings>, ending: Ending, sent: nat)
    requires |env| == MAX_ATTEMPTS && sent <= MAX_ATTEMPTS
  {
    match ending
    case Concluded(status) => Stops(env, sent) && Justifies(Results(env, sent), status)
    case OwnershipLost =>
      (sent < MAX_ATTEMPTS && LosesAt(env, sent + 1, sent)) || (sent > 0 && LosesAt(env, sent, sent))
  }

  /** Whatever the surroundings, a delivery concludes exactly if they let it stop, and after exactly that many sends. */
  lemma EndingIsDetermined(env: seq<Surroundings>, ending: Ending, sent: nat, n: nat)
    requires |env| == MAX_ATTEMPTS && sent <= MAX_ATTEMPTS && Called(env, ending, sent)
    requires 0 < n <= MAX_ATTEMPTS && Stops(env, n)
    ensures ending.Concluded? && sent == n
  {
    if ending.Concluded? {
      StopsAlone(env, sent, n, 0);
    } else {
      if sent < MAX_ATTEMPTS {
        StopsAlone(env, n, sent + 1, sent);
      }
      if sent > 0 {
        StopsAlone(env, n, sent, sent);
      }
    }
  }

  /**
    The loop from the first attempt to the call of complete(). It ends as the
    surroundings call for: with exactly the status the results justify at the
    attempt that has to be the last, or where ownership goes; every other exit
    writes nothing.
   */
  method DispatchOwned(env: seq<Surroundings>)
    returns (ending: Ending, sent: nat, breaker: BreakerReports)
    requires |env| == MAX_ATTEMPTS
    ensures sent <= MAX_ATTEMPTS && Called(env, ending, sent)
    ensures breaker.successes == if sent > 0 && IsSuccess(env[sent - 1].result) then 1 else 0
    ensures breaker.failures ==
            if ending == Concluded(Failed) && sent > 0 && env[sent - 1].result.error != Some(DestinationBlocked)
            then 1 else 0
  {
    sent := 0;
    var attempt := 1;
    while attempt <= MAX_ATTEMPTS
      invariant 1 <= attempt <= MAX_ATTEMPTS + 1 && sent == attempt - 1
      invariant OwnedThrough(env, sent) && OnlyRetryable(Results(env, sent))
    {
      var around := env[attempt - 1];
      if attempt > 1 && !around.backoffSurvived {
        return OwnershipLost, sent, BreakerReports(0, 0);
      }
      if !around.renewed {
        return OwnershipLost, sent, BreakerReports(0, 0);
      }
      var result := around.result;
      ghost var earlier := Results(env, sent);
      sent := sent + 1;
      var successes := if IsSuccess(result) then 1 else 0;
      assert Results(env, sent) == earlier + [result];
      if !around.stillOwner {
        return OwnershipLost, sent, BreakerReports(successes, 0);
      }
      assert Results(env, sent)[..sent - 1] == earlier;
      if IsSuccess(result) {
        return Concluded(Delivered), sent, BreakerReports(successes, 0);
      }
      if !IsRetryable(result) {
        return Concluded(Failed), sent, BreakerReports(0, if result.error == Some(DestinationBlocked) then 0 else 1);
      }
      attempt := attempt + 1;
    }
    assert Results(env, sent) == Results(env, sent - 1) + [env[sent - 1].result];
    assert Results(env, sent)[..sent - 1] == Results(env, sent - 1);
    assert env[sent - 1].result in Results(env, sent);
    return Concluded(Failed), sent, BreakerReports(0, 1);
  }
}
