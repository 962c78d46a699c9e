/**
  Runs of the ownership protocol, for every configuration. Every status that the
  attempts justify is reached by a run in which nothing goes wrong. And "a
  lost-ownership exit never writes a terminal status", which holds for every exit
  before complete() is called, fails for complete() itself: it can report a loss
  and the status is written all the same, before the call returns or after.
 */
module OwnershipRuns {
  import opened Options
  import opened ExecutionRows
  import opened LocalLease
  import opened Dispatch
  import opened Ownership
  import opened OwnershipSafety

  const KEY: Key := (0, 1)

  function Start(): State {
    State(0, map[], map[], map[], [])
  }

  function ClaimedRow(c: Config, node: Node): Row
    requires node in c.nodes
  {
    Row("", 0, InProgress, 1, Some(c.databaseOffset + DatabaseInterval(c.nodes[node].configuredLease)))
  }

  /** The owner of the first claim, made and granted at time 0. */
  function FirstOwner(c: Config, node: Node, pc: Pc, renewal: Renewal, sends: seq<WebhookResult>,
                      completion: Completion): Owner
    requires node in c.nodes
  {
    Owner(node, "", Lease(c.nodes[node].clockOffset + Duration(c, node), false), pc, renewal, 0, sends, completion)
  }

  /** An owner in the middle of its loop. */
  function Looping(c: Config, node: Node, pc: Pc, sends: seq<WebhookResult>): Owner
    requires node in c.nodes
  {
    FirstOwner(c, node, pc, Idle, sends, NotSent)
  }

  ghost predicate Stage(node: Node, s: State, row: Row, o: Owner) {
    s.now == 0 && s.table == map[0 := row] && s.owners == map[KEY := o] && o.node == node && o.ns == ""
  }

  lemma OwnerStage(c: Config, node: Node, steps: seq<Step>, step: Step, row: Row, o: Owner, o': Owner)
    requires node in c.nodes && IsOwnerStep(step) && step.key == KEY
    requires Stage(node, Run(c, Start(), steps), row, o) && o' == OwnerStep(c, Run(c, Start(), steps), step, o)
    requires o'.node == node && o'.ns == ""
    ensures Stage(node, Run(c, Start(), steps + [step]), row, o')
  {
    Snoc(c, Start(), steps, step);
    OwnerStepNext(c, Run(c, Start(), steps), step);
  }

  // ---------- Up to the loop ----------

  function ClaimSteps(node: Node): seq<Step> {
    [InsertRow(0, "", 0)] + [AskClaim(0, node, None, 1)] + [DbClaim(0, 0)]
  }

  lemma Claims(c: Config, node: Node)
    requires node in c.nodes
    ensures Stage(node, Run(c, Start(), ClaimSteps(node)), ClaimedRow(c, node), Looping(c, node, AwaitingGrant, []))
  {
    Snoc(c, Start(), [], InsertRow(0, "", 0));
    assert [] + [InsertRow(0, "", 0)] == [InsertRow(0, "", 0)];
    Snoc(c, Start(), [InsertRow(0, "", 0)], AskClaim(0, node, None, 1));
    Snoc(c, Start(), [InsertRow(0, "", 0)] + [AskClaim(0, node, None, 1)], DbClaim(0, 0));
    var inserted := Next(c, Start(), InsertRow(0, "", 0));
    var asked := Next(c, inserted, AskClaim(0, node, None, 1));
    assert asked.table == map[0 := Row("", 0, Emitted, 0, None)];
    assert asked.asks == map[0 := Ask(node, c.nodes[node].clockOffset, None, 1)];
  }

  function SetUpSteps(node: Node): seq<Step> {
    ClaimSteps(node) + [GrantReceived(KEY)] + [SetUp(KEY, Ready)]
  }

  lemma SetsUp(c: Config, node: Node)
    requires node in c.nodes
    ensures Stage(node, Run(c, Start(), SetUpSteps(node)), ClaimedRow(c, node), Looping(c, node, Renewing, []))
  {
    var row, steps := ClaimedRow(c, node), ClaimSteps(node);
    Claims(c, node);
    var granted := Looping(c, node, SettingUp, []);
    OwnerStage(c, node, steps, GrantReceived(KEY), row, Looping(c, node, AwaitingGrant, []), granted);
    OwnerStage(c, node, steps + [GrantReceived(KEY)], SetUp(KEY, Ready), row, granted, Looping(c, node, Renewing, []));
  }

  // ---------- One attempt ----------

  function RenewSteps(steps: seq<Step>): seq<Step> {
    steps + [AskRenew(KEY, true)] + [DbRenew(KEY)] + [RenewOk(KEY)]
  }

  lemma AsksRenewal(c: Config, node: Node, steps: seq<Step>, sends: seq<WebhookResult>)
    requires node in c.nodes
    requires Stage(node, Run(c, Start(), steps), ClaimedRow(c, node), Looping(c, node, Renewing, sends))
    ensures Stage(node, Run(c, Start(), steps + [AskRenew(KEY, true)]), ClaimedRow(c, node),
                  FirstOwner(c, node, Renewing, Asked(c.nodes[node].clockOffset, NotYet, true), sends, NotSent))
  {
    OwnerStage(c, node, steps, AskRenew(KEY, true), ClaimedRow(c, node), Looping(c, node, Renewing, sends),
               FirstOwner(c, node, Renewing, Asked(c.nodes[node].clockOffset, NotYet, true), sends, NotSent));
  }

  lemma RenewalAnswered(c: Config, node: Node, steps: seq<Step>, started: int, sends: seq<WebhookResult>)
    requires ValidConfig(c) && node in c.nodes
    requires Stage(node, Run(c, Start(), steps), ClaimedRow(c, node),
                   FirstOwner(c, node, Renewing, Asked(started, NotYet, true), sends, NotSent))
    ensures Stage(node, Run(c, Start(), steps + [DbRenew(KEY)]), ClaimedRow(c, node),
                  FirstOwner(c, node, Renewing, Asked(started, Yes, true), sends, NotSent))
  {
    Snoc(c, Start(), steps, DbRenew(KEY));
    LeaseDurationsAgree(c.nodes[node].configuredLease);
    assert HeldBy(c, Run(c, Start(), steps), KEY);
  }

  lemma RenewalRead(c: Config, node: Node, steps: seq<Step>, sends: seq<WebhookResult>)
    requires ValidConfig(c) && node in c.nodes
    requires Stage(node, Run(c, Start(), steps), ClaimedRow(c, node),
                   FirstOwner(c, node, Renewing, Asked(c.nodes[node].clockOffset, Yes, true), sends, NotSent))
    ensures Stage(node, Run(c, Start(), steps + [RenewOk(KEY)]), ClaimedRow(c, node), Looping(c, node, Sending, sends))
  {
    LeaseDurationsAgree(c.nodes[node].configuredLease);
    OwnerStage(c, node, steps, RenewOk(KEY), ClaimedRow(c, node),
               FirstOwner(c, node, Renewing, Asked(c.nodes[node].clockOffset, Yes, true), sends, NotSent),
               Looping(c, node, Sending, sends));
  }

  lemma Renews(c: Config, node: Node, steps: seq<Step>, sends: seq<WebhookResult>)
    requires ValidConfig(c) && node in c.nodes
    requires Stage(node, Run(c, Start(), steps), ClaimedRow(c, node), Looping(c, node, Renewing, sends))
    ensures Stage(node, Run(c, Start(), RenewSteps(steps)), ClaimedRow(c, node), Looping(c, node, Sending, sends))
  {
    AsksRenewal(c, node, steps, sends);
    RenewalAnswered(c, node, steps + [AskRenew(KEY, true)], c.nodes[node].clockOffset, sends);
    RenewalRead(c, node, steps + [AskRenew(KEY, true)] + [DbRenew(KEY)], sends);
  }

  function AttemptSteps(steps: seq<Step>, result: WebhookResult): seq<Step> {
    RenewSteps(steps) + [Send(KEY, result)] + [Record(KEY)]
  }

  /** Where the loop stands after an attempt, by the verdict on its results. */
  function AfterAttempt(sends: seq<WebhookResult>): Pc
    requires sends != []
  {
    match AfterSend(sends)
    case Deliver => Finishing(Delivered)
    case GiveUp => Finishing(Failed)
    case Retry => BackingOff
  }

  lemma Attempts(c: Config, node: Node, steps: seq<Step>, sends: seq<WebhookResult>, result: WebhookResult)
    requires ValidConfig(c) && node in c.nodes
    requires Stage(node, Run(c, Start(), steps), ClaimedRow(c, node), Looping(c, node, Renewing, sends))
    ensures Stage(node, Run(c, Start(), AttemptSteps(steps, result)), ClaimedRow(c, node),
                  Looping(c, node, AfterAttempt(sends + [result]), sends + [result]))
  {
    Renews(c, node, steps, sends);
    var recording := Looping(c, node, Recording, sends + [result]);
    OwnerStage(c, node, RenewSteps(steps), Send(KEY, result), ClaimedRow(c, node), Looping(c, node, Sending, sends),
               recording);
    OwnerStage(c, node, RenewSteps(steps) + [Send(KEY, result)], Record(KEY), ClaimedRow(c, node), recording,
               Looping(c, node, AfterAttempt(sends + [result]), sends + [result]));
  }

  // ---------- The loop ----------

  function RetrySteps(node: Node, results: seq<WebhookResult>): seq<Step> {
    if results == [] then SetUpSteps(node)
    else AttemptSteps(RetrySteps(node, results[..|results| - 1]), results[|results| - 1]) + [BackoffOver(KEY)]
  }

  lemma BacksOff(c: Config, node: Node, steps: seq<Step>, sends: seq<WebhookResult>)
    requires node in c.nodes
    requires Stage(node, Run(c, Start(), steps), ClaimedRow(c, node), Looping(c, node, BackingOff, sends))
    ensures Stage(node, Run(c, Start(), steps + [BackoffOver(KEY)]), ClaimedRow(c, node),
                  Looping(c, node, Renewing, sends))
  {
    OwnerStage(c, node, steps, BackoffOver(KEY), ClaimedRow(c, node), Looping(c, node, BackingOff, sends),
               Looping(c, node, Renewing, sends));
  }

  /** After results that are worth a retry, short of the limit, the loop stands before its next attempt. */
  lemma {:induction false} Retries(c: Config, node: Node, results: seq<WebhookResult>)
    requires ValidConfig(c) && node in c.nodes && OnlyRetryable(results) && |results| < MAX_ATTEMPTS
    ensures Stage(node, Run(c, Start(), RetrySteps(node, results)), ClaimedRow(c, node),
                  Looping(c, node, Renewing, results))
  {
    if results == [] {
      SetsUp(c, node);
    } else {
      var before, last := results[..|results| - 1], results[|results| - 1];
      assert results == before + [last] && last in results;
      Retries(c, node, before);
      Attempts(c, node, RetrySteps(node, before), before, last);
      BacksOff(c, node, AttemptSteps(RetrySteps(node, before), last), results);
    }
  }

  function FinishSteps(node: Node, results: seq<WebhookResult>): seq<Step>
    requires results != []
  {
    AttemptSteps(RetrySteps(node, results[..|results| - 1]), results[|results| - 1])
  }

  lemma Finishes(c: Config, node: Node, results: seq<WebhookResult>, status: Status)
    requires ValidConfig(c) && node in c.nodes && Justifies(results, status)
    ensures Stage(node, Run(c, Start(), FinishSteps(node, results)), ClaimedRow(c, node),
                  Looping(c, node, Finishing(status), results))
  {
    var before, last := results[..|results| - 1], results[|results| - 1];
    assert results == before + [last];
    Retries(c, node, before);
    Attempts(c, node, RetrySteps(node, before), before, last);
    JustificationIsExact(results, status);
  }

  // ---------- Completion ----------

  function CompleteSteps(node: Node, results: seq<WebhookResult>): seq<Step>
    requires results != []
  {
    FinishSteps(node, results) + [StopRenewal(KEY)] + [AskComplete(KEY)]
  }

  /** An owner that has sent its completion request. */
  function CompletingOwner(c: Config, node: Node, results: seq<WebhookResult>, status: Status): Owner
    requires node in c.nodes
  {
    FirstOwner(c, node, Completing(status), Idle, results, InFlight(status))
  }

  lemma CallsComplete(c: Config, node: Node, results: seq<WebhookResult>, status: Status)
    requires ValidConfig(c) && node in c.nodes && Justifies(results, status)
    ensures Stage(node, Run(c, Start(), CompleteSteps(node, results)), ClaimedRow(c, node),
                  CompletingOwner(c, node, results, status))
  {
    Finishes(c, node, results, status);
    var finishing := Looping(c, node, Finishing(status), results);
    OwnerStage(c, node, FinishSteps(node, results), StopRenewal(KEY), ClaimedRow(c, node), finishing, finishing);
    OwnerStage(c, node, FinishSteps(node, results) + [StopRenewal(KEY)], AskComplete(KEY), ClaimedRow(c, node),
               finishing, CompletingOwner(c, node, results, status));
  }

  lemma CompletionLands(c: Config, node: Node, steps: seq<Step>, o: Owner, status: Status)
    requires ValidConfig(c) && node in c.nodes && o.completion == InFlight(status)
    requires Stage(node, Run(c, Start(), steps), ClaimedRow(c, node), o)
    ensures Stage(node, Run(c, Start(), steps + [DbComplete(KEY)]), Completed(ClaimedRow(c, node), status),
                  o.(completion := Written(status)))
  {
    Snoc(c, Start(), steps, DbComplete(KEY));
    LeaseDurationsAgree(c.nodes[node].configuredLease);
    assert HeldBy(c, Run(c, Start(), steps), KEY);
  }

  /**
    Whatever results justify a status, there is a run in which an owner sends
    exactly these, completes, and leaves the row with that status.
   */
  lemma EveryVerdictIsReached(c: Config, node: Node, results: seq<WebhookResult>, status: Status)
    returns (steps: seq<Step>)
    requires ValidConfig(c) && node in c.nodes && Justifies(results, status)
    ensures Init(Start())
    ensures var s := Run(c, Start(), steps);
            && KEY in s.owners && s.owners[KEY].pc == Exited(Returned(false)) && s.owners[KEY].sends == results
            && 0 in s.table && s.table[0].status == status && s.table[0].generation == 1
  {
    CallsComplete(c, node, results, status);
    var o := CompletingOwner(c, node, results, status);
    CompletionLands(c, node, CompleteSteps(node, results), o, status);
    var written := o.(completion := Written(status));
    steps := CompleteSteps(node, results) + [DbComplete(KEY)];
    OwnerStage(c, node, steps, CompleteReturned(KEY), Completed(ClaimedRow(c, node), status), written,
               Exit(written, Returned(false)));
    steps := steps + [CompleteReturned(KEY)];
  }

  // ---------- The write and the loss ----------

  lemma LossReported(c: Config, node: Node, steps: seq<Step>, row: Row, o: Owner)
    requires node in c.nodes && o.pc.Completing?
    requires Stage(node, Run(c, Start(), steps), row, o)
    ensures Stage(node, Run(c, Start(), steps + [OperationTimeout(KEY)] + [CompleteReturned(KEY)]), row,
                  Exit(o.(lease := Cancelled(o.lease)), Returned(true)))
  {
    var revoked := o.(lease := Cancelled(o.lease));
    OwnerStage(c, node, steps, OperationTimeout(KEY), row, o, revoked);
    OwnerStage(c, node, steps + [OperationTimeout(KEY)], CompleteReturned(KEY), row, revoked,
               Exit(revoked, Returned(true)));
  }

  /** complete() has reported the lease as lost, and the row has the status at that generation. */
  ghost predicate LostButWritten(s: State, status: Status) {
    && KEY in s.owners && s.owners[KEY].pc == Exited(Returned(true))
    && 0 in s.table && s.table[0].status == status && s.table[0].generation == 1
  }

  /** The write lands, the lease is revoked before the reply, and complete() reports the loss. */
  lemma LossReportedAfterWrite(c: Config, node: Node, results: seq<WebhookResult>, status: Status)
    returns (steps: seq<Step>)
    requires ValidConfig(c) && node in c.nodes && Justifies(results, status)
    ensures Init(Start()) && LostButWritten(Run(c, Start(), steps), status)
  {
    CallsComplete(c, node, results, status);
    var o := CompletingOwner(c, node, results, status);
    CompletionLands(c, node, CompleteSteps(node, results), o, status);
    steps := CompleteSteps(node, results) + [DbComplete(KEY)];
    LossReported(c, node, steps, Completed(ClaimedRow(c, node), status), o.(completion := Written(status)));
    steps := steps + [OperationTimeout(KEY)] + [CompleteReturned(KEY)];
  }

  /** complete() gives up and reports the loss, and its request reaches the database only then. */
  lemma WriteLandsAfterLoss(c: Config, node: Node, results: seq<WebhookResult>, status: Status)
    returns (steps: seq<Step>)
    requires ValidConfig(c) && node in c.nodes && Justifies(results, status)
    ensures Init(Start()) && LostButWritten(Run(c, Start(), steps + [DbComplete(KEY)]), status)
    ensures var s := Run(c, Start(), steps);
            && KEY in s.owners && s.owners[KEY].pc == Exited(Returned(true))
            && 0 in s.table && s.table[0].status == InProgress
  {
    CallsComplete(c, node, results, status);
    var o := CompletingOwner(c, node, results, status);
    LossReported(c, node, CompleteSteps(node, results), ClaimedRow(c, node), o);
    steps := CompleteSteps(node, results) + [OperationTimeout(KEY)] + [CompleteReturned(KEY)];
    CompletionLands(c, node, steps, Exit(o.(lease := Cancelled(o.lease)), Returned(true)), status);
  }
}
