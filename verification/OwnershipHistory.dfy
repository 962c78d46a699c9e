/**
  What ends a delivery ends it for good, every completion request is judged once
  by who holds the row, and the statement log accounts for every claim and every
  end.
 */
module OwnershipHistory {
  import opened Options
  import opened ExecutionRows
  import opened LocalLease
  import opened Dispatch
  import opened Ownership
  import opened OwnershipSafety
  import opened OwnershipProgress

  // ---------- What ends a delivery ----------

  /** The step takes the lease from the owner: every way in which a dispatcher learns that it must stop. */
  predicate Ends(c: Config, s: State, key: Key, step: Step)
    requires key in s.owners && s.owners[key].node in c.nodes
  {
    var o := s.owners[key];
    match step
    case GrantLost(k) => k == key && o.pc.AwaitingGrant?
    case SetUp(k, outcome) => k == key && o.pc.SettingUp? && outcome != Ready
    case RenewError(k) => k == key && o.renewal.Asked?
    case WatchExpiry(k) =>
      k == key && !o.pc.AwaitingGrant? && !o.pc.Exited? && o.lease.deadline <= s.now + c.nodes[o.node].clockOffset
    case OperationTimeout(k) => k == key && !o.pc.AwaitingGrant? && !o.pc.Exited?
    case CompleteReturned(k) => k == key && o.pc.Completing?
    case Crash(node) => node == o.node && !o.pc.Exited?
    case _ => false
  }

  lemma EndingRevokes(c: Config, s: State, key: Key, step: Step)
    requires key in s.owners && s.owners[key].node in c.nodes && Ends(c, s, key, step)
    ensures key in Next(c, s, step).owners && Stands(s.owners[key].(lease := Cancelled(s.owners[key].lease)),
                                                     Next(c, s, step).owners[key])
  {
  }

  /**
    In every run: after a lost grant, a failed or refused setup, a renewal error,
    an expired deadline, a timeout, a returned completion or a crash, the owner
    sends nothing more and asks for no completion, whatever happens next.
   */
  lemma EndedForGood(c: Config, s: State, steps: seq<Step>, step: Step, more: seq<Step>, key: Key)
    requires ValidConfig(c) && Init(s) && key in Run(c, s, steps).owners
    requires Run(c, s, steps).owners[key].node in c.nodes && Ends(c, Run(c, s, steps), key, step)
    ensures key in Run(c, s, steps + [step] + more).owners
    ensures var o, o' := Run(c, s, steps).owners[key], Run(c, s, steps + [step] + more).owners[key];
            && o'.sends == o.sends && o'.lease.cancelled
            && (o.completion.NotSent? ==> o'.completion.NotSent?)
  {
    EndingRevokes(c, Run(c, s, steps), key, step);
    Snoc(c, s, steps, step);
    RevokedStopsForGood(c, s, steps + [step], more, key, Run(c, s, steps + [step]).owners[key]);
  }

  /** An execution whose webhook is unusable or whose circuit is open is never called and never completed. */
  lemma RefusedSetupNeverCalls(c: Config, s: State, steps: seq<Step>, more: seq<Step>, key: Key, outcome: Setup)
    requires ValidConfig(c) && Init(s) && key in Run(c, s, steps).owners
    requires Run(c, s, steps).owners[key].pc.SettingUp? && outcome != Ready
    ensures key in Run(c, s, steps + [SetUp(key, outcome)] + more).owners
    ensures var o := Run(c, s, steps + [SetUp(key, outcome)] + more).owners[key];
            o.sends == [] && o.completion.NotSent?
  {
    RunKeepsInv(c, s, steps);
    assert OwnerInv(c, Run(c, s, steps), key);
    EndedForGood(c, s, steps, SetUp(key, outcome), more, key);
  }

  // ---------- Completions are judged once ----------

  /** A completion request is written exactly if its generation holds the row at that moment, else rejected. */
  lemma CompletionIsJudged(c: Config, s: State, key: Key)
    requires key in s.owners && s.owners[key].completion.InFlight?
    ensures var (s', o) := (Next(c, s, DbComplete(key)), s.owners[key]);
            var held := && key.0 in s.table && s.table[key.0].ns == o.ns && s.table[key.0].status.InProgress?
                        && s.table[key.0].generation == key.1 && s.table[key.0].lease.Some?
                        && s.now + c.databaseOffset < s.table[key.0].lease.value;
            && key in s'.owners
            && s'.owners[key].completion == (if held then Written(o.completion.status) else Rejected)
            && (held ==> s'.table[key.0] == s.table[key.0].(status := o.completion.status, lease := None))
            && (!held ==> s'.table == s.table)
            && Next(c, s', DbComplete(key)) == s'
  {
  }

  /** Stopping the background renewal before a completion neither revokes the lease nor answers the renewal. */
  lemma StoppingRenewalKeepsTheLease(c: Config, s: State, steps: seq<Step>, key: Key)
    requires ValidConfig(c) && Init(s) && key in Run(c, s, steps).owners && Run(c, s, steps).owners[key].pc.Finishing?
    ensures var a := Run(c, s, steps);
            var b := Run(c, s, steps + [StopRenewal(key)] + [AskComplete(key)]);
            && key in b.owners
            && (if a.owners[key].lease.cancelled then b.owners[key].pc == Exited(LostBeforeCompletion)
                else b.owners[key].completion == InFlight(a.owners[key].pc.status)
                     && b.owners[key].lease == a.owners[key].lease)
  {
    RunKeepsInv(c, s, steps);
    var a := Run(c, s, steps);
    assert OwnerInv(c, a, key);
    Snoc(c, s, steps, StopRenewal(key));
    Snoc(c, s, steps + [StopRenewal(key)], AskComplete(key));
    StopsThenAsks(c, a, key);
  }

  lemma StopsThenAsks(c: Config, s: State, key: Key)
    requires key in s.owners && s.owners[key].node in c.nodes && s.owners[key].pc.Finishing?
    ensures var s' := Next(c, Next(c, s, StopRenewal(key)), AskComplete(key));
            && key in s'.owners
            && (if s.owners[key].lease.cancelled then s'.owners[key].pc == Exited(LostBeforeCompletion)
                else s'.owners[key].completion == InFlight(s.owners[key].pc.status)
                     && s'.owners[key].lease == s.owners[key].lease)
  {
    OwnerStepNext(c, s, StopRenewal(key));
    OwnerStepNext(c, Next(c, s, StopRenewal(key)), AskComplete(key));
  }

  // ---------- The log is complete ----------

  /** The log only grows, and what became terminal, was requeued or was claimed is in it. */
  ghost predicate Tells(s: State, s': State) {
    && s.log <= s'.log
    && (forall id | id in s'.table && Terminal(s'.table[id].status)
                    && !(id in s.table && s'.table[id] == s.table[id]) ::
          EndEvent(id, s'.table[id].generation, s'.table[id].status) in s'.log)
    && (forall id | id in s'.table && s'.table[id].status.Emitted? && s'.table[id].generation > 0
                    && !(id in s.table && s'.table[id] == s.table[id]) ::
          RequeueEvent(id, s'.table[id].generation) in s'.log)
    && (forall key | key in s'.owners ::
          || (key in s.owners && s'.owners[key].node == s.owners[key].node)
          || ClaimEvent(key.0, key.1, s'.owners[key].node) in s'.log)
  }

  lemma OwnerStepTells(c: Config, s: State, step: Step)
    requires IsOwnerStep(step)
    ensures Tells(s, Next(c, s, step))
  {
    if step.key in s.owners && s.owners[step.key].node in c.nodes {
      OwnerStepKeepsNs(c, s, step, s.owners[step.key]);
      OwnerStepNext(c, s, step);
    }
  }

  lemma LocalStepTells(c: Config, s: State, step: Step)
    requires step.Tick? || step.AskClaim? || step.Crash?
    ensures Tells(s, Next(c, s, step))
  {
  }

  lemma StoreStepTells(c: Config, s: State, step: Step)
    requires step.InsertRow? || step.LegacyUpdate? || step.Requeue?
    ensures Tells(s, Next(c, s, step))
  {
    var s' := Next(c, s, step);
    if s' != s && !step.InsertRow? && s'.log != s.log {
      assert s'.log[|s.log|] in s'.log;
    }
  }

  lemma ClaimTells(c: Config, s: State, request: nat, id: Id)
    ensures Tells(s, DbClaimStep(c, s, request, id))
  {
    var s' := DbClaimStep(c, s, request, id);
    if s' != s {
      assert s'.log[|s.log|] in s'.log;
    }
  }

  lemma RenewTells(c: Config, s: State, key: Key)
    ensures Tells(s, DbRenewStep(c, s, key))
  {
  }

  lemma AbandonedRenewTells(c: Config, s: State, key: Key)
    ensures Tells(s, DbRenewAbandonedStep(c, s, key))
  {
  }

  lemma CompleteTells(c: Config, s: State, key: Key)
    requires Inv(c, s)
    ensures Tells(s, DbCompleteStep(c, s, key))
  {
    var s' := DbCompleteStep(c, s, key);
    assert key in s.owners ==> OwnerInv(c, s, key);
    if s'.log != s.log {
      assert s'.log[|s.log|] in s'.log;
    }
  }

  lemma DbStepTells(c: Config, s: State, step: Step, s': State)
    requires Inv(c, s) && s' == Next(c, s, step)
    requires step.DbClaim? || step.DbRenew? || step.DbRenewAbandoned? || step.DbComplete?
    ensures Tells(s, s')
  {
    match step
    case DbClaim(request, id) => ClaimTells(c, s, request, id);
    case DbRenew(key) => RenewTells(c, s, key);
    case DbRenewAbandoned(key) => AbandonedRenewTells(c, s, key);
    case DbComplete(key) => CompleteTells(c, s, key);
  }

  lemma NextTells(c: Config, s: State, step: Step, s': State)
    requires Inv(c, s) && s' == Next(c, s, step)
    ensures Tells(s, s')
  {
    if step.DbClaim? || step.DbRenew? || step.DbRenewAbandoned? || step.DbComplete? {
      DbStepTells(c, s, step, s');
    } else if step.InsertRow? || step.LegacyUpdate? || step.Requeue? {
      StoreStepTells(c, s, step);
    } else if IsOwnerStep(step) {
      OwnerStepTells(c, s, step);
    } else {
      LocalStepTells(c, s, step);
    }
  }

  /**
    Every owner was claimed, every row that became terminal since the start has
    its end on record, and every row that waits again has its requeue.
   */
  ghost predicate Recorded(start: State, s: State) {
    && (forall id | id in s.table && Terminal(s.table[id].status)
                    && !(id in start.table && Terminal(start.table[id].status)) ::
          EndEvent(id, s.table[id].generation, s.table[id].status) in s.log)
    && (forall id | id in s.table && s.table[id].status.Emitted? && s.table[id].generation > 0 ::
          RequeueEvent(id, s.table[id].generation) in s.log)
    && (forall key | key in s.owners :: ClaimEvent(key.0, key.1, s.owners[key].node) in s.log)
  }

  lemma TellingRecords(start: State, s: State, s': State)
    requires Recorded(start, s) && Tells(s, s')
    ensures Recorded(start, s')
  {
    forall id | id in s'.table && Terminal(s'.table[id].status)
                && !(id in start.table && Terminal(start.table[id].status))
      ensures EndEvent(id, s'.table[id].generation, s'.table[id].status) in s'.log
    {
    }
  }

  /**
    After every run the log is complete: each row that ended since the start has
    its end on record with its generation and status, each row that waits again
    its requeue, and each owner its claim.
   */
  lemma {:induction false} HistoryIsComplete(c: Config, s: State, steps: seq<Step>)
    requires ValidConfig(c) && Init(s)
    ensures Recorded(s, Run(c, s, steps))
  {
    if steps != [] {
      var before, step := steps[..|steps| - 1], steps[|steps| - 1];
      HistoryIsComplete(c, s, before);
      RunKeepsInv(c, s, before);
      var mid := Run(c, s, before);
      NextTells(c, mid, step, Next(c, mid, step));
      TellingRecords(s, mid, Next(c, mid, step));
    }
  }

  // ---------- A request takes what it asked for ----------

  /** The rows that the claims of one request took. */
  function TakenBy(c: Config, s: State, steps: seq<Step>, request: nat): seq<Id> {
    if steps == [] then []
    else
      var before, step := steps[..|steps| - 1], steps[|steps| - 1];
      var mid := Run(c, s, before);
      if step.DbClaim? && step.request == request && Next(c, mid, step).log != mid.log
      then TakenBy(c, s, before, request) + [step.id] else TakenBy(c, s, before, request)
  }

  /** A claim takes a row exactly if it is emitted, a slot is left, and the request names it or none. */
  lemma ClaimIsExact(c: Config, s: State, request: nat, id: Id)
    requires Inv(c, s) && request in s.asks
    ensures var (s', ask) := (Next(c, s, DbClaim(request, id)), s.asks[request]);
            var takes := && id in s.table && s.table[id].status == Emitted && ask.slots > 0
                         && (ask.only.None? || ask.only == Some((id, s.table[id].ns)));
            && request in s'.asks
            && (if takes then s'.asks[request] == ask.(slots := ask.slots - 1) && s'.log != s.log
                              && (id, s.table[id].generation + 1) in s'.owners
                              && s'.owners[(id, s.table[id].generation + 1)].node == ask.node
                else s' == s)
  {
    assert AskInv(c, s, request);
    var s' := Next(c, s, DbClaim(request, id));
    assert s' != s ==> |s'.log| == |s.log| + 1;
  }

  lemma OtherStepKeepsAsk(c: Config, s: State, step: Step, request: nat)
    requires request in s.asks && !(step.DbClaim? && step.request == request)
    ensures request in Next(c, s, step).asks && Next(c, s, step).asks[request] == s.asks[request]
  {
  }

  /** A request takes at most as many rows as it has slots, and a direct claim takes the named row only. */
  lemma {:induction false} RequestTakesWhatItAsked(c: Config, s: State, steps: seq<Step>, request: nat)
    requires Inv(c, s) && request in s.asks
    ensures var (end, taken) := (Run(c, s, steps), TakenBy(c, s, steps, request));
            && request in end.asks && |taken| + end.asks[request].slots == s.asks[request].slots
            && end.asks[request].only == s.asks[request].only
            && (s.asks[request].only.Some? ==> forall id | id in taken :: id == s.asks[request].only.value.0)
  {
    if steps != [] {
      var before, step := steps[..|steps| - 1], steps[|steps| - 1];
      RequestTakesWhatItAsked(c, s, before, request);
      RunAdvances(c, s, before);
      var mid := Run(c, s, before);
      if step.DbClaim? && step.request == request {
        ClaimIsExact(c, mid, request, step.id);
      } else {
        OtherStepKeepsAsk(c, mid, step, request);
      }
    }
  }
}
