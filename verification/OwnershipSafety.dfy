/** Safety of execution ownership over every run. */
module OwnershipSafety {
  import opened Options
  import opened ExecutionRows
  import opened LocalLease
  import opened Dispatch
  import opened Ownership

  // ---------- The invariant is kept by every step ----------

  lemma InitInv(c: Config, s: State)
    requires ValidConfig(c) && Init(s)
    ensures Inv(c, s)
  {
  }

  lemma TickKeeps(c: Config, s: State, elapsed: nat)
    requires Inv(c, s)
    ensures Inv(c, Next(c, s, Tick(elapsed)))
  {
    var s' := Next(c, s, Tick(elapsed));
    forall key | key in s'.owners
      ensures OwnerInv(c, s', key)
    {
      assert OwnerInv(c, s, key);
    }
  }

  lemma InsertRowKeeps(c: Config, s: State, id: Id, ns: string, createdAt: int)
    requires Inv(c, s)
    ensures Inv(c, InsertRowStep(s, id, ns, createdAt))
  {
    var s' := InsertRowStep(s, id, ns, createdAt);
    forall key | key in s'.owners
      ensures OwnerInv(c, s', key)
    {
      assert OwnerInv(c, s, key);
    }
  }

  lemma LegacyUpdateKeeps(c: Config, s: State, id: Id, status: Status)
    requires Inv(c, s)
    ensures Inv(c, LegacyUpdateStep(s, id, status))
  {
    var s' := LegacyUpdateStep(s, id, status);
    forall key | key in s'.owners
      ensures OwnerInv(c, s', key)
    {
      assert OwnerInv(c, s, key);
    }
  }

  lemma RequeueKeeps(c: Config, s: State, id: Id)
    requires Inv(c, s)
    ensures Inv(c, RequeueStep(c, s, id))
  {
    var s' := RequeueStep(c, s, id);
    if s' != s {
      assert RowInv(s, id);
      forall key | key in s'.owners
        ensures OwnerInv(c, s', key)
      {
        assert OwnerInv(c, s, key);
      }
    }
  }

  lemma DbClaimKeeps(c: Config, s: State, request: nat, id: Id)
    requires Inv(c, s)
    ensures Inv(c, DbClaimStep(c, s, request, id))
  {
    var s' := DbClaimStep(c, s, request, id);
    if ClaimGuard(c, s, request, id) {
      var ask := s.asks[request];
      var granted := (id, s.table[id].generation + 1);
      LeaseDurationsAgree(c.nodes[ask.node].configuredLease);
      assert AskInv(c, s, request);
      forall key | key in s'.owners
        ensures OwnerInv(c, s', key)
      {
        if key != granted {
          assert OwnerInv(c, s, key);
        }
      }
      forall i | i in s'.table
        ensures RowInv(s', i)
      {
        assert RowInv(s, i);
      }
    }
  }

  /** Renewing never shortens a lease, because every earlier lease was granted no later than now. */
  lemma RenewTableKeeps(c: Config, s: State, key: Key, s': State)
    requires Inv(c, s) && HeldBy(c, s, key)
    requires s'.now == s.now && s'.asks == s.asks && s'.owners == s.owners
    requires s'.table == RenewedTable(c, s, key)
    ensures Inv(c, s')
  {
    assert OwnerInv(c, s, key);
    LeaseDurationsAgree(c.nodes[s.owners[key].node].configuredLease);
    forall k | k in s'.owners
      ensures OwnerInv(c, s', k)
    {
      assert OwnerInv(c, s, k);
    }
    forall i | i in s'.table
      ensures RowInv(s', i)
    {
      assert RowInv(s, i);
    }
  }

  /** Changing one owner without touching the row keeps the invariant if that owner's part still holds. */
  lemma OwnerUpdateKeeps(c: Config, s: State, key: Key, o: Owner, s': State)
    requires Inv(c, s) && key in s.owners
    requires s'.now == s.now && s'.asks == s.asks && s'.table == s.table
    requires s'.owners == s.owners[key := o]
    requires s.owners[key].completion.Written? ==> o.completion == s.owners[key].completion
    requires OwnerInv(c, s', key)
    ensures Inv(c, s')
  {
    forall k | k in s'.owners
      ensures OwnerInv(c, s', k)
    {
      if k != key {
        assert OwnerInv(c, s, k);
      }
    }
    forall i | i in s'.table
      ensures RowInv(s', i)
    {
      assert RowInv(s, i);
    }
  }

  lemma DbRenewKeeps(c: Config, s: State, key: Key)
    requires Inv(c, s)
    ensures Inv(c, DbRenewStep(c, s, key))
  {
    var s' := DbRenewStep(c, s, key);
    if key in s.owners {
      assert OwnerInv(c, s, key);
      if HeldBy(c, s, key) {
        LeaseDurationsAgree(c.nodes[s.owners[key].node].configuredLease);
        var mid := s.(table := RenewedTable(c, s, key));
        RenewTableKeeps(c, s, key, mid);
        assert OwnerInv(c, mid, key);
        if s'.owners != s.owners {
          OwnerUpdateKeeps(c, mid, key, s'.owners[key], s');
        }
      } else if s'.owners != s.owners {
        OwnerUpdateKeeps(c, s, key, s'.owners[key], s');
      }
    }
  }

  lemma DbRenewAbandonedKeeps(c: Config, s: State, key: Key)
    requires Inv(c, s)
    ensures Inv(c, DbRenewAbandonedStep(c, s, key))
  {
    var s' := DbRenewAbandonedStep(c, s, key);
    if key in s.owners && s.owners[key].abandoned > 0 {
      assert OwnerInv(c, s, key);
      if HeldBy(c, s, key) {
        var mid := s.(table := RenewedTable(c, s, key));
        RenewTableKeeps(c, s, key, mid);
        assert OwnerInv(c, mid, key);
        OwnerUpdateKeeps(c, mid, key, s'.owners[key], s');
      } else {
        OwnerUpdateKeeps(c, s, key, s'.owners[key], s');
      }
    }
  }

  lemma CompletionKeepsOwners(c: Config, s: State, key: Key)
    requires Inv(c, s) && key in s.owners && s.owners[key].completion.InFlight? && HeldBy(c, s, key)
    ensures forall k | k in DbCompleteStep(c, s, key).owners :: OwnerInv(c, DbCompleteStep(c, s, key), k)
  {
    var s' := DbCompleteStep(c, s, key);
    forall k | k in s'.owners
      ensures OwnerInv(c, s', k)
    {
      assert OwnerInv(c, s, k);
      assert k.0 == key.0 && k != key ==> k.1 != key.1;
    }
  }

  lemma DbCompleteKeeps(c: Config, s: State, key: Key)
    requires Inv(c, s)
    ensures Inv(c, DbCompleteStep(c, s, key))
  {
    var s' := DbCompleteStep(c, s, key);
    if key in s.owners && s.owners[key].completion.InFlight? {
      assert OwnerInv(c, s, key);
      if HeldBy(c, s, key) {
        CompletionKeepsOwners(c, s, key);
        forall i | i in s'.table
          ensures RowInv(s', i)
        {
          assert RowInv(s, i);
        }
      } else {
        OwnerUpdateKeeps(c, s, key, s'.owners[key], s');
      }
    }
  }

  lemma SendKeepsProgress(o: Owner, result: WebhookResult)
    requires ProgressInv(o)
    ensures ProgressInv(SendStep(o, result))
  {
    var o' := SendStep(o, result);
    if o' != o && o'.pc.Recording? {
      assert o'.sends[..|o'.sends| - 1] == o.sends;
    }
  }

  lemma RecordKeepsProgress(o: Owner)
    requires ProgressInv(o)
    ensures ProgressInv(RecordStep(o))
  {
    if o.pc.Recording? {
      assert o.sends == o.sends[..|o.sends| - 1] + [o.sends[|o.sends| - 1]];
    }
  }

  /** The part of an owner the row knows nothing about: renewals asked, results and verdicts. */
  lemma OwnerStepKeepsProgress(c: Config, s: State, step: Step, o: Owner)
    requires o.node in c.nodes && ProgressInv(o)
    ensures ProgressInv(OwnerStep(c, s, step, o))
  {
    match step
    case Send(_, result) => SendKeepsProgress(o, result);
    case Record(_) => RecordKeepsProgress(o);
    case _ =>
  }

  /** The only ways an owner's promises change: a timely granted renewal, a fresh request, or giving up. */
  predicate PromisesFollow(o: Owner, o': Owner, duration: int, now: int) {
    && o'.node == o.node
    && (o'.completion == o.completion || (o.completion.NotSent? && o'.completion.InFlight?))
    && (o'.lease.deadline == o.lease.deadline ||
        (o.renewal.Asked? && o.renewal.answer.Yes? && now < o.lease.deadline &&
         o'.lease.deadline == o.renewal.started + duration))
    && (o'.renewal.Asked? ==>
          o'.renewal == o.renewal || (o'.renewal.started == now && o'.renewal.answer.NotYet?))
  }

  lemma OwnerStepPromises(c: Config, s: State, step: Step, o: Owner)
    requires o.node in c.nodes && ProgressInv(o)
    ensures PromisesFollow(o, OwnerStep(c, s, step, o), Duration(c, o.node), LocalNow(c, s, o.node))
  {
  }

  lemma PromisesStayCovered(c: Config, now: int, generation: nat, o: Owner, o': Owner, r: Row)
    requires o.node in c.nodes && Covered(c, now, generation, o, r) && WellFormed(r)
    requires PromisesFollow(o, o', Duration(c, o.node), now + c.nodes[o.node].clockOffset)
    ensures Covered(c, now, generation, o', r)
  {
  }

  lemma OwnerStepKeeps(c: Config, s: State, step: Step)
    requires Inv(c, s) && IsOwnerStep(step)
    ensures Inv(c, Next(c, s, step))
  {
    var key := step.key;
    if key in s.owners {
      assert OwnerInv(c, s, key) && RowInv(s, key.0);
      var o := s.owners[key];
      var o' := OwnerStep(c, s, step, o);
      OwnerStepKeepsProgress(c, s, step, o);
      OwnerStepPromises(c, s, step, o);
      PromisesStayCovered(c, s.now, key.1, o, o', s.table[key.0]);
      OwnerUpdateKeeps(c, s, key, o', Next(c, s, step));
    }
  }

  lemma CrashKeeps(c: Config, s: State, node: Node)
    requires Inv(c, s)
    ensures Inv(c, Next(c, s, Crash(node)))
  {
    var s' := Next(c, s, Crash(node));
    forall k | k in s'.owners
      ensures OwnerInv(c, s', k)
    {
      assert OwnerInv(c, s, k) && RowInv(s, k.0);
      PromisesStayCovered(c, s.now, k.1, s.owners[k], s'.owners[k], s.table[k.0]);
    }
    forall i | i in s'.table
      ensures RowInv(s', i)
    {
      assert RowInv(s, i);
    }
  }

  lemma NextKeepsInv(c: Config, s: State, step: Step)
    requires Inv(c, s)
    ensures Inv(c, Next(c, s, step))
  {
    if IsOwnerStep(step) {
      OwnerStepKeeps(c, s, step);
    } else {
      match step
      case Tick(elapsed) => TickKeeps(c, s, elapsed);
      case InsertRow(id, ns, createdAt) => InsertRowKeeps(c, s, id, ns, createdAt);
      case LegacyUpdate(id, status) => LegacyUpdateKeeps(c, s, id, status);
      case Requeue(id) => RequeueKeeps(c, s, id);
      case AskClaim(request, node, only, slots) =>
        forall k | k in Next(c, s, step).owners
          ensures OwnerInv(c, Next(c, s, step), k)
        {
          assert OwnerInv(c, s, k);
        }
      case DbClaim(request, id) => DbClaimKeeps(c, s, request, id);
      case DbRenew(key) => DbRenewKeeps(c, s, key);
      case DbRenewAbandoned(key) => DbRenewAbandonedKeeps(c, s, key);
      case DbComplete(key) => DbCompleteKeeps(c, s, key);
      case Crash(node) => CrashKeeps(c, s, node);
      case _ =>
    }
  }

  lemma {:induction false} RunKeepsInv(c: Config, s: State, steps: seq<Step>)
    requires ValidConfig(c) && Init(s)
    ensures Inv(c, Run(c, s, steps))
  {
    if steps == [] {
      InitInv(c, s);
    } else {
      RunKeepsInv(c, s, steps[..|steps| - 1]);
      NextKeepsInv(c, Run(c, s, steps[..|steps| - 1]), steps[|steps| - 1]);
    }
  }

  // ---------- Who owns an execution ----------

  /** A delivery that may still act: running, not cancelled, and before its own deadline. */
  predicate Acting(c: Config, s: State, key: Key) {
    && key in s.owners && s.owners[key].node in c.nodes
    && Working(s.owners[key])
    && Live(s.owners[key].lease, LocalNow(c, s, s.owners[key].node))
  }

  /**
    In every reachable state an acting owner's generation is the row's, and the
    row is in progress under a database lease no earlier than the local
    deadline, exactly until the owner's own completion is written.
   */
  lemma ActingOwnerHoldsTheRow(c: Config, s: State, steps: seq<Step>, key: Key)
    requires ValidConfig(c) && Init(s)
    requires Acting(c, Run(c, s, steps), key)
    ensures var s' := Run(c, s, steps);
            var o := s'.owners[key];
            && key.0 in s'.table && s'.table[key.0].generation == key.1
            && (!o.completion.Written? <==>
                  && s'.table[key.0].status.InProgress? && s'.table[key.0].lease.Some?
                  && TrueLease(c, s'.table[key.0]) >= TrueDeadline(c, o))
            && (o.completion.Written? ==> s'.table[key.0].status == o.completion.status)
  {
    RunKeepsInv(c, s, steps);
    var s' := Run(c, s, steps);
    assert OwnerInv(c, s', key) && RowInv(s', key.0);
  }

  lemma AtMostOneActingOwner(c: Config, s: State, steps: seq<Step>, a: Key, b: Key)
    requires ValidConfig(c) && Init(s)
    requires Acting(c, Run(c, s, steps), a) && Acting(c, Run(c, s, steps), b)
    requires a.0 == b.0
    ensures a == b
  {
    ActingOwnerHoldsTheRow(c, s, steps, a);
    ActingOwnerHoldsTheRow(c, s, steps, b);
  }

  /** A terminal status of an owned row is what its own generation's attempts justify. */
  lemma TerminalStatusIsTrue(c: Config, s: State, steps: seq<Step>, id: Id)
    requires ValidConfig(c) && Init(s)
    requires var t := Run(c, s, steps).table; id in t && Terminal(t[id].status) && t[id].generation > 0
    ensures var s' := Run(c, s, steps);
            var key := (id, s'.table[id].generation);
            && key in s'.owners
            && Justifies(s'.owners[key].sends, s'.table[id].status)
            && (s'.table[id].status.Failed? ==> forall r | r in s'.owners[key].sends :: !IsSuccess(r))
  {
    RunKeepsInv(c, s, steps);
    var s' := Run(c, s, steps);
    assert RowInv(s', id);
    assert OwnerInv(c, s', (id, s'.table[id].generation));
    if s'.table[id].status.Failed? {
      FailedMeansNoSuccess(s'.owners[(id, s'.table[id].generation)].sends);
    }
  }

  /** Leaving with an open circuit, a failed setup or a lost lease never writes a status. */
  lemma EarlyExitsWriteNothing(c: Config, s: State, steps: seq<Step>, key: Key)
    requires ValidConfig(c) && Init(s)
    requires var s' := Run(c, s, steps);
             && key in s'.owners && s'.owners[key].pc.Exited?
             && !s'.owners[key].pc.reason.Returned? && !s'.owners[key].pc.reason.Died?
    ensures var s' := Run(c, s, steps);
            && key.0 in s'.table
            && !(Terminal(s'.table[key.0].status) && s'.table[key.0].generation == key.1)
  {
    RunKeepsInv(c, s, steps);
    var s' := Run(c, s, steps);
    assert OwnerInv(c, s', key) && RowInv(s', key.0);
  }

  /** A row is terminal at an owner's generation exactly when that owner's completion was written. */
  lemma TerminalIffWritten(c: Config, s: State, steps: seq<Step>, key: Key)
    requires ValidConfig(c) && Init(s) && key in Run(c, s, steps).owners
    ensures var s' := Run(c, s, steps);
            && key.0 in s'.table
            && (Terminal(s'.table[key.0].status) && s'.table[key.0].generation == key.1
                <==> s'.owners[key].completion.Written?)
  {
    RunKeepsInv(c, s, steps);
    var s' := Run(c, s, steps);
    assert OwnerInv(c, s', key) && RowInv(s', key.0);
  }

  /** complete() was called: the owner waits for it, it returned, or the process died. */
  predicate CompletionCalled(o: Owner) {
    o.pc.Completing? || (o.pc.Exited? && (o.pc.reason.Returned? || o.pc.reason.Died?))
  }

  /**
    Which exits can leave a status behind: the owner's status is written exactly
    if its completion request reached the database while the row was held, and
    only an owner that called complete() has such a request.
   */
  lemma WritesOnlyAfterComplete(c: Config, s: State, steps: seq<Step>, key: Key)
    requires ValidConfig(c) && Init(s) && key in Run(c, s, steps).owners
    ensures var o := Run(c, s, steps).owners[key];
            && (!o.completion.NotSent? ==> CompletionCalled(o))
            && (o.pc.Exited? && o.pc.reason.Returned? ==> !o.completion.NotSent?)
  {
    RunKeepsInv(c, s, steps);
    assert OwnerInv(c, Run(c, s, steps), key);
  }

  // ---------- Rows only move forward ----------

  /** The moves one statement can make on one row. */
  predicate RowMoves(r: Row, r': Row) {
    && r'.ns == r.ns && r'.createdAt == r.createdAt
    && (|| r' == r
        || (r.status.Emitted? && r'.status.InProgress? && r'.generation == r.generation + 1)
        || (r.status.InProgress? && r.generation > 0 && r'.generation == r.generation
            && (r'.status.InProgress? || Terminal(r'.status)))
        || (r.status.InProgress? && r'.status.Emitted? && r'.generation > 0 && r'.generation >= r.generation
            && (r'.generation == r.generation || r.generation == 0))
        || (LegacyWritable(r) && r'.generation == 0))
  }

  /** A logged statement describes the move of its row. */
  predicate EventMatches(e: Event, r: Row, r': Row) {
    match e
    case ClaimEvent(_, g, _) => r.status.Emitted? && g == r.generation + 1 == r'.generation
    case RenewEvent(_, g) => r.status.InProgress? && g == r.generation == r'.generation
    case EndEvent(_, g, status) =>
      && !Terminal(r.status) && Terminal(status) && r'.status == status && g == r.generation == r'.generation
      && (r.status.InProgress? || g == 0)
    case RequeueEvent(_, g) =>
      r.status.InProgress? && r'.status.Emitted? && g == r'.generation && g > 0 && g >= r.generation
  }

  predicate EventOf(s: State, s': State, e: Event) {
    && e.id in s.table && e.id in s'.table
    && EventMatches(e, s.table[e.id], s'.table[e.id])
  }

  /** Every row makes one of the moves, and at most one statement is logged, which describes its row's move. */
  ghost predicate Moves(s: State, s': State) {
    && (forall id | id in s.table :: id in s'.table && RowMoves(s.table[id], s'.table[id]))
    && (|| s'.log == s.log
        || (|s'.log| == |s.log| + 1 && s'.log == s.log + [s'.log[|s.log|]] && EventOf(s, s', s'.log[|s.log|])))
  }

  lemma StoreStepMoves(c: Config, s: State, step: Step)
    requires Inv(c, s) && (step.InsertRow? || step.LegacyUpdate? || step.Requeue?)
    ensures Moves(s, Next(c, s, step))
  {
    assert step.id in s.table ==> RowInv(s, step.id);
  }

  lemma ClaimMoves(c: Config, s: State, request: nat, id: Id)
    requires Inv(c, s)
    ensures Moves(s, DbClaimStep(c, s, request, id))
  {
    assert id in s.table ==> RowInv(s, id);
  }

  lemma RenewMoves(c: Config, s: State, key: Key)
    requires Inv(c, s)
    ensures Moves(s, DbRenewStep(c, s, key))
  {
    assert key.0 in s.table ==> RowInv(s, key.0);
  }

  lemma AbandonedRenewMoves(c: Config, s: State, key: Key)
    requires Inv(c, s)
    ensures Moves(s, DbRenewAbandonedStep(c, s, key))
  {
    assert key.0 in s.table ==> RowInv(s, key.0);
  }

  lemma CompleteMoves(c: Config, s: State, key: Key)
    requires Inv(c, s)
    ensures Moves(s, DbCompleteStep(c, s, key))
  {
    assert key.0 in s.table ==> RowInv(s, key.0);
    assert key in s.owners ==> OwnerInv(c, s, key);
  }

  /** A step outside the database moves no row. */
  lemma LocalStepMoves(c: Config, s: State, step: Step)
    requires IsOwnerStep(step) || step.Tick? || step.AskClaim? || step.Crash?
    ensures Moves(s, Next(c, s, step))
  {
    assert Next(c, s, step).table == s.table && Next(c, s, step).log == s.log;
  }

  lemma NextMoves(c: Config, s: State, step: Step)
    requires Inv(c, s)
    ensures Moves(s, Next(c, s, step))
  {
    if step.InsertRow? || step.LegacyUpdate? || step.Requeue? {
      StoreStepMoves(c, s, step);
    } else if step.DbClaim? {
      ClaimMoves(c, s, step.request, step.id);
    } else if step.DbRenew? {
      RenewMoves(c, s, step.key);
    } else if step.DbRenewAbandoned? {
      AbandonedRenewMoves(c, s, step.key);
    } else if step.DbComplete? {
      CompleteMoves(c, s, step.key);
    } else {
      LocalStepMoves(c, s, step);
    }
  }

  lemma {:induction false} RunAdvances(c: Config, s: State, steps: seq<Step>)
    requires Inv(c, s)
    ensures Inv(c, Run(c, s, steps)) && TableAdvances(s.table, Run(c, s, steps).table)
  {
    if steps != [] {
      var mid := Run(c, s, steps[..|steps| - 1]);
      RunAdvances(c, s, steps[..|steps| - 1]);
      NextKeepsInv(c, mid, steps[|steps| - 1]);
      NextMoves(c, mid, steps[|steps| - 1]);
    }
  }

  lemma Snoc(c: Config, s: State, steps: seq<Step>, step: Step)
    ensures Run(c, s, steps + [step]) == Next(c, Run(c, s, steps), step)
  {
    assert (steps + [step])[..|steps|] == steps;
  }

  lemma OwnerStepNext(c: Config, s: State, step: Step)
    requires IsOwnerStep(step) && step.key in s.owners && s.owners[step.key].node in c.nodes
    ensures Next(c, s, step) == s.(owners := s.owners[step.key := OwnerStep(c, s, step, s.owners[step.key])])
  {
  }

  lemma {:induction false} RunAppend(c: Config, s: State, a: seq<Step>, b: seq<Step>)
    ensures Run(c, s, a + b) == Run(c, Run(c, s, a), b)
  {
    if b == [] {
      assert a + b == a;
    } else {
      var last := b[|b| - 1];
      assert (a + b)[..|a + b| - 1] == a + b[..|b| - 1];
      RunAppend(c, s, a, b[..|b| - 1]);
    }
  }

  /** From any point of any run on, generations never decrease and a terminal row never changes. */
  lemma GenerationsGrowAndTerminalIsFinal(c: Config, s: State, first: seq<Step>, more: seq<Step>)
    requires ValidConfig(c) && Init(s)
    ensures TableAdvances(Run(c, s, first).table, Run(c, s, first + more).table)
  {
    RunKeepsInv(c, s, first);
    RunAppend(c, s, first, more);
    RunAdvances(c, Run(c, s, first), more);
  }

  // ---------- The order of statements in the database ----------

  /** What an earlier statement leaves true of its row for good. */
  predicate EventInv(s: State, e: Event) {
    && e.id in s.table
    && var r := s.table[e.id];
       && e.generation <= r.generation
       && match e
          case RequeueEvent(_, g) => g > 0 && (r.generation > g || r.status.Emitted?)
          case EndEvent(_, g, status) => Terminal(status) && r.generation == g && r.status == status
          case _ => true
  }

  /**
    `e` happened before `f`: claims of one execution have growing generations,
    nothing follows the end of an execution, and after a requeue no renewal or
    completion of that generation or an older one succeeds.
   */
  predicate Ordered(e: Event, f: Event) {
    e.id == f.id ==>
      && !e.EndEvent?
      && (e.ClaimEvent? && f.ClaimEvent? ==> e.generation < f.generation)
      && (e.RequeueEvent? && (f.RenewEvent? || f.EndEvent?) ==> e.generation < f.generation)
  }

  ghost predicate LogInv(s: State) {
    && (forall i | 0 <= i < |s.log| :: EventInv(s, s.log[i]))
    && (forall i, j | 0 <= i < j < |s.log| :: Ordered(s.log[i], s.log[j]))
  }

  lemma EventStays(s: State, s': State, e: Event)
    requires EventInv(s, e)
    requires forall id | id in s.table :: id in s'.table && RowMoves(s.table[id], s'.table[id])
    ensures EventInv(s', e)
  {
  }

  lemma NewEventIsOrdered(s: State, s': State, e: Event, f: Event)
    requires EventInv(s, e) && EventOf(s, s', f)
    ensures Ordered(e, f)
  {
  }

  lemma NextKeepsLog(c: Config, s: State, step: Step)
    requires Inv(c, s) && LogInv(s)
    ensures LogInv(Next(c, s, step))
  {
    var s' := Next(c, s, step);
    NextMoves(c, s, step);
    forall i | 0 <= i < |s'.log|
      ensures EventInv(s', s'.log[i])
    {
      if i < |s.log| {
        assert s'.log[i] == s.log[i];
        EventStays(s, s', s.log[i]);
      }
    }
    forall i, j | 0 <= i < j < |s'.log|
      ensures Ordered(s'.log[i], s'.log[j])
    {
      if j == |s.log| {
        NewEventIsOrdered(s, s', s.log[i], s'.log[j]);
      }
    }
  }

  lemma {:induction false} StatementsAreOrdered(c: Config, s: State, steps: seq<Step>)
    requires ValidConfig(c) && Init(s)
    ensures LogInv(Run(c, s, steps))
  {
    if steps != [] {
      var before := steps[..|steps| - 1];
      StatementsAreOrdered(c, s, before);
      RunKeepsInv(c, s, before);
      NextKeepsLog(c, Run(c, s, before), steps[|steps| - 1]);
    }
  }

  // ---------- No execution gets stuck ----------

  /** How long until the row's lease has run out, zero if it has none. */
  function LeaseLeft(c: Config, s: State, id: Id): nat
    requires id in s.table
  {
    var r := s.table[id];
    if r.lease.Some? && r.lease.value > DbNow(c, s) then r.lease.value - DbNow(c, s) else 0
  }

  /** Wait out the lease, requeue, and claim from `node`. */
  function Recovery(c: Config, s: State, id: Id, node: Node, request: nat): seq<Step>
    requires id in s.table
  {
    [Tick(LeaseLeft(c, s, id)), Requeue(id), AskClaim(request, node, None, 1), DbClaim(request, id)]
  }

  lemma LeaseLeftIsBounded(c: Config, s: State, id: Id)
    requires Inv(c, s) && id in s.table && s.table[id].lease.Some?
    ensures var key := (id, s.table[id].generation);
            && key in s.owners && s.owners[key].node in c.nodes
            && LeaseLeft(c, s, id) <= Duration(c, s.owners[key].node)
  {
    assert RowInv(s, id);
    assert OwnerInv(c, s, (id, s.table[id].generation));
  }

  lemma WaitAndRequeue(c: Config, s: State, id: Id)
    requires Inv(c, s) && id in s.table && !Terminal(s.table[id].status)
    ensures var s' := Next(c, Next(c, s, Tick(LeaseLeft(c, s, id))), Requeue(id));
            && id in s'.table && s'.table[id].status.Emitted? && s'.table[id].generation >= s.table[id].generation
            && s'.asks == s.asks
  {
    assert RowInv(s, id);
  }

  lemma AskAndClaim(c: Config, s: State, id: Id, node: Node, request: nat)
    requires id in s.table && s.table[id].status.Emitted? && node in c.nodes && request !in s.asks
    ensures var s' := Next(c, Next(c, s, AskClaim(request, node, None, 1)), DbClaim(request, id));
            var key := (id, s.table[id].generation + 1);
            && id in s'.table && s'.table[id].status.InProgress? && s'.table[id].generation == key.1
            && key in s'.owners && s'.owners[key].node == node
  {
  }

  lemma RunFour(c: Config, s: State, p: seq<Step>)
    requires |p| == 4
    ensures Run(c, s, p) == Next(c, Next(c, Next(c, Next(c, s, p[0]), p[1]), p[2]), p[3])
  {
    assert p[..3][..2] == p[..2] && p[..2][..1] == p[..1] && p[..1][..0] == [];
    assert Run(c, s, p[..1]) == Next(c, s, p[0]);
    assert Run(c, s, p[..2]) == Next(c, Run(c, s, p[..1]), p[1]);
    assert Run(c, s, p[..3]) == Next(c, Run(c, s, p[..2]), p[2]);
  }

  /**
    Whatever its owner does, a row that is not terminal is at most one lease
    duration away from being claimed again by any dispatcher, provided nobody
    renews it meanwhile.
   */
  lemma NeverStuck(c: Config, s: State, steps: seq<Step>, id: Id, node: Node, request: nat)
    requires ValidConfig(c) && Init(s) && node in c.nodes
    requires var s' := Run(c, s, steps); id in s'.table && !Terminal(s'.table[id].status) && request !in s'.asks
    ensures var s' := Run(c, s, steps);
            var key := (id, s'.table[id].generation);
            s'.table[id].lease.Some? ==>
              && key in s'.owners && s'.owners[key].node in c.nodes
              && LeaseLeft(c, s', id) <= Duration(c, s'.owners[key].node)
    ensures var s' := Run(c, s, steps);
            var end := Run(c, s, steps + Recovery(c, s', id, node, request));
            && id in end.table && end.table[id].status.InProgress?
            && end.table[id].generation > s'.table[id].generation
            && (id, end.table[id].generation) in end.owners
            && end.owners[(id, end.table[id].generation)].node == node
  {
    RunKeepsInv(c, s, steps);
    var s' := Run(c, s, steps);
    if s'.table[id].lease.Some? {
      LeaseLeftIsBounded(c, s', id);
    }
    WaitAndRequeue(c, s', id);
    AskAndClaim(c, Next(c, Next(c, s', Tick(LeaseLeft(c, s', id))), Requeue(id)), id, node, request);
    RunFour(c, s', Recovery(c, s', id, node, request));
    RunAppend(c, s, steps, Recovery(c, s', id, node, request));
  }
}
