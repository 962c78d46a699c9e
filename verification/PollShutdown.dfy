/**
  The end of RunDBPoll (internal/dispatcher/dispatcher.go): workers leave only
  after cancellation, and from every reachable state a cancelled poll can wind
  down, with every claimed execution launched and every slot given back.
 */
module PollShutdown {
  import opened PollSlots

  // ---------- Nobody leaves before cancellation ----------

  predicate StaysUntilCancelled(s: State) {
    && (forall i | 0 <= i < |s.workers| && s.workers[i].Exited? :: s.cancelled)
    && (|s.workers| > 0 && !s.main.AwaitingWorkers? ==> s.cancelled)
  }

  lemma ExitNeedsCancellation(w: Worker, step: Step, occupied: nat, capacity: nat, cancelled: bool)
    requires !w.Exited? && Act(w, step, occupied, capacity, cancelled).worker.Exited?
    ensures cancelled
  {
    match w
    case AtTop => assert ActAtTop(step, occupied, capacity, cancelled).worker.Exited?;
    case Settling(spare, launch) =>
      assert ActSettling(spare, launch, step, occupied, capacity, cancelled).worker.Exited?;
    case _ =>
  }

  lemma NextStaysUntilCancelled(s: State, step: Step)
    requires StaysUntilCancelled(s)
    ensures StaysUntilCancelled(Next(s, step))
  {
    var s' := Next(s, step);
    if IsWorkerStep(step) && step.i < |s.workers| {
      var w := s.workers[step.i];
      if !w.Exited? && s'.workers[step.i].Exited? {
        ExitNeedsCancellation(w, step, s.occupied, Capacity(s), s.cancelled);
      }
      assert forall i | 0 <= i < |s'.workers| && i != step.i :: s'.workers[i] == s.workers[i];
    } else if step.WorkersJoined? && |s.workers| > 0 && s' != s {
      assert s.workers[0].Exited?;
    }
  }

  /** In every run a worker that has left, and a poll that no longer waits for its workers, was cancelled. */
  lemma {:induction false} LeavesOnlyWhenCancelled(s: State, steps: seq<Step>)
    requires Init(s)
    ensures StaysUntilCancelled(Run(s, steps))
  {
    if steps != [] {
      LeavesOnlyWhenCancelled(s, steps[..|steps| - 1]);
      NextStaysUntilCancelled(Run(s, steps[..|steps| - 1]), steps[|steps| - 1]);
    }
  }

  // ---------- A batch stays within its limit ----------

  predicate WithinBatch(workers: seq<Worker>) {
    forall i | 0 <= i < |workers| :: Held(workers[i]) <= 16
  }

  lemma StepKeepsBatch(s: State, step: Step)
    requires WithinBatch(s.workers)
    ensures WithinBatch(Next(s, step).workers)
  {
    if IsWorkerStep(step) && step.i < |s.workers| {
      var e := Act(s.workers[step.i], step, s.occupied, Capacity(s), s.cancelled);
      assert Accounts(s.workers[step.i], step, e, s.occupied, Capacity(s));
    }
  }

  /** In every run no worker ever reserves, claims or owes more than a batch of 16. */
  lemma {:induction false} BatchesAreBounded(s: State, steps: seq<Step>)
    requires Init(s)
    ensures WithinBatch(Run(s, steps).workers)
  {
    if steps != [] {
      BatchesAreBounded(s, steps[..|steps| - 1]);
      StepKeepsBatch(Run(s, steps[..|steps| - 1]), steps[|steps| - 1]);
    }
  }

  // ---------- Winding down ----------

  /** How many of its own steps a worker is away from leaving. */
  function Distance(w: Worker): nat {
    match w
    case Exited => 0
    case AtTop => 1
    case Sleeping => 1
    case Settling(spare, launch) => 1 + spare + launch
    case Dequeuing(held) => 2 + held
    case Reserving(held) => 3 + held
  }

  function Towards(w: Worker, i: nat): Step {
    match w
    case Reserving(_) => StartDequeue(i)
    case Dequeuing(_) => DequeueFails(i)
    case Settling(spare, launch) => if spare > 0 then ReturnSpare(i) else if launch > 0 then Launch(i) else Exit(i)
    case _ => Exit(i)
  }

  lemma ActsTowards(w: Worker, i: nat, occupied: nat, capacity: nat)
    requires !w.Exited? && (Held(w) > 0 ==> occupied > 0)
    ensures Distance(Act(w, Towards(w, i), occupied, capacity, true).worker) == Distance(w) - 1
  {
  }

  /** Only worker i, slots and deliveries moved. */
  predicate Winding(s: State, s': State, i: nat) {
    && Inv(s') && s'.cancelled && s'.main == s.main && |s'.workers| == |s.workers|
    && forall j | 0 <= j < |s.workers| && j != i :: s'.workers[j] == s.workers[j]
  }

  lemma OneCloser(s: State, i: nat)
    requires Inv(s) && s.cancelled && i < |s.workers| && !s.workers[i].Exited?
    ensures var s' := Next(s, Towards(s.workers[i], i));
            Winding(s, s', i) && Distance(s'.workers[i]) == Distance(s.workers[i]) - 1
  {
    var step := Towards(s.workers[i], i);
    NextKeeps(s, step);
    TotalsZero(s.workers);
    ActsTowards(s.workers[i], i, s.occupied, Capacity(s));
    assert Next(s, step) == WorkerStep(s, step, i);
  }

  lemma Cons(s: State, step: Step, steps: seq<Step>)
    ensures Run(s, [step] + steps) == Run(Next(s, step), steps)
  {
    RunAppend(s, [step], steps);
    assert [step][..0] == [];
  }

  lemma {:induction false} WorkerLeaves(s: State, i: nat) returns (steps: seq<Step>)
    requires Inv(s) && s.cancelled && i < |s.workers|
    ensures Winding(s, Run(s, steps), i) && Run(s, steps).workers[i].Exited?
    decreases Distance(s.workers[i])
  {
    steps := [];
    if !s.workers[i].Exited? {
      var step := Towards(s.workers[i], i);
      OneCloser(s, i);
      var rest := WorkerLeaves(Next(s, step), i);
      Cons(s, step, rest);
      steps := [step] + rest;
    }
  }

  lemma {:induction false} WorkersLeave(s: State, n: nat) returns (steps: seq<Step>)
    requires Inv(s) && s.cancelled && n <= |s.workers|
    ensures var s' := Run(s, steps);
            && Inv(s') && s'.cancelled && s'.main == s.main && |s'.workers| == |s.workers|
            && forall i | 0 <= i < n :: s'.workers[i].Exited?
  {
    steps := [];
    if n > 0 {
      var first := WorkersLeave(s, n - 1);
      var last := WorkerLeaves(Run(s, first), n - 1);
      RunAppend(s, first, last);
      steps := first + last;
    }
  }

  lemma {:induction false} DeliveriesFinish(s: State) returns (steps: seq<Step>)
    requires Inv(s)
    ensures Run(s, steps).delivering == 0 && Run(s, steps).leaving == 0 && Inv(Run(s, steps))
    ensures Run(s, steps).workers == s.workers && Run(s, steps).main == s.main
    decreases 2 * s.delivering + s.leaving
  {
    steps := [];
    if s.delivering + s.leaving > 0 {
      var step := if s.delivering > 0 then DeliveryReturnsSlot else DeliveryDone;
      NextKeeps(s, step);
      TotalsZero(s.workers);
      var rest := DeliveriesFinish(Next(s, step));
      Cons(s, step, rest);
      steps := [step] + rest;
    }
  }

  lemma Joins(s: State)
    requires Inv(s) && s.delivering == 0 && s.leaving == 0 && forall i | 0 <= i < |s.workers| :: s.workers[i].Exited?
    ensures Run(s, [WorkersJoined] + ([DeliveriesJoined] + [])).main.Returned?
  {
    Cons(s, WorkersJoined, [DeliveriesJoined] + []);
    Cons(Next(s, WorkersJoined), DeliveriesJoined, []);
  }

  lemma WindsDown(s: State) returns (steps: seq<Step>)
    requires Inv(s) && s.cancelled
    ensures Run(s, steps).main.Returned?
  {
    var leave := WorkersLeave(s, |s.workers|);
    var idle := Run(s, leave);
    var finish := DeliveriesFinish(idle);
    Joins(Run(idle, finish));
    RunAppend(idle, finish, [WorkersJoined] + ([DeliveriesJoined] + []));
    RunAppend(s, leave, finish + ([WorkersJoined] + ([DeliveriesJoined] + [])));
    steps := leave + (finish + ([WorkersJoined] + ([DeliveriesJoined] + [])));
  }

  /** Whatever state a poll is in when it is cancelled, RunDBPoll can return, with everything claimed launched. */
  lemma ShutdownCompletes(s: State, steps: seq<Step>) returns (more: seq<Step>)
    requires Init(s)
    ensures var s' := Run(s, steps + more);
            s'.main.Returned? && s'.occupied == 0 && s'.claimed == s'.launched && s'.delivering == 0
  {
    RunKeeps(s, steps);
    var before := Run(s, steps);
    NextKeeps(before, Cancel);
    var rest := WindsDown(Next(before, Cancel));
    Cons(before, Cancel, rest);
    more := [Cancel] + rest;
    RunAppend(s, steps, more);
    ReturnsOnlyWhenIdle(s, steps + more);
  }

  // ---------- Coming round ----------

  /** The next step of a worker on its way back to the top of its loop. */
  function Homewards(w: Worker, i: nat): Step {
    match w
    case Sleeping => Wake(i)
    case Settling(spare, launch) =>
      if spare > 0 then ReturnSpare(i) else if launch > 0 then Launch(i) else NextRound(i, false)
    case _ => Towards(w, i)
  }

  function FromTop(w: Worker): nat {
    if w.AtTop? then 0 else Distance(w)
  }

  lemma ActsHomewards(w: Worker, i: nat, occupied: nat, capacity: nat, cancelled: bool)
    requires !w.Exited? && !w.AtTop? && (Held(w) > 0 ==> occupied > 0)
    ensures var w' := Act(w, Homewards(w, i), occupied, capacity, cancelled).worker;
            !w'.Exited? && FromTop(w') == FromTop(w) - 1
  {
  }

  /** No worker is lost: as long as it has not left, it can come round and take up work again. */
  lemma {:induction false} WorkerComesRound(s: State, i: nat) returns (steps: seq<Step>)
    requires Inv(s) && i < |s.workers| && !s.workers[i].Exited?
    ensures |Run(s, steps).workers| == |s.workers| && Run(s, steps).workers[i].AtTop?
    decreases FromTop(s.workers[i])
  {
    steps := [];
    if !s.workers[i].AtTop? {
      var step := Homewards(s.workers[i], i);
      NextKeeps(s, step);
      TotalsZero(s.workers);
      ActsHomewards(s.workers[i], i, s.occupied, Capacity(s), s.cancelled);
      assert Next(s, step) == WorkerStep(s, step, i);
      var rest := WorkerComesRound(Next(s, step), i);
      Cons(s, step, rest);
      steps := [step] + rest;
    }
  }
}
