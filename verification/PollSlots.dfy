/**
  Delivery slots of RunDBPoll (internal/dispatcher/dispatcher.go): poll workers
  reserve slots of a shared semaphore, hand one to each claimed execution and
  return the rest, under every interleaving of workers, deliveries and shutdown.
 */
module PollSlots {

  const MAX_BATCH := 16
  const SLOTS_PER_WORKER := 4

  datatype Worker =
    | AtTop
    | Reserving(held: nat)                  // at least one slot taken, may take more
    | Dequeuing(held: nat)
    | Settling(spare: nat, launch: nat)     // spare slots to return, executions to launch
    | Sleeping                              // empty queue or dequeue error
    | Exited

  function Held(w: Worker): nat {
    match w
    case Reserving(n) => n
    case Dequeuing(n) => n
    case Settling(spare, launch) => spare + launch
    case _ => 0
  }

  /** Claimed executions a worker still has to launch. */
  function Owed(w: Worker): nat {
    if w.Settling? then w.launch else 0
  }

  datatype Main = AwaitingWorkers | AwaitingDeliveries | Returned

  /**
    `delivering` goroutines hold a slot; `leaving` ones have returned it but not
    yet left the wait group. The last four are running totals: slots taken and
    returned, executions that dequeues returned, and deliveries launched.
   */
  datatype State = State(
    workers: seq<Worker>,
    occupied: nat,
    delivering: nat,
    leaving: nat,
    cancelled: bool,
    main: Main,
    acquired: nat,
    released: nat,
    claimed: nat,
    launched: nat
  )

  function Capacity(s: State): nat {
    SLOTS_PER_WORKER * |s.workers|
  }

  predicate Init(s: State) {
    && |s.workers| > 0 && (forall i | 0 <= i < |s.workers| :: s.workers[i].AtTop?)
    && s == State(s.workers, 0, 0, 0, false, AwaitingWorkers, 0, 0, 0, 0)
  }

  datatype Step =
    | Reserve(i: nat)
    | ReserveMore(i: nat)
    | StartDequeue(i: nat)
    | DequeueFails(i: nat)
    | DequeueReturns(i: nat, count: nat)
    | ReturnSpare(i: nat)
    | Launch(i: nat)
    | NextRound(i: nat, idle: bool)
    | Wake(i: nat)
    | Exit(i: nat)
    | DeliveryReturnsSlot
    | DeliveryDone
    | Cancel
    | WorkersJoined
    | DeliveriesJoined

  /** What one worker action does: its next position, and the slots it took, returned and passed on. */
  datatype Effect = Effect(worker: Worker, took: nat, returned: nat, launched: nat)

  /** The executions that a dequeue hands to a worker; never more than it reserved slots for. */
  function Claimed(w: Worker, step: Step): nat {
    if w.Dequeuing? && step.DequeueReturns? && step.count <= w.held then step.count else 0
  }

  /**
    Every action accounts for every slot and every execution: what a worker held
    and took, it holds, returned or passed on; what it was handed or owed, it owes
    or launched.
   */
  predicate Accounts(w: Worker, step: Step, e: Effect, occupied: nat, capacity: nat) {
    && Held(w) + e.took == Held(e.worker) + e.returned + e.launched
    && Owed(w) + Claimed(w, step) == Owed(e.worker) + e.launched
    && (e.took > 0 ==> occupied + e.took <= capacity && Held(w) + e.took <= MAX_BATCH)
    && e.returned <= occupied
    && (w.Exited? ==> e.worker.Exited?)
  }

  function Stay(w: Worker): Effect {
    Effect(w, 0, 0, 0)
  }

  function ActAtTop(step: Step, occupied: nat, capacity: nat, cancelled: bool): (e: Effect)
    ensures Accounts(AtTop, step, e, occupied, capacity)
  {
    if step.Reserve? && occupied < capacity then Effect(Reserving(1), 1, 0, 0)
    else if step.Exit? && cancelled then Stay(Exited)
    else Stay(AtTop)
  }

  function ActReserving(held: nat, step: Step, occupied: nat, capacity: nat): (e: Effect)
    ensures Accounts(Reserving(held), step, e, occupied, capacity)
  {
    if step.ReserveMore? && held < MAX_BATCH && held < capacity && occupied < capacity then
      Effect(Reserving(held + 1), 1, 0, 0)
    else if step.StartDequeue? then Stay(Dequeuing(held))
    else Stay(Reserving(held))
  }

  /** A batch never returns more executions than slots were reserved for it. */
  function ActDequeuing(held: nat, step: Step, occupied: nat, capacity: nat): (e: Effect)
    ensures Accounts(Dequeuing(held), step, e, occupied, capacity)
  {
    if step.DequeueFails? then Stay(Settling(held, 0))
    else if step.DequeueReturns? && step.count <= held then Stay(Settling(held - step.count, step.count))
    else Stay(Dequeuing(held))
  }

  function ActSettling(spare: nat, launch: nat, step: Step, occupied: nat, capacity: nat, cancelled: bool): (e: Effect)
    ensures Accounts(Settling(spare, launch), step, e, occupied, capacity)
  {
    if spare > 0 then
      if step.ReturnSpare? && occupied > 0 then Effect(Settling(spare - 1, launch), 0, 1, 0)
      else Stay(Settling(spare, launch))
    else if launch > 0 then
      if step.Launch? then Effect(Settling(0, launch - 1), 0, 0, 1)
      else Stay(Settling(0, launch))
    else
      if step.NextRound? then Stay(if step.idle then Sleeping else AtTop)
      else if step.Exit? && cancelled then Stay(Exited)
      else Stay(Settling(0, 0))
  }

  function Act(w: Worker, step: Step, occupied: nat, capacity: nat, cancelled: bool): (e: Effect)
    ensures Accounts(w, step, e, occupied, capacity)
  {
    match w
    case AtTop => ActAtTop(step, occupied, capacity, cancelled)
    case Reserving(held) => ActReserving(held, step, occupied, capacity)
    case Dequeuing(held) => ActDequeuing(held, step, occupied, capacity)
    case Settling(spare, launch) => ActSettling(spare, launch, step, occupied, capacity, cancelled)
    case Sleeping =>
      if step.Wake? then Stay(AtTop) else if step.Exit? && cancelled then Stay(Exited) else Stay(Sleeping)
    case Exited => Stay(Exited)
  }

  function WorkerStep(s: State, step: Step, i: nat): State
    requires i < |s.workers|
  {
    var e := Act(s.workers[i], step, s.occupied, Capacity(s), s.cancelled);
    s.(workers := s.workers[i := e.worker],
       occupied := s.occupied + e.took - e.returned,
       delivering := s.delivering + e.launched,
       acquired := s.acquired + e.took,
       released := s.released + e.returned,
       claimed := s.claimed + Claimed(s.workers[i], step),
       launched := s.launched + e.launched)
  }

  predicate IsWorkerStep(step: Step) {
    step.Reserve? || step.ReserveMore? || step.StartDequeue? || step.DequeueFails? || step.DequeueReturns?
    || step.ReturnSpare? || step.Launch? || step.NextRound? || step.Wake? || step.Exit?
  }

  function Next(s: State, step: Step): State {
    if IsWorkerStep(step) then
      if step.i < |s.workers| then WorkerStep(s, step, step.i) else s
    else match step
      case DeliveryReturnsSlot =>
        if s.delivering > 0 && s.occupied > 0 then
          s.(delivering := s.delivering - 1, leaving := s.leaving + 1,
             occupied := s.occupied - 1, released := s.released + 1)
        else s
      case DeliveryDone => if s.leaving > 0 then s.(leaving := s.leaving - 1) else s
      case Cancel => s.(cancelled := true)
      case WorkersJoined =>
        if s.main.AwaitingWorkers? && (forall i | 0 <= i < |s.workers| :: s.workers[i].Exited?)
        then s.(main := AwaitingDeliveries) else s
      case DeliveriesJoined =>
        if s.main.AwaitingDeliveries? && s.delivering + s.leaving == 0 then s.(main := Returned) else s
      case _ => s
  }

  function Run(s: State, steps: seq<Step>): State {
    if steps == [] then s else Next(Run(s, steps[..|steps| - 1]), steps[|steps| - 1])
  }

  // ---------- Conservation ----------

  function Reserved(workers: seq<Worker>): nat {
    if workers == [] then 0 else Reserved(workers[..|workers| - 1]) + Held(workers[|workers| - 1])
  }

  function Outstanding(workers: seq<Worker>): nat {
    if workers == [] then 0 else Outstanding(workers[..|workers| - 1]) + Owed(workers[|workers| - 1])
  }

  lemma {:induction false} TotalsUpdate(workers: seq<Worker>, i: nat, w: Worker)
    requires i < |workers|
    ensures Reserved(workers[i := w]) == Reserved(workers) - Held(workers[i]) + Held(w)
    ensures Outstanding(workers[i := w]) == Outstanding(workers) - Owed(workers[i]) + Owed(w)
  {
    var last := |workers| - 1;
    if i == last {
      assert workers[i := w][..last] == workers[..last];
    } else {
      TotalsUpdate(workers[..last], i, w);
      assert workers[i := w][..last] == workers[..last][i := w];
    }
  }

  lemma {:induction false} TotalsZero(workers: seq<Worker>)
    ensures (forall i | 0 <= i < |workers| :: Held(workers[i]) == 0) ==> Reserved(workers) == 0
    ensures Outstanding(workers) <= Reserved(workers)
    ensures forall i | 0 <= i < |workers| :: Held(workers[i]) <= Reserved(workers)
  {
    if workers != [] {
      var last := |workers| - 1;
      TotalsZero(workers[..last]);
      assert forall i | 0 <= i < last :: workers[..last][i] == workers[i];
    }
  }

  predicate Inv(s: State) {
    && s.occupied == Reserved(s.workers) + s.delivering
    && s.occupied <= Capacity(s)
    && s.acquired == s.released + s.occupied
    && s.claimed == s.launched + Outstanding(s.workers)
    && s.delivering + s.leaving <= s.launched
    && (!s.main.AwaitingWorkers? ==> forall i | 0 <= i < |s.workers| :: s.workers[i].Exited?)
    && (s.main.Returned? ==> s.delivering + s.leaving == 0)
  }

  lemma WorkerStepKeeps(s: State, step: Step, i: nat)
    requires Inv(s) && i < |s.workers|
    ensures Inv(WorkerStep(s, step, i)) && |WorkerStep(s, step, i).workers| == |s.workers|
  {
    var e := Act(s.workers[i], step, s.occupied, Capacity(s), s.cancelled);
    TotalsUpdate(s.workers, i, e.worker);
  }

  lemma NextKeeps(s: State, step: Step)
    requires Inv(s)
    ensures Inv(Next(s, step)) && |Next(s, step).workers| == |s.workers|
  {
    if IsWorkerStep(step) && step.i < |s.workers| {
      WorkerStepKeeps(s, step, step.i);
    }
  }

  lemma {:induction false} RunKeeps(s: State, steps: seq<Step>)
    requires Init(s)
    ensures Inv(Run(s, steps)) && |Run(s, steps).workers| == |s.workers|
  {
    if steps == [] {
      TotalsZero(s.workers);
    } else {
      RunKeeps(s, steps[..|steps| - 1]);
      NextKeeps(Run(s, steps[..|steps| - 1]), steps[|steps| - 1]);
    }
  }

  /** Occupied slots are exactly reservations plus running deliveries, and never exceed four per worker. */
  lemma SlotsAreConserved(s: State, steps: seq<Step>)
    requires Init(s)
    ensures var s' := Run(s, steps);
            && s'.occupied == Reserved(s'.workers) + s'.delivering
            && s'.occupied <= SLOTS_PER_WORKER * |s.workers|
            && s'.acquired - s'.released == s'.occupied
  {
    RunKeeps(s, steps);
  }

  /** Every execution that a dequeue returned has been launched or is still owed by a worker. */
  lemma ExecutionsAreConserved(s: State, steps: seq<Step>)
    requires Init(s)
    ensures var s' := Run(s, steps); s'.claimed == s'.launched + Outstanding(s'.workers)
  {
    RunKeeps(s, steps);
  }

  /** A slot return never blocks: whoever owes one finds the semaphore non-empty. */
  lemma ReturningASlotNeverBlocks(s: State, steps: seq<Step>, i: nat)
    requires Init(s) && i < |s.workers|
    ensures var s' := Run(s, steps);
            && |s'.workers| == |s.workers|
            && (Held(s'.workers[i]) > 0 || s'.delivering > 0 ==> s'.occupied > 0)
  {
    RunKeeps(s, steps);
    TotalsZero(Run(s, steps).workers);
  }

  /**
    RunDBPoll returns only with no delivery running, every slot it ever took given
    back, and every execution it ever claimed launched.
   */
  lemma ReturnsOnlyWhenIdle(s: State, steps: seq<Step>)
    requires Init(s) && Run(s, steps).main.Returned?
    ensures var s' := Run(s, steps);
            && s'.delivering == 0 && s'.leaving == 0 && s'.occupied == 0
            && s'.acquired == s'.released && s'.claimed == s'.launched
  {
    RunKeeps(s, steps);
    TotalsZero(Run(s, steps).workers);
  }

  // ---------- One round of a worker ----------

  /** A worker's action with what it finds: occupied slots, capacity and cancellation change around it. */
  datatype Action = Action(step: Step, occupied: nat, capacity: nat, cancelled: bool)

  function Effects(w: Worker, a: Action): Effect {
    Act(w, a.step, a.occupied, a.capacity, a.cancelled)
  }

  /** Slots returned by a sequence of actions. */
  function ReturnedBy(w: Worker, actions: seq<Action>): nat
    decreases |actions|
  {
    if actions == [] then 0
    else Effects(w, actions[0]).returned + ReturnedBy(Effects(w, actions[0]).worker, actions[1..])
  }

  /** Deliveries launched by a sequence of actions. */
  function LaunchedBy(w: Worker, actions: seq<Action>): nat
    decreases |actions|
  {
    if actions == [] then 0
    else Effects(w, actions[0]).launched + LaunchedBy(Effects(w, actions[0]).worker, actions[1..])
  }

  /** The actions take the worker just to the point where it has settled and moves on. */
  predicate SettledBy(w: Worker, actions: seq<Action>)
    decreases |actions|
  {
    if !w.Settling? then actions == [] else actions != [] && SettledBy(Effects(w, actions[0]).worker, actions[1..])
  }

  /** While it settles, what a worker has done and what is left add up. */
  lemma SettlingAction(spare: nat, launch: nat, a: Action, e: Effect)
    requires e == Effects(Settling(spare, launch), a) && e.worker.Settling?
    ensures e.returned + e.worker.spare == spare && e.launched + e.worker.launch == launch
  {
    assert Owed(Settling(spare, launch)) == launch && Owed(e.worker) == e.worker.launch;
  }

  /** It moves on only with nothing left. */
  lemma SettledAction(spare: nat, launch: nat, a: Action, e: Effect)
    requires e == Effects(Settling(spare, launch), a) && !e.worker.Settling?
    ensures spare + launch + e.returned + e.launched == 0
  {
    assert e == ActSettling(spare, launch, a.step, a.occupied, a.capacity, a.cancelled);
  }

  lemma {:induction false} SettlingAddsUp(spare: nat, launch: nat, actions: seq<Action>)
    requires SettledBy(Settling(spare, launch), actions)
    ensures ReturnedBy(Settling(spare, launch), actions) == spare
    ensures LaunchedBy(Settling(spare, launch), actions) == launch
    decreases |actions|
  {
    var e := Effects(Settling(spare, launch), actions[0]);
    if !e.worker.Settling? {
      SettledAction(spare, launch, actions[0], e);
    } else {
      SettlingAction(spare, launch, actions[0], e);
      SettlingAddsUp(e.worker.spare, e.worker.launch, actions[1..]);
    }
  }

  /** The executions that a dequeue returned. */
  function Count(step: Step): nat {
    if step.DequeueReturns? then step.count else 0
  }

  lemma DequeueEnds(held: nat, a: Action)
    requires a.step.DequeueFails? || (a.step.DequeueReturns? && a.step.count <= held)
    ensures Effects(Dequeuing(held), a).worker == Settling(held - Count(a.step), Count(a.step))
  {
  }

  /**
    A dequeue of `count` executions on `held` reserved slots: by the time the
    worker starts another round, sleeps or exits, it has launched exactly `count`
    deliveries and returned exactly `held - count` slots. A failed dequeue
    returns all of them.
   */
  lemma DequeueIsSettled(held: nat, first: Action, actions: seq<Action>, w: Worker)
    requires first.step.DequeueFails? || (first.step.DequeueReturns? && first.step.count <= held)
    requires w == Effects(Dequeuing(held), first).worker && SettledBy(w, actions)
    ensures LaunchedBy(w, actions) == Count(first.step) && ReturnedBy(w, actions) == held - Count(first.step)
  {
    DequeueEnds(held, first);
    SettlingAddsUp(w.spare, w.launch, actions);
  }

  // ---------- Every slot can be used ----------

  lemma Snoc(s: State, steps: seq<Step>, step: Step)
    ensures Run(s, steps + [step]) == Next(Run(s, steps), step)
  {
    assert (steps + [step])[..|steps|] == steps;
  }

  function LaunchSteps(i: nat): seq<Step> {
    [Reserve(i)] + [StartDequeue(i)] + [DequeueReturns(i, 1)] + [Launch(i)] + [NextRound(i, false)]
  }

  lemma RunLaunchSteps(s: State, i: nat)
    ensures Run(s, LaunchSteps(i))
            == Next(Next(Next(Next(Next(s, Reserve(i)), StartDequeue(i)), DequeueReturns(i, 1)), Launch(i)),
                    NextRound(i, false))
  {
    Snoc(s, [], Reserve(i));
    assert [] + [Reserve(i)] == [Reserve(i)];
    Snoc(s, [Reserve(i)], StartDequeue(i));
    Snoc(s, [Reserve(i)] + [StartDequeue(i)], DequeueReturns(i, 1));
    Snoc(s, [Reserve(i)] + [StartDequeue(i)] + [DequeueReturns(i, 1)], Launch(i));
    Snoc(s, [Reserve(i)] + [StartDequeue(i)] + [DequeueReturns(i, 1)] + [Launch(i)], NextRound(i, false));
  }

  /** Worker i moves on to `w`. */
  predicate Moved(s: State, s': State, i: nat, w: Worker, occupied: int, delivering: int) {
    && i < |s.workers| && s'.workers == s.workers[i := w] && s'.cancelled == s.cancelled
    && s'.occupied == s.occupied + occupied && s'.delivering == s.delivering + delivering
  }

  lemma Reserves(s: State, i: nat)
    requires i < |s.workers| && s.workers[i].AtTop? && s.occupied < Capacity(s)
    ensures Moved(s, Next(s, Reserve(i)), i, Reserving(1), 1, 0)
  {
  }

  lemma Dequeues(s: State, i: nat)
    requires i < |s.workers| && s.workers[i] == Reserving(1)
    ensures Moved(s, Next(Next(s, StartDequeue(i)), DequeueReturns(i, 1)), i, Settling(0, 1), 0, 0)
  {
    var a := Next(s, StartDequeue(i));
    assert Moved(s, a, i, Dequeuing(1), 0, 0);
    assert s.workers[i := Dequeuing(1)][i := Settling(0, 1)] == s.workers[i := Settling(0, 1)];
  }

  lemma LaunchesOne(s: State, i: nat)
    requires i < |s.workers| && s.workers[i].Settling? && s.workers[i].spare == 0 && s.workers[i].launch > 0
    ensures Moved(s, Next(s, Launch(i)), i, s.workers[i].(launch := s.workers[i].launch - 1), 0, 1)
  {
  }

  lemma StartsOver(s: State, i: nat)
    requires i < |s.workers| && s.workers[i].Settling? && Held(s.workers[i]) == 0
    ensures Moved(s, Next(s, NextRound(i, false)), i, AtTop, 0, 0)
  {
  }

  lemma Overwrites(workers: seq<Worker>, i: nat, v: Worker, w: Worker)
    requires i < |workers|
    ensures workers[i := v][i := w] == workers[i := w]
  {
  }

  /** As long as a slot is free, a worker at the top gets one more execution under way. */
  lemma FreeSlotIsUsable(s: State, i: nat)
    requires i < |s.workers| && s.workers[i].AtTop? && s.occupied < Capacity(s)
    ensures Moved(s, Run(s, LaunchSteps(i)), i, AtTop, 1, 1)
  {
    RunLaunchSteps(s, i);
    Reserves(s, i);
    var a := Next(s, Reserve(i));
    Dequeues(a, i);
    var b := Next(Next(a, StartDequeue(i)), DequeueReturns(i, 1));
    LaunchesOne(b, i);
    StartsOver(Next(b, Launch(i)), i);
    Overwrites(s.workers, i, Reserving(1), Settling(0, 1));
    Overwrites(s.workers, i, Settling(0, 1), Settling(0, 0));
    Overwrites(s.workers, i, Settling(0, 0), AtTop);
  }

  lemma {:induction false} RunAppend(s: State, a: seq<Step>, b: seq<Step>)
    ensures Run(s, a + b) == Run(Run(s, a), b)
  {
    if b == [] {
      assert a + b == a;
    } else {
      RunAppend(s, a, b[..|b| - 1]);
      assert (a + b)[..|a + b| - 1] == a + b[..|b| - 1];
    }
  }

  /** Even one worker alone can keep any number of slots busy, up to all of them. */
  lemma {:induction false} AllSlotsAreUsable(s: State, n: nat) returns (steps: seq<Step>)
    requires Init(s) && n <= SLOTS_PER_WORKER * |s.workers|
    ensures var s' := Run(s, steps); s'.workers == s.workers && s'.delivering == n && s'.occupied == n
  {
    steps := [];
    if n > 0 {
      var before := AllSlotsAreUsable(s, n - 1);
      FreeSlotIsUsable(Run(s, before), 0);
      assert s.workers[0 := AtTop] == s.workers;
      RunAppend(s, before, LaunchSteps(0));
      steps := before + LaunchSteps(0);
    }
  }

  lemma ReservesMore(s: State, i: nat)
    requires i < |s.workers| && s.workers[i].Reserving? && s.workers[i].held < MAX_BATCH
    requires s.workers[i].held < Capacity(s) && s.occupied < Capacity(s)
    ensures Moved(s, Next(s, ReserveMore(i)), i, Reserving(s.workers[i].held + 1), 1, 0)
  {
  }

  /** A worker at the top can reserve a batch of any size up to sixteen for which slots are free. */
  lemma {:induction false} BatchIsReservable(s: State, i: nat, n: nat) returns (steps: seq<Step>)
    requires i < |s.workers| && s.workers[i].AtTop? && 0 < n <= MAX_BATCH && s.occupied + n <= Capacity(s)
    ensures Moved(s, Run(s, steps), i, Reserving(n), n, 0)
  {
    if n == 1 {
      steps := [Reserve(i)];
      Snoc(s, [], Reserve(i));
      assert [] + [Reserve(i)] == [Reserve(i)];
      Reserves(s, i);
    } else {
      var before := BatchIsReservable(s, i, n - 1);
      Snoc(s, before, ReserveMore(i));
      ReservesMore(Run(s, before), i);
      Overwrites(s.workers, i, Reserving(n - 1), Reserving(n));
      steps := before + [ReserveMore(i)];
    }
  }
}
