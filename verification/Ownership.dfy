/**
  Execution ownership as a step system: many dispatchers, one table, a database
  clock and local clocks that run at one rate with arbitrary constant offsets.
  Requests start, reach the database and are answered in separate steps; a
  request may reach the database after its caller has given up, a reply may be
  lost or late, and a dispatcher may crash at any point.

  A step whose guard does not hold leaves the state unchanged, so a run is any
  sequence of steps.
 */
module Ownership {
  import opened Options
  import opened ExecutionRows
  import opened LocalLease
  import opened Dispatch

  type Node = nat

  /** A claim: execution id and claim generation. */
  type Key = (Id, nat)

  datatype NodeConfig = NodeConfig(clockOffset: int, configuredLease: nat)

  datatype Config = Config(databaseOffset: int, nodes: map<Node, NodeConfig>)

  // ---------- Dispatchers ----------

  datatype ExitReason =
    | SetupFailed          // job not loaded, or no webhook URL
    | CircuitOpen
    | LostBeforeCompletion // ownership lost before the completion request was sent
    | Returned(lost: bool) // complete() returned; `lost` if it reported the lease as gone
    | Died                 // the process crashed

  /** Where dispatchOwned stands. */
  datatype Pc =
    | AwaitingGrant        // claimed in the database, reply not yet received
    | SettingUp
    | Renewing
    | Sending
    | Recording
    | BackingOff
    | Finishing(status: Status)   // the verdict is in; complete() not yet sent
    | Completing(status: Status)
    | Exited(reason: ExitReason)

  datatype DbAnswer = NotYet | Yes | No

  datatype Renewal = Idle | Asked(started: int, answer: DbAnswer, byLoop: bool)

  datatype Completion = NotSent | InFlight(status: Status) | Written(status: Status) | Rejected

  datatype Owner = Owner(
    node: Node,
    ns: string,
    lease: Lease,
    pc: Pc,
    renewal: Renewal,
    abandoned: nat,               // renewals whose caller gave up but which the database may still run
    sends: seq<WebhookResult>,
    completion: Completion
  )

  function Abandon(o: Owner): Owner {
    o.(renewal := Idle, abandoned := o.abandoned + if o.renewal.Asked? && o.renewal.answer.NotYet? then 1 else 0)
  }

  /** Every return path closes the lease: cancel, and join the renewal. */
  function Exit(o: Owner, reason: ExitReason): Owner {
    Abandon(o).(lease := Cancelled(o.lease), pc := Exited(reason))
  }

  predicate Working(o: Owner) {
    !o.pc.AwaitingGrant? && !o.pc.Exited?
  }

  // ---------- State ----------

  /** One DequeueExecutions or ClaimExecution request; `only` names the row of a direct claim. */
  datatype Ask = Ask(node: Node, started: int, only: Option<(Id, string)>, slots: nat)

  datatype Event =
    | ClaimEvent(id: Id, generation: nat, node: Node)
    | RenewEvent(id: Id, generation: nat)
    | EndEvent(id: Id, generation: nat, status: Status)
    | RequeueEvent(id: Id, generation: nat)

  datatype State = State(
    now: int,                     // true time; every clock is this plus its offset
    table: Table,
    asks: map<nat, Ask>,
    owners: map<Key, Owner>,
    log: seq<Event>               // successful statements, in database order
  )

  function DbNow(c: Config, s: State): int {
    s.now + c.databaseOffset
  }

  function LocalNow(c: Config, s: State, node: Node): int
    requires node in c.nodes
  {
    s.now + c.nodes[node].clockOffset
  }

  function Duration(c: Config, node: Node): nat
    requires node in c.nodes
  {
    Truncated(c.nodes[node].configuredLease)
  }

  predicate ValidConfig(c: Config) {
    forall n | n in c.nodes :: c.nodes[n].configuredLease >= MILLISECOND
  }

  predicate Init(s: State) {
    && (forall id | id in s.table :: Unclaimed(s.table[id]))
    && s.asks == map[] && s.owners == map[] && s.log == []
  }

  datatype Setup = Ready | Unusable | Open

  datatype Step =
    | Tick(elapsed: nat)
    | InsertRow(id: Id, ns: string, createdAt: int)
    | LegacyUpdate(id: Id, status: Status)
    | Requeue(id: Id)
    | AskClaim(request: nat, node: Node, only: Option<(Id, string)>, slots: nat)
    | DbClaim(request: nat, id: Id)
    | GrantReceived(key: Key)
    | GrantLost(key: Key)
    | SetUp(key: Key, outcome: Setup)
    | AskRenew(key: Key, byLoop: bool)
    | DbRenew(key: Key)
    | DbRenewAbandoned(key: Key)
    | RenewOk(key: Key)
    | RenewError(key: Key)
    | WatchExpiry(key: Key)
    | OperationTimeout(key: Key)
    | Send(key: Key, result: WebhookResult)
    | Record(key: Key)
    | BackoffOver(key: Key)
    | StopRenewal(key: Key)
    | AskComplete(key: Key)
    | DbComplete(key: Key)
    | CompleteReturned(key: Key)
    | Crash(node: Node)

  // ---------- Database steps ----------

  function Log(s: State, e: Event): seq<Event> {
    s.log + [e]
  }

  function InsertRowStep(s: State, id: Id, ns: string, createdAt: int): State {
    if id in s.table then s
    else s.(table := s.table[id := Row(ns, createdAt, Emitted, 0, None)])
  }

  function LegacyUpdateStep(s: State, id: Id, status: Status): State {
    if id !in s.table || !LegacyWritable(s.table[id]) then s
    else s.(table := s.table[id := s.table[id].(status := status)],
            log := if Terminal(status) then Log(s, EndEvent(id, 0, status)) else s.log)
  }

  /** One row of a requeue statement; a batch is several of these at one instant. */
  function RequeueStep(c: Config, s: State, id: Id): State {
    if id !in s.table || !Stale(s.table[id], DbNow(c, s)) then s
    else s.(table := s.table[id := Requeued(s.table[id])],
            log := Log(s, RequeueEvent(id, Requeued(s.table[id]).generation)))
  }

  predicate ClaimGuard(c: Config, s: State, request: nat, id: Id) {
    && request in s.asks && s.asks[request].slots > 0 && s.asks[request].node in c.nodes
    && id in s.table && s.table[id].status.Emitted?
    && (s.asks[request].only.Some? ==> s.asks[request].only.value == (id, s.table[id].ns))
  }

  /** One row of a claim statement. The owner record exists from here on, even if the reply is lost. */
  function DbClaimStep(c: Config, s: State, request: nat, id: Id): State {
    if !ClaimGuard(c, s, request, id) then s
    else
      var ask := s.asks[request];
      var row := Claimed(s.table[id], DbNow(c, s), DatabaseInterval(c.nodes[ask.node].configuredLease));
      var owner := Owner(ask.node, row.ns, Lease(ask.started + Duration(c, ask.node), false),
                         AwaitingGrant, Idle, 0, [], NotSent);
      s.(table := s.table[id := row],
         asks := s.asks[request := ask.(slots := ask.slots - 1)],
         owners := s.owners[(id, row.generation) := owner],
         log := Log(s, ClaimEvent(id, row.generation, ask.node)))
  }

  predicate HeldBy(c: Config, s: State, key: Key) {
    key in s.owners && Visible(s.table, key.0, s.owners[key].ns) && Held(s.table[key.0], key.1, DbNow(c, s))
  }

  function RenewedTable(c: Config, s: State, key: Key): Table
    requires HeldBy(c, s, key) && s.owners[key].node in c.nodes
  {
    s.table[key.0 := Renewed(s.table[key.0], DbNow(c, s),
                             DatabaseInterval(c.nodes[s.owners[key].node].configuredLease))]
  }

  function DbRenewStep(c: Config, s: State, key: Key): State {
    if key !in s.owners || s.owners[key].node !in c.nodes || !s.owners[key].renewal.Asked?
       || !s.owners[key].renewal.answer.NotYet? then s
    else
      var o := s.owners[key];
      if HeldBy(c, s, key) then
        s.(table := RenewedTable(c, s, key),
           owners := s.owners[key := o.(renewal := o.renewal.(answer := Yes))],
           log := Log(s, RenewEvent(key.0, key.1)))
      else
        s.(owners := s.owners[key := o.(renewal := o.renewal.(answer := No))])
  }

  /** A renewal that reaches the database after its caller gave up on it. */
  function DbRenewAbandonedStep(c: Config, s: State, key: Key): State {
    if key !in s.owners || s.owners[key].node !in c.nodes || s.owners[key].abandoned == 0 then s
    else
      var o := s.owners[key];
      var owners := s.owners[key := o.(abandoned := o.abandoned - 1)];
      if HeldBy(c, s, key) then
        s.(table := RenewedTable(c, s, key), owners := owners, log := Log(s, RenewEvent(key.0, key.1)))
      else
        s.(owners := owners)
  }

  function DbCompleteStep(c: Config, s: State, key: Key): State {
    if key !in s.owners || !s.owners[key].completion.InFlight? then s
    else
      var o := s.owners[key];
      var status := o.completion.status;
      if HeldBy(c, s, key) then
        s.(table := s.table[key.0 := Completed(s.table[key.0], status)],
           owners := s.owners[key := o.(completion := Written(status))],
           log := Log(s, EndEvent(key.0, key.1, status)))
      else
        s.(owners := s.owners[key := o.(completion := Rejected)])
  }

  // ---------- Dispatcher steps: each changes one owner ----------

  function GrantReceivedStep(o: Owner): Owner {
    if o.pc.AwaitingGrant? then o.(pc := SettingUp) else o
  }

  function GrantLostStep(o: Owner): Owner {
    if o.pc.AwaitingGrant? then Exit(o, LostBeforeCompletion) else o
  }

  function SetUpStep(o: Owner, outcome: Setup): Owner {
    if !o.pc.SettingUp? then o
    else match outcome
      case Ready => o.(pc := Renewing)
      case Unusable => Exit(o, SetupFailed)
      case Open => Exit(o, CircuitOpen)
  }

  function AskRenewStep(o: Owner, byLoop: bool, now: int): Owner {
    if !Working(o) || o.pc.Completing? || !o.renewal.Idle? || (byLoop && !o.pc.Renewing?) then o
    else if o.lease.cancelled then (if byLoop then Exit(o, LostBeforeCompletion) else o)
    else o.(renewal := Asked(now, NotYet, byLoop))
  }

  function RenewOkStep(o: Owner, duration: int, now: int): Owner {
    if !o.renewal.Asked? || !o.renewal.answer.Yes? then o
    else
      var lease := Extended(o.lease, o.renewal.started, duration, now);
      var o' := o.(lease := lease, renewal := Idle);
      if !o.renewal.byLoop then o'
      else if lease.cancelled then Exit(o', LostBeforeCompletion)
      else o'.(pc := Sending)
  }

  function RenewErrorStep(o: Owner): Owner {
    if !o.renewal.Asked? then o
    else if o.renewal.byLoop then Exit(o, LostBeforeCompletion)
    else Abandon(o).(lease := Cancelled(o.lease))
  }

  function WatchExpiryStep(o: Owner, now: int): Owner {
    if Working(o) then o.(lease := Watched(o.lease, now)) else o
  }

  function OperationTimeoutStep(o: Owner): Owner {
    if Working(o) then o.(lease := Cancelled(o.lease)) else o
  }

  function SendStep(o: Owner, result: WebhookResult): Owner {
    if !o.pc.Sending? then o
    else if o.lease.cancelled then Exit(o, LostBeforeCompletion)
    else o.(sends := o.sends + [result], pc := Recording)
  }

  function RecordStep(o: Owner): Owner {
    if !o.pc.Recording? || o.sends == [] then o
    else if o.lease.cancelled then Exit(o, LostBeforeCompletion)
    else match AfterSend(o.sends)
      case Deliver => o.(pc := Finishing(Delivered))
      case GiveUp => o.(pc := Finishing(Failed))
      case Retry => o.(pc := BackingOff)
  }

  function BackoffOverStep(o: Owner): Owner {
    if !o.pc.BackingOff? then o
    else if o.lease.cancelled then Exit(o, LostBeforeCompletion)
    else o.(pc := Renewing)
  }

  /** complete() first cancels and joins the background renewal, without revoking the lease. */
  function StopRenewalStep(o: Owner): Owner {
    if o.pc.Finishing? then Abandon(o) else o
  }

  function AskCompleteStep(o: Owner): Owner {
    if !o.pc.Finishing? || !o.renewal.Idle? then o
    else if o.lease.cancelled then Exit(o, LostBeforeCompletion)
    else o.(pc := Completing(o.pc.status), completion := InFlight(o.pc.status))
  }

  function CompleteReturnedStep(o: Owner): Owner {
    if o.pc.Completing? then Exit(o, Returned(o.lease.cancelled)) else o
  }

  function OwnerStep(c: Config, s: State, step: Step, o: Owner): Owner
    requires o.node in c.nodes
  {
    var now := LocalNow(c, s, o.node);
    match step
    case GrantReceived(_) => GrantReceivedStep(o)
    case GrantLost(_) => GrantLostStep(o)
    case SetUp(_, outcome) => SetUpStep(o, outcome)
    case AskRenew(_, byLoop) => AskRenewStep(o, byLoop, now)
    case RenewOk(_) => RenewOkStep(o, Duration(c, o.node), now)
    case RenewError(_) => RenewErrorStep(o)
    case WatchExpiry(_) => WatchExpiryStep(o, now)
    case OperationTimeout(_) => OperationTimeoutStep(o)
    case Send(_, result) => SendStep(o, result)
    case Record(_) => RecordStep(o)
    case BackoffOver(_) => BackoffOverStep(o)
    case StopRenewal(_) => StopRenewalStep(o)
    case AskComplete(_) => AskCompleteStep(o)
    case CompleteReturned(_) => CompleteReturnedStep(o)
    case _ => o
  }

  predicate IsOwnerStep(step: Step) {
    step.GrantReceived? || step.GrantLost? || step.SetUp? || step.AskRenew? || step.RenewOk? || step.RenewError?
    || step.WatchExpiry? || step.OperationTimeout? || step.Send? || step.Record? || step.BackoffOver?
    || step.StopRenewal? || step.AskComplete? || step.CompleteReturned?
  }

  /** A crash ends every delivery of the node; its requests may still reach the database. */
  function Crashed(o: Owner): Owner {
    if o.pc.Exited? then o else Exit(o, Died)
  }

  function Next(c: Config, s: State, step: Step): State {
    if IsOwnerStep(step) then
      if step.key !in s.owners || s.owners[step.key].node !in c.nodes then s
      else s.(owners := s.owners[step.key := OwnerStep(c, s, step, s.owners[step.key])])
    else match step
      case Tick(elapsed) => s.(now := s.now + elapsed)
      case InsertRow(id, ns, createdAt) => InsertRowStep(s, id, ns, createdAt)
      case LegacyUpdate(id, status) => LegacyUpdateStep(s, id, status)
      case Requeue(id) => RequeueStep(c, s, id)
      case AskClaim(request, node, only, slots) =>
        if request in s.asks || node !in c.nodes then s
        else s.(asks := s.asks[request := Ask(node, LocalNow(c, s, node), only, slots)])
      case DbClaim(request, id) => DbClaimStep(c, s, request, id)
      case DbRenew(key) => DbRenewStep(c, s, key)
      case DbRenewAbandoned(key) => DbRenewAbandonedStep(c, s, key)
      case DbComplete(key) => DbCompleteStep(c, s, key)
      case Crash(node) =>
        s.(owners := map key | key in s.owners ::
             if s.owners[key].node == node then Crashed(s.owners[key]) else s.owners[key])
      case _ => s
  }

  function Run(c: Config, s: State, steps: seq<Step>): State {
    if steps == [] then s
    else Next(c, Run(c, s, steps[..|steps| - 1]), steps[|steps| - 1])
  }

  // ---------- Invariant ----------

  /** The owner's deadline in true time. */
  function TrueDeadline(c: Config, o: Owner): int
    requires o.node in c.nodes
  {
    o.lease.deadline - c.nodes[o.node].clockOffset
  }

  /** The row's lease in true time. */
  function TrueLease(c: Config, r: Row): int
    requires r.lease.Some?
  {
    r.lease.value - c.databaseOffset
  }

  /** How far the loop has got is what its results say. */
  predicate LoopInv(o: Owner) {
    match o.pc
    case AwaitingGrant => o.sends == [] && o.completion.NotSent?
    case SettingUp => o.sends == [] && o.completion.NotSent?
    case Renewing => OnlyRetryable(o.sends) && |o.sends| < MAX_ATTEMPTS && o.completion.NotSent?
    case Sending => OnlyRetryable(o.sends) && |o.sends| < MAX_ATTEMPTS && o.completion.NotSent?
    case BackingOff => OnlyRetryable(o.sends) && |o.sends| < MAX_ATTEMPTS && o.completion.NotSent?
    case Recording =>
      && 1 <= |o.sends| <= MAX_ATTEMPTS && OnlyRetryable(o.sends[..|o.sends| - 1]) && o.completion.NotSent?
    case Finishing(status) => Justifies(o.sends, status) && o.completion.NotSent?
    case Completing(status) => Justifies(o.sends, status) && !o.completion.NotSent?
    case Exited(reason) => reason.Died? || (reason.Returned? <==> !o.completion.NotSent?)
  }

  predicate CompletionInv(o: Owner) {
    match o.completion
    case InFlight(status) => Terminal(status) && Justifies(o.sends, status)
    case Written(status) => Terminal(status) && Justifies(o.sends, status)
    case _ => true
  }

  /** What an owner knows on its own, without the row. */
  predicate ProgressInv(o: Owner) {
    LoopInv(o) && CompletionInv(o) && (o.renewal.Asked? && o.renewal.byLoop ==> o.pc.Renewing?)
  }

  /** While the row is this owner's, its database lease covers every local promise. */
  predicate LeaseCovers(c: Config, now: int, o: Owner, r: Row)
    requires o.node in c.nodes && r.lease.Some?
  {
    && TrueDeadline(c, o) <= TrueLease(c, r) <= now + Duration(c, o.node)
    && (o.renewal.Asked? && o.renewal.answer.Yes? ==>
          o.renewal.started - c.nodes[o.node].clockOffset + Duration(c, o.node) <= TrueLease(c, r))
  }

  /** Local promises against the row: the heart of the protocol. */
  predicate Covered(c: Config, now: int, generation: nat, o: Owner, r: Row)
    requires o.node in c.nodes
  {
    && 1 <= generation <= r.generation
    // Deadlines and renewal starts come from the past.
    && TrueDeadline(c, o) <= now + Duration(c, o.node)
    && (o.renewal.Asked? ==> o.renewal.started <= now + c.nodes[o.node].clockOffset)
    && (r.status.InProgress? && r.generation == generation && r.lease.Some? ==> LeaseCovers(c, now, o, r))
    // Until the deadline nobody but the owner can move the row on.
    && (now < TrueDeadline(c, o) ==>
          r.generation == generation && (r.status.InProgress? || o.completion == Written(r.status)))
    && (o.completion.Written? ==> r.generation == generation && r.status == o.completion.status)
  }

  ghost predicate OwnerInv(c: Config, s: State, key: Key)
    requires key in s.owners
  {
    var o := s.owners[key];
    && o.node in c.nodes && key.0 in s.table
    && ProgressInv(o)
    && Covered(c, s.now, key.1, o, s.table[key.0])
  }

  ghost predicate RowInv(s: State, id: Id)
    requires id in s.table
  {
    var r := s.table[id];
    && WellFormed(r)
    && (r.status.InProgress? && r.generation > 0 ==> (id, r.generation) in s.owners)
    && (Terminal(r.status) && r.generation > 0 ==>
          (id, r.generation) in s.owners && s.owners[(id, r.generation)].completion == Written(r.status))
  }

  predicate AskInv(c: Config, s: State, request: nat)
    requires request in s.asks
  {
    s.asks[request].node in c.nodes && s.asks[request].started <= LocalNow(c, s, s.asks[request].node)
  }

  ghost predicate Inv(c: Config, s: State) {
    && ValidConfig(c)
    && (forall request | request in s.asks :: AskInv(c, s, request))
    && (forall id | id in s.table :: RowInv(s, id))
    && (forall key | key in s.owners :: OwnerInv(c, s, key))
  }
}
