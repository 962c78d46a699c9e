/**
  Leader election over PostgreSQL advisory locks (internal/leaderelection/leader.go),
  the leader duties of cmd/cronlite/main.go and the migration lock of
  internal/migrate/run.go, as one step system of processes and database sessions.

  A session keeps its locks until the server ends it, and the server ends a
  session only after its process discarded it or died.
 */
module Leader {
  import opened Options

  type Process = nat
  type SessionId = nat

  datatype Lock = LeaderLock | MigrationLock

  datatype Role = Elector | Migrator

  /** Discarded sessions stay on the server, possibly with a query still running, until it ends them. */
  datatype Place = Pooled | InUse(role: Role) | Discarded | Ended

  datatype Session = Session(process: Process, place: Place, locks: set<Lock>)

  // ---------- Leader duties ----------

  datatype Duty = SchedulerDuty(generation: nat) | ReconcilerDuty(generation: nat)

  /** The leaderRuntime: its running flag and the goroutines in its wait group. */
  datatype Runtime = Runtime(running: bool, generation: nat, live: set<Duty>)

  function Started(rt: Runtime, cancelled: bool, reconcile: bool): Runtime {
    if rt.running || cancelled then rt
    else
      var g := rt.generation + 1;
      Runtime(true, g, rt.live + {SchedulerDuty(g)} + if reconcile then {ReconcilerDuty(g)} else {})
  }

  function Stopped(rt: Runtime): Runtime {
    if rt.running then rt.(running := false) else rt
  }

  /** All duties belong to the current generation, and a stopped runtime has none. */
  predicate RuntimeInv(rt: Runtime) {
    && (forall d | d in rt.live :: d.generation == rt.generation)
    && (!rt.running ==> rt.live == {})
  }

  class LeaderRuntime {
    var rt: Runtime

    constructor ()
      ensures RuntimeInv(rt) && rt.live == {} && !rt.running
    {
      rt := Runtime(false, 0, {});
    }

    method Start(cancelled: bool, reconcile: bool)
      requires RuntimeInv(rt)
      modifies this
      ensures RuntimeInv(rt) && rt == Started(old(rt), cancelled, reconcile)
      ensures !old(rt).running && !cancelled ==>
                && rt.running && rt.generation == old(rt).generation + 1
                && SchedulerDuty(rt.generation) in rt.live && (ReconcilerDuty(rt.generation) in rt.live <==> reconcile)
      ensures old(rt).running || cancelled ==> rt == old(rt)
      ensures rt.generation != old(rt).generation ==> old(rt).live == {}
    {
      if rt.running || cancelled {
        return;
      }
      var g := rt.generation + 1;
      var live := rt.live + {SchedulerDuty(g)};
      if reconcile {
        live := live + {ReconcilerDuty(g)};
      }
      rt := Runtime(true, g, live);
    }

    /** Waits for every duty to return before the runtime counts as stopped. */
    method Stop()
      requires RuntimeInv(rt)
      modifies this
      ensures RuntimeInv(rt) && !rt.running && rt.live == {} && rt.generation == old(rt).generation
    {
      if !rt.running {
        return;
      }
      while rt.live != {}
        invariant RuntimeInv(rt) && rt.generation == old(rt).generation && rt.running
        decreases rt.live
      {
        var d :| d in rt.live;
        rt := rt.(live := rt.live - {d});
      }
      rt := rt.(running := false);
    }
  }

  // ---------- Processes ----------

  datatype ElectorPc =
    | Out
    | Connected(session: SessionId)
    | Answered(session: SessionId, granted: bool)   // the server has run the lock query
    | Leading(session: SessionId)
    | Cancelling(session: SessionId)                 // leader context cancelled, startup not yet joined
    | Demoting(session: SessionId)

  datatype MigratorPc =
    | Away
    | Trying(session: SessionId)
    | Told(session: SessionId, granted: bool)
    | Migrating(session: SessionId)
    | Unlocked(session: SessionId)                   // the server has run the unlock

  /** `starting` while the onElected goroutine has not returned. */
  datatype Proc = Proc(elector: ElectorPc, starting: bool, runtime: Runtime, migrator: MigratorPc)

  const IDLE := Proc(Out, false, Runtime(false, 0, {}), Away)

  datatype State = State(procs: map<Process, Proc>, sessions: map<SessionId, Session>)

  predicate Init(s: State) {
    (forall p | p in s.procs :: s.procs[p] == IDLE) && s.sessions == map[]
  }

  datatype Step =
    | Open(p: Process, session: SessionId)
    | Connect(p: Process, session: SessionId)
    | DbTryLeader(p: Process)
    | LeaderReplyLost(p: Process)
    | LeaderDenied(p: Process)
    | LeaderGranted(p: Process)
    | RunElected(p: Process, reconcile: bool)
    | LeadershipEnds(p: Process)
    | StartupJoined(p: Process)
    | DutyReturns(p: Process, duty: Duty)
    | Demoted(p: Process)
    | MigrateConnect(p: Process, session: SessionId)
    | DbTryMigration(p: Process)
    | MigrationReplyLost(p: Process)
    | MigrationDenied(p: Process, giveUp: bool)
    | MigrationGranted(p: Process)
    | DbUnlock(p: Process)
    | UnlockReplied(p: Process)
    | Crash(p: Process)
    | DbLateGrant(session: SessionId, lock: Lock)
    | ServerEnds(session: SessionId)

  // ---------- The server ----------

  /** pg_try_advisory_lock: free, or already held by this very session. */
  ghost predicate Grantable(s: State, session: SessionId, lock: Lock) {
    forall t | t in s.sessions && t != session :: lock !in s.sessions[t].locks
  }

  function WithLock(s: State, session: SessionId, lock: Lock): map<SessionId, Session>
    requires session in s.sessions
  {
    s.sessions[session := s.sessions[session].(locks := s.sessions[session].locks + {lock})]
  }

  function Placed(s: State, session: SessionId, place: Place): map<SessionId, Session> {
    if session in s.sessions then s.sessions[session := s.sessions[session].(place := place)] else s.sessions
  }

  predicate InPool(s: State, p: Process, session: SessionId) {
    session in s.sessions && s.sessions[session].process == p && s.sessions[session].place.Pooled?
  }

  // ---------- Steps of one process ----------

  ghost function ElectorStep(s: State, p: Process, step: Step): State
    requires p in s.procs
  {
    var q := s.procs[p];
    match step
    case Connect(_, session) =>
      if q.elector.Out? && InPool(s, p, session) then
        State(s.procs[p := q.(elector := Connected(session))], Placed(s, session, InUse(Elector)))
      else s
    case DbTryLeader(_) =>
      if !q.elector.Connected? || q.elector.session !in s.sessions then s
      else if Grantable(s, q.elector.session, LeaderLock) then
        State(s.procs[p := q.(elector := Answered(q.elector.session, true))],
              WithLock(s, q.elector.session, LeaderLock))
      else
        s.(procs := s.procs[p := q.(elector := Answered(q.elector.session, false))])
    case LeaderReplyLost(_) =>
      if q.elector.Connected? || q.elector.Answered? then
        State(s.procs[p := q.(elector := Out)], Placed(s, q.elector.session, Discarded))
      else s
    case LeaderDenied(_) =>
      if q.elector.Answered? && !q.elector.granted then
        State(s.procs[p := q.(elector := Out)], Placed(s, q.elector.session, Pooled))
      else s
    case LeaderGranted(_) =>
      if q.elector.Answered? && q.elector.granted then
        s.(procs := s.procs[p := q.(elector := Leading(q.elector.session), starting := true)])
      else s
    case RunElected(_, reconcile) =>
      if q.starting then
        s.(procs := s.procs[p := q.(starting := false, runtime := Started(q.runtime, !q.elector.Leading?, reconcile))])
      else s
    case LeadershipEnds(_) =>
      if q.elector.Leading? then s.(procs := s.procs[p := q.(elector := Cancelling(q.elector.session))]) else s
    case StartupJoined(_) =>
      if q.elector.Cancelling? && !q.starting
      then s.(procs := s.procs[p := q.(elector := Demoting(q.elector.session))]) else s
    case DutyReturns(_, duty) =>
      s.(procs := s.procs[p := q.(runtime := q.runtime.(live := q.runtime.live - {duty}))])
    case Demoted(_) =>
      if q.elector.Demoting? && (q.runtime.running ==> q.runtime.live == {}) then
        State(s.procs[p := q.(elector := Out, runtime := Stopped(q.runtime))], Placed(s, q.elector.session, Discarded))
      else s
    case _ => s
  }

  ghost function MigratorStep(s: State, p: Process, step: Step): State
    requires p in s.procs
  {
    var q := s.procs[p];
    match step
    case MigrateConnect(_, session) =>
      if q.migrator.Away? && InPool(s, p, session) then
        State(s.procs[p := q.(migrator := Trying(session))], Placed(s, session, InUse(Migrator)))
      else s
    case DbTryMigration(_) =>
      if !q.migrator.Trying? || q.migrator.session !in s.sessions then s
      else if Grantable(s, q.migrator.session, MigrationLock) then
        State(s.procs[p := q.(migrator := Told(q.migrator.session, true))],
              WithLock(s, q.migrator.session, MigrationLock))
      else
        s.(procs := s.procs[p := q.(migrator := Told(q.migrator.session, false))])
    case MigrationReplyLost(_) =>
      if !q.migrator.Away? then
        State(s.procs[p := q.(migrator := Away)], Placed(s, q.migrator.session, Discarded))
      else s
    case MigrationDenied(_, giveUp) =>
      if !q.migrator.Told? || q.migrator.granted then s
      else if giveUp then State(s.procs[p := q.(migrator := Away)], Placed(s, q.migrator.session, Pooled))
      else s.(procs := s.procs[p := q.(migrator := Trying(q.migrator.session))])
    case MigrationGranted(_) =>
      if q.migrator.Told? && q.migrator.granted then
        s.(procs := s.procs[p := q.(migrator := Migrating(q.migrator.session))])
      else s
    case DbUnlock(_) =>
      if q.migrator.Migrating? && q.migrator.session in s.sessions then
        var session := s.sessions[q.migrator.session];
        State(s.procs[p := q.(migrator := Unlocked(q.migrator.session))],
              s.sessions[q.migrator.session := session.(locks := session.locks - {MigrationLock})])
      else s
    case UnlockReplied(_) =>
      if q.migrator.Unlocked? then
        State(s.procs[p := q.(migrator := Away)], Placed(s, q.migrator.session, Pooled))
      else s
    case _ => s
  }

  /** A dead process restarts with an empty pool; its sessions linger on the server. */
  function CrashStep(s: State, p: Process): State
    requires p in s.procs
  {
    State(s.procs[p := IDLE],
          map t | t in s.sessions ::
            if s.sessions[t].process == p && !s.sessions[t].place.Ended? then s.sessions[t].(place := Discarded)
            else s.sessions[t])
  }

  predicate IsElectorStep(step: Step) {
    step.Connect? || step.DbTryLeader? || step.LeaderReplyLost? || step.LeaderDenied? || step.LeaderGranted?
    || step.RunElected? || step.LeadershipEnds? || step.StartupJoined? || step.DutyReturns? || step.Demoted?
  }

  predicate IsMigratorStep(step: Step) {
    step.MigrateConnect? || step.DbTryMigration? || step.MigrationReplyLost? || step.MigrationDenied?
    || step.MigrationGranted? || step.DbUnlock? || step.UnlockReplied?
  }

  ghost function Next(s: State, step: Step): State {
    if IsElectorStep(step) then (if step.p in s.procs then ElectorStep(s, step.p, step) else s)
    else if IsMigratorStep(step) then (if step.p in s.procs then MigratorStep(s, step.p, step) else s)
    else match step
      case Open(p, session) =>
        if session in s.sessions || p !in s.procs then s
        else s.(sessions := s.sessions[session := Session(p, Pooled, {})])
      case Crash(p) => if p in s.procs then CrashStep(s, p) else s
      case DbLateGrant(session, lock) =>
        // A query the process gave up on may still run before the server notices.
        if session in s.sessions && s.sessions[session].place.Discarded? && Grantable(s, session, lock)
        then s.(sessions := WithLock(s, session, lock)) else s
      case ServerEnds(session) =>
        if session in s.sessions && s.sessions[session].place.Discarded?
        then s.(sessions := s.sessions[session := s.sessions[session].(place := Ended, locks := {})]) else s
      case _ => s
  }

  ghost function Run(s: State, steps: seq<Step>): State {
    if steps == [] then s else Next(Run(s, steps[..|steps| - 1]), steps[|steps| - 1])
  }

  // ---------- Invariant ----------

  function SessionOf(pc: ElectorPc): Option<SessionId> {
    if pc.Out? then None else Some(pc.session)
  }

  function MigratorSession(pc: MigratorPc): Option<SessionId> {
    if pc.Away? then None else Some(pc.session)
  }

  /** The locks a session may hold, given who is using it and how far that user has got. */
  ghost predicate SessionInv(s: State, t: SessionId)
    requires t in s.sessions
  {
    var x := s.sessions[t];
    match x.place
    case Pooled => x.locks == {}
    case InUse(Elector) =>
      x.process in s.procs && SessionOf(s.procs[x.process].elector) == Some(t) && x.locks <= {LeaderLock}
    case InUse(Migrator) =>
      x.process in s.procs && MigratorSession(s.procs[x.process].migrator) == Some(t) && x.locks <= {MigrationLock}
    case Discarded => true
    case Ended => x.locks == {}
  }

  predicate Uses(s: State, p: Process, session: SessionId, role: Role) {
    session in s.sessions && s.sessions[session].process == p && s.sessions[session].place == InUse(role)
  }

  predicate ProcInv(s: State, p: Process)
    requires p in s.procs
  {
    var q := s.procs[p];
    && (!q.elector.Out? ==> Uses(s, p, q.elector.session, Elector))
    && (!q.migrator.Away? ==> Uses(s, p, q.migrator.session, Migrator))
    && RuntimeInv(q.runtime)
    && (q.runtime.running || q.starting ==> q.elector.Leading? || q.elector.Cancelling? || q.elector.Demoting?)
    && (q.starting ==> !q.elector.Demoting?)
    && (q.elector.Leading? || q.elector.Cancelling? || q.elector.Demoting?
        || (q.elector.Answered? && q.elector.granted) ==>
          LeaderLock in s.sessions[q.elector.session].locks)
    && (q.elector.Connected? || (q.elector.Answered? && !q.elector.granted) ==>
          LeaderLock !in s.sessions[q.elector.session].locks)
    && (q.migrator.Trying? || q.migrator.Unlocked? || (q.migrator.Told? && !q.migrator.granted) ==>
          MigrationLock !in s.sessions[q.migrator.session].locks)
    && (q.migrator.Migrating? || (q.migrator.Told? && q.migrator.granted) ==>
          MigrationLock in s.sessions[q.migrator.session].locks)
  }

  ghost predicate Exclusive(s: State) {
    forall t, u, lock | t in s.sessions && u in s.sessions
                        && lock in s.sessions[t].locks && lock in s.sessions[u].locks :: t == u
  }

  ghost predicate Inv(s: State) {
    && (forall t | t in s.sessions :: SessionInv(s, t))
    && (forall p | p in s.procs :: ProcInv(s, p))
    && Exclusive(s)
  }

  /** A step of process p that touches one of its sessions disturbs nobody else. */
  lemma LocalChangeKeeps(s: State, s': State, p: Process, t: SessionId)
    requires Inv(s) && p in s.procs && t in s.sessions && s.sessions[t].process == p
    requires p in s'.procs && s'.procs == s.procs[p := s'.procs[p]]
    requires t in s'.sessions && s'.sessions == s.sessions[t := s'.sessions[t]] && s'.sessions[t].process == p
    requires ProcInv(s', p) && SessionInv(s', t)
    requires forall u | u in s.sessions && u != t && s.sessions[u].process == p :: SessionInv(s', u)
    requires forall lock | lock in s'.sessions[t].locks :: lock in s.sessions[t].locks || Grantable(s, t, lock)
    ensures Inv(s')
  {
    forall q | q in s'.procs
      ensures ProcInv(s', q)
    {
      assert ProcInv(s, q);
    }
    forall u | u in s'.sessions
      ensures SessionInv(s', u)
    {
      assert SessionInv(s, u);
    }
  }

  /** A step that changes only what process p itself remembers. */
  lemma ProcChangeKeeps(s: State, s': State, p: Process)
    requires Inv(s) && p in s.procs && p in s'.procs
    requires s' == s.(procs := s.procs[p := s'.procs[p]])
    requires ProcInv(s', p)
    requires SessionOf(s'.procs[p].elector) == SessionOf(s.procs[p].elector)
    requires MigratorSession(s'.procs[p].migrator) == MigratorSession(s.procs[p].migrator)
    ensures Inv(s')
  {
    forall q | q in s'.procs
      ensures ProcInv(s', q)
    {
      assert ProcInv(s, q);
    }
    forall u | u in s'.sessions
      ensures SessionInv(s', u)
    {
      assert SessionInv(s, u);
    }
  }

  lemma ElectorKeeps(s: State, p: Process, step: Step)
    requires Inv(s) && p in s.procs && IsElectorStep(step)
    ensures Inv(ElectorStep(s, p, step))
  {
    var s' := ElectorStep(s, p, step);
    var q := s.procs[p];
    assert ProcInv(s, p);
    if s' != s {
      if step.LeaderGranted? || step.RunElected? || step.LeadershipEnds? || step.StartupJoined? || step.DutyReturns? {
        ProcChangeKeeps(s, s', p);
      } else {
        var t := if step.Connect? then step.session else q.elector.session;
        assert SessionInv(s, t);
        forall u | u in s.sessions && u != t && s.sessions[u].process == p
          ensures SessionInv(s', u)
        {
          assert SessionInv(s, u);
        }
        LocalChangeKeeps(s, s', p, t);
      }
    }
  }

  lemma MigrateConnectKeeps(s: State, p: Process, step: Step)
    requires Inv(s) && p in s.procs && step.MigrateConnect?
    ensures Inv(MigratorStep(s, p, step))
  {
    var s' := MigratorStep(s, p, step);
    assert ProcInv(s, p);
    if s' != s {
      var t := step.session;
      assert SessionInv(s, t);
      forall u | u in s.sessions && u != t && s.sessions[u].process == p
        ensures SessionInv(s', u)
      {
        assert SessionInv(s, u);
      }
      LocalChangeKeeps(s, s', p, t);
    }
  }

  /** The steps of a migrator that has a session. */
  lemma MigrationStepKeeps(s: State, p: Process, step: Step)
    requires Inv(s) && p in s.procs && IsMigratorStep(step) && !step.MigrateConnect? && !step.MigrationGranted?
    ensures Inv(MigratorStep(s, p, step))
  {
    var s' := MigratorStep(s, p, step);
    assert ProcInv(s, p);
    if s' != s {
      var t := s.procs[p].migrator.session;
      assert SessionInv(s, t);
      forall u | u in s.sessions && u != t && s.sessions[u].process == p
        ensures SessionInv(s', u)
      {
        assert SessionInv(s, u);
      }
      LocalChangeKeeps(s, s', p, t);
    }
  }

  lemma MigratorKeeps(s: State, p: Process, step: Step)
    requires Inv(s) && p in s.procs && IsMigratorStep(step)
    ensures Inv(MigratorStep(s, p, step))
  {
    if step.MigrateConnect? {
      MigrateConnectKeeps(s, p, step);
    } else if step.MigrationGranted? {
      assert ProcInv(s, p);
      if MigratorStep(s, p, step) != s {
        ProcChangeKeeps(s, MigratorStep(s, p, step), p);
      }
    } else {
      MigrationStepKeeps(s, p, step);
    }
  }

  lemma NextKeeps(s: State, step: Step)
    requires Inv(s)
    ensures Inv(Next(s, step))
  {
    if IsElectorStep(step) {
      if step.p in s.procs {
        ElectorKeeps(s, step.p, step);
      }
    } else if IsMigratorStep(step) {
      if step.p in s.procs {
        MigratorKeeps(s, step.p, step);
      }
    } else {
      var s' := Next(s, step);
      forall q | q in s'.procs
        ensures ProcInv(s', q)
      {
        assert ProcInv(s, q);
      }
      forall t | t in s'.sessions
        ensures SessionInv(s', t)
      {
        if t in s.sessions {
          assert SessionInv(s, t);
        }
      }
    }
  }

  lemma {:induction false} RunKeeps(s: State, steps: seq<Step>)
    requires Init(s)
    ensures Inv(Run(s, steps))
  {
    if steps != [] {
      RunKeeps(s, steps[..|steps| - 1]);
      NextKeeps(Run(s, steps[..|steps| - 1]), steps[|steps| - 1]);
    }
  }

  // ---------- Theorems ----------

  /** Leader duties never run in two processes at once. */
  lemma OneLeaderAtATime(s: State, steps: seq<Step>, p: Process, q: Process)
    requires Init(s)
    requires var s' := Run(s, steps);
             p in s'.procs && q in s'.procs && s'.procs[p].runtime.live != {} && s'.procs[q].runtime.live != {}
    ensures p == q
  {
    RunKeeps(s, steps);
    var s' := Run(s, steps);
    assert ProcInv(s', p) && ProcInv(s', q);
  }

  /** Within one process, duties of different leadership periods never overlap. */
  lemma GenerationsNeverOverlap(s: State, steps: seq<Step>, p: Process, d: Duty, e: Duty)
    requires Init(s)
    requires var s' := Run(s, steps); p in s'.procs && d in s'.procs[p].runtime.live && e in s'.procs[p].runtime.live
    ensures d.generation == e.generation == Run(s, steps).procs[p].runtime.generation
  {
    RunKeeps(s, steps);
    assert ProcInv(Run(s, steps), p);
  }

  /** A session that goes back to the pool holds neither lock, so no later query inherits one. */
  lemma PooledSessionsHoldNoLock(s: State, steps: seq<Step>, t: SessionId)
    requires Init(s)
    requires t in Run(s, steps).sessions && Run(s, steps).sessions[t].place.Pooled?
    ensures Run(s, steps).sessions[t].locks == {}
  {
    RunKeeps(s, steps);
    assert SessionInv(Run(s, steps), t);
  }

  /** While migrations run, no other process migrates. */
  lemma OneMigratorAtATime(s: State, steps: seq<Step>, p: Process, q: Process)
    requires Init(s)
    requires var s' := Run(s, steps);
             p in s'.procs && q in s'.procs && s'.procs[p].migrator.Migrating? && s'.procs[q].migrator.Migrating?
    ensures p == q
  {
    RunKeeps(s, steps);
    var s' := Run(s, steps);
    assert ProcInv(s', p) && ProcInv(s', q);
  }

  /** The server ends a session that its process still uses. */
  function Dropped(s: State, t: SessionId): State
    requires t in s.sessions
  {
    s.(sessions := s.sessions[t := s.sessions[t].(place := Ended, locks := {})])
  }

  ghost function TakesOver(s: State, q: Process): State {
    Next(Next(Next(s, DbTryLeader(q)), LeaderGranted(q)), RunElected(q, false))
  }

  /** A connected process that is granted the lock runs leader duties three steps later. */
  lemma GrantedRunsDuties(s: State, q: Process)
    requires q in s.procs && s.procs[q].elector.Connected? && s.procs[q].elector.session in s.sessions
    requires !s.procs[q].runtime.running && Grantable(s, s.procs[q].elector.session, LeaderLock)
    ensures q in TakesOver(s, q).procs && TakesOver(s, q).procs[q].runtime.live != {}
    ensures forall p | p in s.procs && p != q :: p in TakesOver(s, q).procs && TakesOver(s, q).procs[p] == s.procs[p]
  {
    var a := Next(s, DbTryLeader(q));
    assert a.procs[q].elector == Answered(s.procs[q].elector.session, true);
    var b := Next(a, LeaderGranted(q));
    assert b.procs[q].starting && b.procs[q].elector.Leading? && !b.procs[q].runtime.running;
    var rt := Next(b, RunElected(q, false)).procs[q].runtime;
    assert SchedulerDuty(rt.generation) in rt.live;
  }

  /**
    The hypothesis is needed. In every reachable state with a leader, the lock is
    out of reach of every other session; but if the server ended the leader's
    session behind its back, any other connected process would take over while
    the first one's duties still run.
   */
  lemma DroppedSessionBreaksExclusion(s: State, steps: seq<Step>, p: Process, q: Process)
    requires Init(s)
    requires var s' := Run(s, steps);
             && p in s'.procs && s'.procs[p].runtime.live != {}
             && q in s'.procs && p != q && s'.procs[q].elector.Connected?
    ensures !Run(s, steps).procs[p].elector.Out?
    ensures var s' := Run(s, steps);
            var t := s'.procs[p].elector.session;
            && t in s'.sessions && !Grantable(s', s'.procs[q].elector.session, LeaderLock)
            && (var after := TakesOver(Dropped(s', t), q);
                && p in after.procs && after.procs[p].runtime.live != {}
                && q in after.procs && after.procs[q].runtime.live != {})
  {
    RunKeeps(s, steps);
    var s' := Run(s, steps);
    assert ProcInv(s', p) && ProcInv(s', q);
    GrantedRunsDuties(Dropped(s', s'.procs[p].elector.session), q);
  }
}
