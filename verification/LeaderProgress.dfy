/**
  What the leader protocol can always still do: a free lock elects any process
  with all its duties, a leader hands over in order, a dead one is replaced, a
  process that was refused tries again with the same session, and a migration
  gives its lock back.
 */
module LeaderProgress {
  import opened Options
  import opened Leader

  lemma Snoc(s: State, steps: seq<Step>, step: Step)
    ensures Run(s, steps + [step]) == Next(Run(s, steps), step)
  {
    assert (steps + [step])[..|steps|] == steps;
  }

  lemma Snoc2(s: State, steps: seq<Step>, a: Step, b: Step)
    ensures Run(s, steps + [a] + [b]) == Next(Next(Run(s, steps), a), b)
  {
    Snoc(s, steps, a);
    Snoc(s, steps + [a], b);
  }

  lemma {:induction false} InvStays(s: State, steps: seq<Step>)
    requires Inv(s)
    ensures Inv(Run(s, steps))
  {
    if steps != [] {
      InvStays(s, steps[..|steps| - 1]);
      NextKeeps(Run(s, steps[..|steps| - 1]), steps[|steps| - 1]);
    }
  }

  lemma {:induction false} RunAppend(s: State, a: seq<Step>, b: seq<Step>)
    ensures Run(s, a + b) == Run(Run(s, a), b)
  {
    if b == [] {
      assert a + b == a;
    } else {
      var rest, last := b[..|b| - 1], b[|b| - 1];
      assert (a + b)[..|a + b| - 1] == a + rest;
      RunAppend(s, a, rest);
    }
  }

  ghost predicate Free(s: State, lock: Lock) {
    forall t | t in s.sessions :: lock !in s.sessions[t].locks
  }

  /** The duties of a leadership period. */
  function Duties(generation: nat, reconcile: bool): set<Duty> {
    if reconcile then {SchedulerDuty(generation), ReconcilerDuty(generation)} else {SchedulerDuty(generation)}
  }

  /** Process q leads, and just the duties of a new period run. */
  ghost predicate Leads(s: State, q: Process, generation: nat, reconcile: bool) {
    && q in s.procs && s.procs[q].elector.Leading?
    && s.procs[q].runtime == Runtime(true, generation, Duties(generation, reconcile))
  }

  /** Everyone but p is as before. */
  ghost predicate OthersStay(s: State, s': State, p: Process) {
    s'.procs.Keys == s.procs.Keys && forall q | q in s.procs && q != p :: s'.procs[q] == s.procs[q]
  }

  // ---------- Election ----------

  /** While the lock is free, any process that is not in the race becomes leader and runs all its duties. */
  lemma FreeLockElects(s: State, q: Process, session: SessionId, reconcile: bool) returns (steps: seq<Step>)
    requires Inv(s) && q in s.procs && s.procs[q].elector.Out? && session !in s.sessions && Free(s, LeaderLock)
    ensures Leads(Run(s, steps), q, s.procs[q].runtime.generation + 1, reconcile)
    ensures OthersStay(s, Run(s, steps), q)
  {
    assert ProcInv(s, q);
    var a := Connects(s, q, session);
    var first := [Open(q, session), Connect(q, session)];
    assert Run(s, first) == a by {
      Snoc2(s, [], Open(q, session), Connect(q, session));
      assert [] + [Open(q, session)] + [Connect(q, session)] == first;
    }
    var rest := GrantedRun(a, q, reconcile);
    RunAppend(s, first, rest);
    steps := first + rest;
  }

  lemma GrantedRun(s: State, q: Process, reconcile: bool) returns (steps: seq<Step>)
    requires q in s.procs && s.procs[q].elector.Connected? && s.procs[q].elector.session in s.sessions
    requires !s.procs[q].runtime.running && s.procs[q].runtime.live == {} && Free(s, LeaderLock)
    ensures Leads(Run(s, steps), q, s.procs[q].runtime.generation + 1, reconcile) && OthersStay(s, Run(s, steps), q)
  {
    GrantedLeads(s, q, reconcile);
    Snoc2(s, [], DbTryLeader(q), LeaderGranted(q));
    steps := [] + [DbTryLeader(q)] + [LeaderGranted(q)];
    Snoc(s, steps, RunElected(q, reconcile));
    steps := steps + [RunElected(q, reconcile)];
  }

  lemma Connects(s: State, q: Process, session: SessionId) returns (a: State)
    requires q in s.procs && s.procs[q].elector.Out? && session !in s.sessions && Free(s, LeaderLock)
    ensures a == Next(Next(s, Open(q, session)), Connect(q, session)) && OthersStay(s, a, q)
    ensures q in a.procs && a.procs[q] == s.procs[q].(elector := Connected(session)) && session in a.sessions
    ensures Free(a, LeaderLock)
  {
    var before := Next(s, Open(q, session));
    assert InPool(before, q, session);
    a := Next(before, Connect(q, session));
  }

  lemma GrantedLeads(s: State, q: Process, reconcile: bool)
    requires q in s.procs && s.procs[q].elector.Connected? && s.procs[q].elector.session in s.sessions
    requires !s.procs[q].runtime.running && s.procs[q].runtime.live == {} && Free(s, LeaderLock)
    ensures var s' := Next(Next(Next(s, DbTryLeader(q)), LeaderGranted(q)), RunElected(q, reconcile));
            Leads(s', q, s.procs[q].runtime.generation + 1, reconcile) && OthersStay(s, s', q)
  {
    var a := Next(s, DbTryLeader(q));
    assert Grantable(s, s.procs[q].elector.session, LeaderLock);
    assert a.procs[q].elector == Answered(s.procs[q].elector.session, true);
    var b := Next(a, LeaderGranted(q));
    assert b.procs[q].starting && b.procs[q].elector.Leading?;
    var c := Next(b, RunElected(q, reconcile));
    var g := s.procs[q].runtime.generation + 1;
    assert c.procs[q].runtime.live == Duties(g, reconcile);
  }

  // ---------- Handing over ----------

  /** A duty that returns is gone; nothing else changes. */
  lemma {:induction false} DutiesReturn(s: State, steps: seq<Step>, p: Process, q: Proc) returns (more: seq<Step>)
    requires p in Run(s, steps).procs && Run(s, steps).procs[p] == q
    ensures Run(s, more) == Run(s, steps).(procs := Run(s, steps).procs[p := q.(runtime := q.runtime.(live := {}))])
    decreases q.runtime.live
  {
    more := steps;
    if q.runtime.live == {} {
      assert q.(runtime := q.runtime.(live := {})) == q;
      assert Run(s, steps).procs[p := q] == Run(s, steps).procs;
    } else {
      var d :| d in q.runtime.live;
      Snoc(s, steps, DutyReturns(p, d));
      var q' := q.(runtime := q.runtime.(live := q.runtime.live - {d}));
      more := DutiesReturn(s, steps + [DutyReturns(p, d)], p, q');
      assert Run(s, steps).procs[p := q'][p := q.(runtime := q.runtime.(live := {}))]
          == Run(s, steps).procs[p := q.(runtime := q.runtime.(live := {}))];
    }
  }

  /** After leadership ended: no duty and no pending startup, the session given up and ended by the server. */
  ghost predicate SteppedDown(s: State, s': State, p: Process) {
    && OthersStay(s, s', p) && p in s'.procs && s'.procs[p].elector.Out? && !s'.procs[p].starting
    && !s'.procs[p].runtime.running && s'.procs[p].runtime.live == {}
    && s'.sessions.Keys == s.sessions.Keys && Free(s', LeaderLock)
  }

  /** The leader context ends and the startup goroutine is joined. */
  lemma LeaderCancels(s: State, p: Process) returns (steps: seq<Step>)
    requires Inv(s) && p in s.procs && s.procs[p].elector.Leading?
    ensures var s' := Run(s, steps);
            && s'.sessions == s.sessions && OthersStay(s, s', p)
            && s'.procs[p] == s.procs[p].(elector := Demoting(s.procs[p].elector.session), starting := false)
  {
    var t := s.procs[p].elector.session;
    steps := [];
    Snoc(s, steps, LeadershipEnds(p));
    steps := steps + [LeadershipEnds(p)];
    var a := Run(s, steps);
    assert a.procs[p] == s.procs[p].(elector := Cancelling(t));
    if s.procs[p].starting {
      Snoc(s, steps, RunElected(p, true));
      steps := steps + [RunElected(p, true)];
    }
    var b := Run(s, steps);
    assert b.procs[p] == s.procs[p].(elector := Cancelling(t), starting := false);
    Snoc(s, steps, StartupJoined(p));
    steps := steps + [StartupJoined(p)];
  }

  /** A demoting process without live duties gives up its session, and the server frees the lock. */
  lemma DemotionEnds(s: State, p: Process)
    requires p in s.procs && s.procs[p].elector.Demoting? && !s.procs[p].starting && s.procs[p].runtime.live == {}
    requires s.procs[p].elector.session in s.sessions && Exclusive(s)
    requires LeaderLock in s.sessions[s.procs[p].elector.session].locks
    ensures SteppedDown(s, Next(Next(s, Demoted(p)), ServerEnds(s.procs[p].elector.session)), p)
  {
    var t := s.procs[p].elector.session;
    var a := Next(s, Demoted(p));
    assert a.sessions[t].place.Discarded?;
    var b := Next(a, ServerEnds(t));
    assert forall u | u in b.sessions && u != t :: b.sessions[u] == s.sessions[u];
  }

  /** A leader can always hand over in order: its duties return before its session is given up. */
  lemma LeaderStepsDown(s: State, p: Process) returns (steps: seq<Step>)
    requires Inv(s) && p in s.procs && s.procs[p].elector.Leading?
    ensures SteppedDown(s, Run(s, steps), p)
  {
    assert ProcInv(s, p);
    var t := s.procs[p].elector.session;
    var cancelled := LeaderCancels(s, p);
    var idle := DutiesReturn(s, cancelled, p, Run(s, cancelled).procs[p]);
    DemotionEnds(Run(s, idle), p);
    Snoc2(s, idle, Demoted(p), ServerEnds(t));
    steps := idle + [Demoted(p)] + [ServerEnds(t)];
  }

  lemma HandsOver(s: State, p: Process, q: Process, session: SessionId, reconcile: bool) returns (steps: seq<Step>)
    requires Inv(s) && p in s.procs && s.procs[p].elector.Leading? && p != q
    requires q in s.procs && s.procs[q].elector.Out? && session !in s.sessions
    ensures Leads(Run(s, steps), q, s.procs[q].runtime.generation + 1, reconcile)
    ensures p in Run(s, steps).procs && Run(s, steps).procs[p].runtime.live == {}
  {
    var down := LeaderStepsDown(s, p);
    InvStays(s, down);
    var up := FreeLockElects(Run(s, down), q, session, reconcile);
    RunAppend(s, down, up);
    steps := down + up;
  }

  /** In every reachable state a leader can hand over to any process that is not in the race. */
  lemma HandoverIsPossible(s: State, steps: seq<Step>, p: Process, q: Process, session: SessionId, reconcile: bool)
    returns (more: seq<Step>)
    requires Init(s)
    requires var s' := Run(s, steps);
             && p in s'.procs && s'.procs[p].elector.Leading? && p != q
             && q in s'.procs && s'.procs[q].elector.Out? && session !in s'.sessions
    ensures Leads(Run(s, steps + more), q, Run(s, steps).procs[q].runtime.generation + 1, reconcile)
    ensures p in Run(s, steps + more).procs && Run(s, steps + more).procs[p].runtime.live == {}
  {
    RunKeeps(s, steps);
    more := HandsOver(Run(s, steps), p, q, session, reconcile);
    RunAppend(s, steps, more);
  }

  // ---------- Replacing a dead leader ----------

  /** The sessions of a dead process are ended one after another, and their locks with them. */
  lemma DeadSessionEnds(s: State, t: SessionId)
    requires t in s.sessions && s.sessions[t].place.Discarded? && Exclusive(s) && LeaderLock in s.sessions[t].locks
    ensures Free(Next(s, ServerEnds(t)), LeaderLock)
    ensures Next(s, ServerEnds(t)).procs == s.procs && Next(s, ServerEnds(t)).sessions.Keys == s.sessions.Keys
  {
  }

  lemma CrashDiscards(s: State, q: Process, t: SessionId)
    requires Inv(s) && t in s.sessions && LeaderLock in s.sessions[t].locks && !s.sessions[t].place.Discarded?
    requires q in s.procs && s.procs[q].elector.Out?
    ensures var s' := Next(s, Crash(s.sessions[t].process));
            && s'.procs.Keys == s.procs.Keys && s'.procs[q] == s.procs[q] && s'.sessions.Keys == s.sessions.Keys
            && s'.sessions[t].place.Discarded? && LeaderLock in s'.sessions[t].locks && Exclusive(s')
  {
    assert SessionInv(s, t);
    var p := s.sessions[t].process;
    assert Next(s, Crash(p)) == CrashStep(s, p);
    NextKeeps(s, Crash(p));
  }

  lemma CrashFreesTheLock(s: State, q: Process, t: SessionId) returns (steps: seq<Step>)
    requires Inv(s) && t in s.sessions && LeaderLock in s.sessions[t].locks && q in s.procs && s.procs[q].elector.Out?
    ensures var s' := Run(s, steps);
            && Free(s', LeaderLock) && s'.procs.Keys == s.procs.Keys && s'.procs[q] == s.procs[q]
            && s'.sessions.Keys == s.sessions.Keys
  {
    if s.sessions[t].place.Discarded? {
      DeadSessionEnds(s, t);
      Snoc(s, [], ServerEnds(t));
      steps := [] + [ServerEnds(t)];
    } else {
      var p := s.sessions[t].process;
      CrashDiscards(s, q, t);
      DeadSessionEnds(Next(s, Crash(p)), t);
      Snoc2(s, [], Crash(p), ServerEnds(t));
      steps := [] + [Crash(p)] + [ServerEnds(t)];
    }
  }

  /**
    In every reachable state, whoever holds the lock: once that process died and
    the server ended its session, any process that is not in the race leads.
   */
  lemma DeadLeaderIsReplaced(s: State, steps: seq<Step>, q: Process, session: SessionId, reconcile: bool)
    returns (more: seq<Step>)
    requires Init(s)
    requires q in Run(s, steps).procs && Run(s, steps).procs[q].elector.Out? && session !in Run(s, steps).sessions
    ensures Leads(Run(s, steps + more), q, Run(s, steps).procs[q].runtime.generation + 1, reconcile)
  {
    RunKeeps(s, steps);
    var x := Run(s, steps);
    var down := [];
    if t :| t in x.sessions && LeaderLock in x.sessions[t].locks {
      down := CrashFreesTheLock(x, q, t);
    }
    InvStays(x, down);
    var up := FreeLockElects(Run(x, down), q, session, reconcile);
    RunAppend(x, down, up);
    more := down + up;
    RunAppend(s, steps, more);
  }

  // ---------- Refusals ----------

  /** A process that is refused the lock keeps its session, without locks, for the next try. */
  lemma RefusedTriesAgain(s: State, p: Process)
    requires Inv(s) && p in s.procs && s.procs[p].elector.Connected?
    requires !Grantable(s, s.procs[p].elector.session, LeaderLock)
    ensures var t := s.procs[p].elector.session;
            var s' := Next(Next(s, DbTryLeader(p)), LeaderDenied(p));
            && s'.procs == s.procs[p := s.procs[p].(elector := Out)]
            && InPool(s', p, t) && s'.sessions[t].locks == {}
            && Next(s', Connect(p, t)) == s
  {
    assert ProcInv(s, p);
    var t := s.procs[p].elector.session;
    assert SessionInv(s, t);
    var a := Next(s, DbTryLeader(p));
    assert a.procs[p].elector == Answered(t, false) && a.sessions == s.sessions;
    var s' := Next(a, LeaderDenied(p));
    var b := Next(s', Connect(p, t));
    assert b.procs == s.procs && b.sessions == s.sessions;
  }

  // ---------- Migrations ----------

  /** The lock is granted and the process migrates. */
  lemma MigrationStarts(s: State, p: Process, session: SessionId) returns (during: State)
    requires p in s.procs && s.procs[p].migrator.Away? && InPool(s, p, session) && Free(s, MigrationLock)
    ensures during == Next(Next(Next(s, MigrateConnect(p, session)), DbTryMigration(p)), MigrationGranted(p))
    ensures during.procs == s.procs[p := s.procs[p].(migrator := Migrating(session))]
    ensures during.sessions ==
            s.sessions[session := Session(p, InUse(Migrator), s.sessions[session].locks + {MigrationLock})]
  {
    var a := Next(s, MigrateConnect(p, session));
    assert Grantable(a, session, MigrationLock);
    var b := Next(a, DbTryMigration(p));
    assert b.procs[p].migrator == Told(session, true);
    during := Next(b, MigrationGranted(p));
  }

  /** The unlock returns a session without the lock to the pool. */
  lemma MigrationEnds(s: State, p: Process)
    requires p in s.procs && s.procs[p].migrator.Migrating? && s.procs[p].migrator.session in s.sessions
    ensures var t := s.procs[p].migrator.session;
            var s' := Next(Next(s, DbUnlock(p)), UnlockReplied(p));
            && s'.procs == s.procs[p := s.procs[p].(migrator := Away)]
            && s'.sessions == s.sessions[t := s.sessions[t].(place := Pooled,
                                                             locks := s.sessions[t].locks - {MigrationLock})]
  {
    var a := Next(s, DbUnlock(p));
    assert a.procs[p].migrator == Unlocked(s.procs[p].migrator.session);
  }

  /** While the migration lock is free, a process migrates, and afterwards everything is as before. */
  lemma FreeLockMigrates(s: State, p: Process, session: SessionId) returns (during: State)
    requires Inv(s) && p in s.procs && s.procs[p].migrator.Away? && InPool(s, p, session) && Free(s, MigrationLock)
    ensures during == Next(Next(Next(s, MigrateConnect(p, session)), DbTryMigration(p)), MigrationGranted(p))
    ensures p in during.procs && during.procs[p].migrator.Migrating?
    ensures Next(Next(during, DbUnlock(p)), UnlockReplied(p)) == s
  {
    assert SessionInv(s, session);
    during := MigrationStarts(s, p, session);
    MigrationEnds(during, p);
    RestoresMap(s.procs, p, during.procs[p], s.procs[p]);
    var x := s.sessions[session];
    assert x == Session(p, Pooled, {});
    assert {} + {MigrationLock} - {MigrationLock} == {};
    RestoresMap(s.sessions, session, during.sessions[session], x);
  }

  lemma RestoresMap<K, V>(m: map<K, V>, k: K, v: V, w: V)
    requires k in m && m[k] == w
    ensures m[k := v][k := w] == m
  {
  }

  /** A migrator that is refused tries again, or leaves its session without locks. */
  lemma RefusedMigratorWaits(s: State, p: Process, giveUp: bool)
    requires Inv(s) && p in s.procs && s.procs[p].migrator.Trying?
    requires !Grantable(s, s.procs[p].migrator.session, MigrationLock)
    ensures var t := s.procs[p].migrator.session;
            var s' := Next(Next(s, DbTryMigration(p)), MigrationDenied(p, giveUp));
            if giveUp then s'.procs == s.procs[p := s.procs[p].(migrator := Away)] && InPool(s', p, t)
                           && s'.sessions[t].locks == {}
            else s' == s
  {
    assert ProcInv(s, p);
    var t := s.procs[p].migrator.session;
    assert SessionInv(s, t);
    var a := Next(s, DbTryMigration(p));
    assert a.procs[p].migrator == Told(t, false) && a.sessions == s.sessions;
    var s' := Next(a, MigrationDenied(p, giveUp));
    if !giveUp {
      assert s'.procs == s.procs;
    }
  }
}
