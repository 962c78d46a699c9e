/**
  Recovery of abandoned work (internal/reconciler/reconciler.go): one cycle
  requeues expired claims and re-emits orphaned executions; repeated cycles
  drain everything that had expired.
 */
module Reconciler {
  import opened Options
  import opened Selection
  import opened Sets
  import opened ExecutionRows

  // ---------- Draining expired claims ----------

  /** A row that expired only after `start` never sorts before one that was stale by then. */
  lemma ExpiredSinceSortsBehind(t: Table, start: int, now: int, locked: set<Id>, x: Id, y: Id)
    requires x in StaleIds(t, start, locked) && y in StaleIds(t, now, locked)
    requires Before(LeaseRank(t)(y), LeaseRank(t)(x))
    ensures y in StaleIds(t, start, locked)
  {
  }

  /** Taking `limit` of `all`, from `part` first. */
  lemma PartComesFirst(ids: set<Id>, part: set<Id>, all: set<Id>, limit: nat)
    requires ids <= all && part <= all && (ids <= part || part <= ids)
    requires |ids| == if |all| <= limit then |all| else limit
    ensures |part - ids| == if |part| <= limit then 0 else |part| - limit
  {
    SubsetSize(ids, all);
    SubsetSize(part, all);
    if ids <= part {
      SubsetSize(ids, part);
    } else {
      SubsetSize(part, ids);
      assert part - ids == {};
    }
  }

  lemma RequeuedAreNotStale(t: Table, ids: set<Id>, now: int, locked: set<Id>)
    ensures StaleIds(RequeueAll(t, ids), now, locked) == StaleIds(t, now, locked) - ids
  {
  }

  lemma StaleComesFirst(t: Table, ids: set<Id>, start: int, now: int, limit: nat, locked: set<Id>)
    requires start <= now && IsFirst(ids, StaleIds(t, now, locked), limit, LeaseRank(t))
    ensures StaleIds(t, start, locked) <= StaleIds(t, now, locked)
    ensures ids <= StaleIds(t, start, locked) || StaleIds(t, start, locked) <= ids
  {
    forall x, y | x in StaleIds(t, start, locked) && x !in ids && y in ids
      ensures y in StaleIds(t, start, locked)
    {
      ExpiredSinceSortsBehind(t, start, now, locked, x, y);
    }
  }

  /** A requeue at any later time takes from the rows that were already stale at `start` first. */
  lemma OldestFirst(t: Table, t': Table, start: int, now: int, limit: nat, locked: set<Id>, count: nat)
    requires start <= now && Requeues(t, t', now, limit, locked, count)
    ensures var n := |StaleIds(t, start, locked)|;
            |StaleIds(t', start, locked)| == if n <= limit then 0 else n - limit
  {
    var all := StaleIds(t, now, locked);
    var ids :| IsFirst(ids, all, limit, LeaseRank(t)) && t' == RequeueAll(t, ids) && |ids| == count;
    RequeuedAreNotStale(t, ids, start, locked);
    StaleComesFirst(t, ids, start, now, limit, locked);
    PartComesFirst(ids, StaleIds(t, start, locked), all, limit);
  }

  /** The statements of dispatchers, schedulers and reconcilers, with the database time at which they run. */
  datatype Statement =
    | RequeueBatch(now: int, count: nat)
    | ClaimBatch(now: int, ids: set<Id>, duration: int)
    | Renewal(now: int, id: Id, generation: nat, duration: int)
    | Completion(now: int, id: Id, generation: nat, status: Status)
    | Insertion(now: int, id: Id, row: Row)

  ghost predicate Executes(t: Table, t': Table, s: Statement, limit: nat, locked: set<Id>) {
    match s
    case RequeueBatch(now, count) => Requeues(t, t', now, limit, locked, count)
    case ClaimBatch(now, ids, duration) =>
      duration > 0 && ids <= EmittedIds(t, {}) && t' == ClaimAll(t, ids, now, duration)
    case Renewal(now, id, generation, duration) =>
      && duration > 0 && id in t
      && t' == if Held(t[id], generation, now) then t[id := Renewed(t[id], now, duration)] else t
    case Completion(now, id, generation, status) =>
      && Terminal(status) && id in t
      && t' == if Held(t[id], generation, now) then t[id := Completed(t[id], status)] else t
    case Insertion(_, id, row) => id !in t && row.status.Emitted? && t' == t[id := row]
  }

  ghost predicate ExecutesAt(tables: seq<Table>, run: seq<Statement>, start: int, limit: nat, locked: set<Id>, i: nat)
    requires i < |run| < |tables|
  {
    start <= run[i].now && Executes(tables[i], tables[i + 1], run[i], limit, locked)
  }

  /** Any of them one after another, none before `start`. */
  ghost predicate StatementRun(tables: seq<Table>, run: seq<Statement>, start: int, limit: nat, locked: set<Id>) {
    |tables| == |run| + 1 && forall i | 0 <= i < |run| :: ExecutesAt(tables, run, start, limit, locked, i)
  }

  function RequeueCount(run: seq<Statement>, n: nat): nat
    requires n <= |run|
  {
    if n == 0 then 0 else RequeueCount(run, n - 1) + if run[n - 1].RequeueBatch? then 1 else 0
  }

  /**
    A claim, renewal, completion or insertion neither adds to the rows that were
    stale at `start` nor takes from them.
   */
  lemma OthersLeaveStaleRows(t: Table, t': Table, s: Statement, start: int, limit: nat, locked: set<Id>)
    requires Executes(t, t', s, limit, locked) && start <= s.now && !s.RequeueBatch?
    ensures StaleIds(t', start, locked) == StaleIds(t, start, locked)
  {
  }

  /** What is left of n rows after k requeues: nothing exactly when k * limit has reached n. */
  function Left(n: nat, k: nat, limit: nat): (left: nat)
    ensures left == 0 <==> n <= k * limit
  {
    if n <= k * limit then 0 else n - k * limit
  }

  lemma LeftInTurn(n: nat, k: nat, more: nat, limit: nat)
    ensures Left(Left(n, k, limit), more, limit) == Left(n, k + more, limit)
  {
    assert (k + more) * limit == k * limit + more * limit;
  }

  lemma StatementDrains(t: Table, t': Table, s: Statement, start: int, limit: nat, locked: set<Id>)
    requires Executes(t, t', s, limit, locked) && start <= s.now
    ensures |StaleIds(t', start, locked)| == Left(|StaleIds(t, start, locked)|, if s.RequeueBatch? then 1 else 0, limit)
  {
    if s.RequeueBatch? {
      OldestFirst(t, t', start, s.now, limit, locked, s.count);
    } else {
      OthersLeaveStaleRows(t, t', s, start, limit, locked);
    }
  }

  /**
    Rows stale at `start`: n of them, unlocked, are down to max(0, n - k * limit)
    after k requeues, so they are gone exactly when k * limit has reached n,
    whatever is claimed, renewed, completed or inserted in between and however
    many rows expire meanwhile.
   */
  lemma {:induction false} ExpiredClaimsDrain(tables: seq<Table>, run: seq<Statement>, start: int, limit: nat,
                                              locked: set<Id>, i: nat)
    requires StatementRun(tables, run, start, limit, locked) && i <= |run|
    ensures var n, k := |StaleIds(tables[0], start, locked)|, RequeueCount(run, i);
            |StaleIds(tables[i], start, locked)| == Left(n, k, limit)
  {
    if i > 0 {
      ExpiredClaimsDrain(tables, run, start, limit, locked, i - 1);
      assert ExecutesAt(tables, run, start, limit, locked, i - 1);
      StatementDrains(tables[i - 1], tables[i], run[i - 1], start, limit, locked);
      var n, k := |StaleIds(tables[0], start, locked)|, RequeueCount(run, i - 1);
      LeftInTurn(n, k, RequeueCount(run, i) - k, limit);
    }
  }

  // ---------- Draining waiting executions ----------

  /** Executions that nobody has claimed, or claimed and lost, and whose rows no other statement holds. */
  function Claimable(t: Table, locked: set<Id>): set<Id> {
    set id | id in t.Keys - locked && t[id].status == Emitted
  }

  /** Those created by `since`. */
  function Waiting(t: Table, since: int, locked: set<Id>): set<Id> {
    set id | id in Claimable(t, locked) && t[id].createdAt <= since
  }

  /** The dequeue statement claims the oldest unlocked executions. */
  ghost predicate Dequeues(t: Table, s: Statement, limit: nat, locked: set<Id>) {
    s.ClaimBatch? && IsFirst(s.ids, EmittedIds(t, locked), limit, AgeRank(t))
  }

  lemma ClaimedNoLongerWait(t: Table, ids: set<Id>, now: int, duration: int, since: int, locked: set<Id>)
    ensures Waiting(ClaimAll(t, ids, now, duration), since, locked) == Waiting(t, since, locked) - ids
  {
  }

  /** A dequeue claims just the oldest executions that are emitted and not locked. */
  lemma DequeueClaimsTheOldest(t: Table, s: Statement, limit: nat, locked: set<Id>)
    requires Dequeues(t, s, limit, locked)
    ensures Oldest(t, s.ids, Claimable(t, locked), limit)
  {
    assert EmittedIds(t, locked) == Claimable(t, locked);
    FirstByAgeAreOldest(t, s.ids, EmittedIds(t, locked), limit);
  }

  lemma WaitingComesFirst(t: Table, ids: set<Id>, since: int, limit: nat, locked: set<Id>)
    requires Oldest(t, ids, Claimable(t, locked), limit)
    ensures ids <= Waiting(t, since, locked) || Waiting(t, since, locked) <= ids
  {
    forall x, y | x in Waiting(t, since, locked) && x !in ids && y in ids
      ensures y in Waiting(t, since, locked)
    {
    }
  }

  /** A dequeue serves what waits longest first. */
  lemma DequeueServesTheOldest(t: Table, t': Table, s: Statement, since: int, limit: nat, locked: set<Id>)
    requires Executes(t, t', s, limit, locked) && Dequeues(t, s, limit, locked)
    ensures |Waiting(t', since, locked)| == Left(|Waiting(t, since, locked)|, 1, limit)
  {
    ClaimedNoLongerWait(t, s.ids, s.now, s.duration, since, locked);
    DequeueClaimsTheOldest(t, s, limit, locked);
    WaitingComesFirst(t, s.ids, since, limit, locked);
    PartComesFirst(s.ids, Waiting(t, since, locked), EmittedIds(t, locked), limit);
  }

  /** Other claims and completions add nothing to what waits, nor does anything created later. */
  lemma OthersAddNoWaiting(t: Table, t': Table, s: Statement, since: int, limit: nat, locked: set<Id>)
    requires Executes(t, t', s, limit, locked) && !s.RequeueBatch? && (s.Insertion? ==> s.row.createdAt > since)
    ensures |Waiting(t', since, locked)| <= |Waiting(t, since, locked)|
  {
    assert Waiting(t', since, locked) <= Waiting(t, since, locked);
    SubsetSize(Waiting(t', since, locked), Waiting(t, since, locked));
  }

  /** A requeue brings back no more than it counts. */
  lemma RequeueAddsItsCount(t: Table, t': Table, s: Statement, since: int, limit: nat, locked: set<Id>)
    requires Executes(t, t', s, limit, locked) && s.RequeueBatch?
    ensures |Waiting(t', since, locked)| <= |Waiting(t, since, locked)| + s.count
  {
    var ids :| IsFirst(ids, StaleIds(t, s.now, locked), limit, LeaseRank(t)) && t' == RequeueAll(t, ids) &&
               |ids| == s.count;
    var before, after := Waiting(t, since, locked), Waiting(t', since, locked);
    assert after <= before + ids;
    SubsetSize(after, before + ids);
    Partition(before, ids);
    SubsetSize(before - ids, before);
  }

  /** A queue of length n: a requeue lengthens it by its count, a dequeue shortens it by the limit. */
  ghost function Backlog(tables: seq<Table>, run: seq<Statement>, limit: nat, locked: set<Id>, n: nat, i: nat): nat
    requires |tables| == |run| + 1 && i <= |run|
  {
    if i == 0 then n
    else
      var before := Backlog(tables, run, limit, locked, n, i - 1);
      if run[i - 1].RequeueBatch? then before + run[i - 1].count
      else if Dequeues(tables[i - 1], run[i - 1], limit, locked) then Left(before, 1, limit)
      else before
  }

  lemma StatementServes(t: Table, t': Table, s: Statement, since: int, limit: nat, locked: set<Id>, n: nat)
    requires Executes(t, t', s, limit, locked) && (s.Insertion? ==> s.row.createdAt > since)
    requires |Waiting(t, since, locked)| <= n
    ensures |Waiting(t', since, locked)| <=
            if s.RequeueBatch? then n + s.count else if Dequeues(t, s, limit, locked) then Left(n, 1, limit) else n
  {
    if s.RequeueBatch? {
      RequeueAddsItsCount(t, t', s, since, limit, locked);
    } else if Dequeues(t, s, limit, locked) {
      DequeueServesTheOldest(t, t', s, since, limit, locked);
    } else {
      OthersAddNoWaiting(t, t', s, since, limit, locked);
    }
  }

  /**
    Executions created by `since` are served ahead of everything created later:
    those still waiting never exceed a queue from which each dequeue takes
    `limit` and to which only requeues add, however much is inserted meanwhile.
   */
  lemma {:induction false} WaitingWorkIsServed(tables: seq<Table>, run: seq<Statement>, start: int, since: int,
                                               limit: nat, locked: set<Id>, i: nat)
    requires StatementRun(tables, run, start, limit, locked) && i <= |run|
    requires forall k | 0 <= k < |run| :: run[k].Insertion? ==> run[k].row.createdAt > since
    ensures |Waiting(tables[i], since, locked)| <=
            Backlog(tables, run, limit, locked, |Waiting(tables[0], since, locked)|, i)
  {
    if i > 0 {
      WaitingWorkIsServed(tables, run, start, since, limit, locked, i - 1);
      assert ExecutesAt(tables, run, start, limit, locked, i - 1);
      var before := Backlog(tables, run, limit, locked, |Waiting(tables[0], since, locked)|, i - 1);
      StatementServes(tables[i - 1], tables[i], run[i - 1], since, limit, locked, before);
    }
  }

  // ---------- One cycle ----------

  /** The orphans among the first n for which the event bus took the event. */
  function Reemitted(orphans: seq<Id>, accepted: Id -> bool, n: nat): (events: seq<Id>)
    requires n <= |orphans|
    ensures |events| <= n
    ensures forall id | id in events :: id in orphans && accepted(id)
    ensures forall i | 0 <= i < n && accepted(orphans[i]) :: orphans[i] in events
  {
    if n == 0 then []
    else if accepted(orphans[n - 1]) then Reemitted(orphans, accepted, n - 1) + [orphans[n - 1]]
    else Reemitted(orphans, accepted, n - 1)
  }

  /** The environment of one cycle: which store calls fail, and when shutdown is noticed. */
  datatype Cycle = Cycle(
    now: int, databaseNow: int, locked: set<Id>,
    requeueFails: bool, fetchFails: bool, accepted: Id -> bool, interruptedAfter: nat
  )

  method EmitOrphans(orphans: seq<Id>, accepted: Id -> bool, interruptedAfter: nat)
    returns (events: seq<Id>, failed: nat)
    ensures var handled := if |orphans| <= interruptedAfter then |orphans| else interruptedAfter;
            events == Reemitted(orphans, accepted, handled) && |events| + failed == handled
  {
    events, failed := [], 0;
    var i := 0;
    while i < |orphans|
      invariant 0 <= i <= |orphans| && i <= interruptedAfter
      invariant events == Reemitted(orphans, accepted, i) && |events| + failed == i
    {
      if i >= interruptedAfter {
        return;
      }
      if accepted(orphans[i]) {
        events := events + [orphans[i]];
      } else {
        failed := failed + 1;
      }
      i := i + 1;
    }
  }

  /** Emitted executions that no dispatcher got hold of in time, or that were claimed before. */
  function Abandoned(t: Table, cutoff: int): set<Id> {
    set id | id in t && t[id].status == Emitted && (t[id].generation == 0 ==> t[id].createdAt < cutoff)
  }

  method RunCycle(store: ExecutionStore, cycle: Cycle, batchSize: nat, threshold: int)
    returns (requeued: nat, orphans: seq<Id>, events: seq<Id>, failed: nat)
    requires store.Valid()
    modifies store
    ensures store.Valid() && TableAdvances(old(store.table), store.table)
    ensures if cycle.requeueFails then store.table == old(store.table)
            else Requeues(old(store.table), store.table, cycle.databaseNow, batchSize, cycle.locked, requeued)
    ensures cycle.fetchFails ==> orphans == []
    ensures !cycle.fetchFails ==>
              IsFirst(Elements(orphans), OrphanIds(store.table, cycle.now - threshold), batchSize, AgeRank(store.table))
    ensures !cycle.fetchFails ==>
              Oldest(store.table, Elements(orphans), Abandoned(store.table, cycle.now - threshold), batchSize)
    ensures Ascending(orphans, AgeRank(store.table))
    ensures var handled := if |orphans| <= cycle.interruptedAfter then |orphans| else cycle.interruptedAfter;
            events == Reemitted(orphans, cycle.accepted, handled) && |events| + failed == handled
  {
    requeued, orphans, events, failed := 0, [], [], 0;
    if !cycle.requeueFails {
      requeued := store.RequeueExpiredExecutions(batchSize, cycle.databaseNow, cycle.locked);
    }
    if !cycle.fetchFails {
      orphans := TakeFirst(OrphanIds(store.table, cycle.now - threshold), batchSize, AgeRank(store.table));
      FirstByAgeAreOldest(store.table, Elements(orphans), OrphanIds(store.table, cycle.now - threshold), batchSize);
      assert OrphanIds(store.table, cycle.now - threshold) == Abandoned(store.table, cycle.now - threshold);
      events, failed := EmitOrphans(orphans, cycle.accepted, cycle.interruptedAfter);
    }
  }

  /** A claim recovered by a cycle's requeue is an orphan of that same cycle, however young it is. */
  lemma RecoveredInTheSameCycle(t: Table, t': Table, ids: set<Id>, now: int, locked: set<Id>, cutoff: int, id: Id)
    requires AllWellFormed(t) && ids <= StaleIds(t, now, locked) && t' == RequeueAll(t, ids) && id in ids
    ensures id in OrphanIds(t', cutoff)
  {
    RequeuedRowIsOrphanAndFenced(t[id], now, cutoff, 0, now);
  }
}
