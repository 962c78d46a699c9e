/**
  Execution rows and the guarded UPDATE statements of
  internal/store/postgres/queries.go, each as a transition of one row.
  The store class runs them over the whole table; the ownership protocol
  interleaves them with dispatcher steps.
 */
module ExecutionRows {
  import LocalLease
  import opened Options
  import opened Selection

  type Id = nat

  datatype Status = Emitted | InProgress | Delivered | Failed

  predicate Terminal(s: Status) {
    s.Delivered? || s.Failed?
  }

  /** The columns that some statement's guard reads. A lease of None is SQL NULL. */
  datatype Row = Row(ns: string, createdAt: int, status: Status, generation: nat, lease: Option<int>)

  type Table = map<Id, Row>

  // ---------- Guards and effects of the statements ----------

  predicate Visible(t: Table, id: Id, ns: string) {
    id in t && t[id].ns == ns
  }

  function Claimed(r: Row, now: int, duration: int): Row {
    r.(status := InProgress, generation := r.generation + 1, lease := Some(now + duration))
  }

  /** The common guard of renewal and completion. A NULL lease never satisfies it. */
  predicate Held(r: Row, generation: nat, now: int) {
    r.status.InProgress? && r.generation == generation && r.lease.Some? && r.lease.value > now
  }

  function Renewed(r: Row, now: int, duration: int): Row {
    r.(lease := Some(now + duration))
  }

  function Completed(r: Row, status: Status): Row {
    r.(status := status, lease := None)
  }

  /** An expired claim, or an in-progress row written before generations existed. */
  predicate Stale(r: Row, now: int) {
    r.status.InProgress? && if r.lease.Some? then r.lease.value <= now else r.generation == 0
  }

  function Requeued(r: Row): Row {
    r.(status := Emitted, lease := None, generation := if r.generation == 0 then 1 else r.generation)
  }

  predicate LegacyWritable(r: Row) {
    !Terminal(r.status) && r.generation == 0
  }

  predicate Orphan(r: Row, cutoff: int) {
    r.status.Emitted? && (r.createdAt < cutoff || r.generation > 0)
  }

  // ---------- What every statement keeps ----------

  /** A lease exists exactly while an owned generation is in progress. */
  predicate WellFormed(r: Row) {
    r.lease.Some? <==> r.status.InProgress? && r.generation > 0
  }

  predicate Unclaimed(r: Row) {
    r.generation == 0 && r.lease.None?
  }

  /** Progress one row can make: generations only grow, and a terminal row is frozen. */
  predicate Advances(before: Row, after: Row) {
    && before.ns == after.ns && before.createdAt == after.createdAt
    && before.generation <= after.generation
    && (Terminal(before.status) ==> after == before)
  }

  ghost predicate TableAdvances(before: Table, after: Table) {
    forall id | id in before :: id in after && Advances(before[id], after[id])
  }

  ghost predicate AllWellFormed(t: Table) {
    forall id | id in t :: WellFormed(t[id])
  }

  /** A row that is not terminal can be claimed now, or is stale once its lease time has come. */
  lemma NonTerminalIsRecoverable(r: Row, later: int)
    requires WellFormed(r) && !Terminal(r.status)
    requires r.lease.Some? ==> r.lease.value <= later
    ensures r.status.Emitted? || (Stale(r, later) && Requeued(r).status.Emitted?)
  {
  }

  /** At every instant a claimed row in progress is either held by its generation or stale, never both. */
  lemma HeldUntilStale(r: Row, now: int)
    requires WellFormed(r) && r.status.InProgress? && r.generation > 0
    ensures Held(r, r.generation, now) <==> !Stale(r, now)
    ensures Stale(r, now) <==> now >= r.lease.value
    ensures forall generation | generation != r.generation :: !Held(r, generation, now)
  {
  }

  /**
    Raising the generation to at least one is what makes recovery prompt and
    safe: whatever its age, a requeued row is an orphan for the reconciler, and
    the legacy status update can no longer write it.
   */
  lemma RequeuedRowIsOrphanAndFenced(r: Row, now: int, cutoff: int, generation: nat, later: int)
    requires WellFormed(r) && Stale(r, now)
    ensures Orphan(Requeued(r), cutoff) && WellFormed(Requeued(r))
    ensures !LegacyWritable(Requeued(r))
    ensures !Held(Requeued(r), generation, later)
  {
  }

  // ---------- Selecting rows: ORDER BY ... LIMIT ... FOR UPDATE SKIP LOCKED ----------

  function EmittedIds(t: Table, locked: set<Id>): set<Id> {
    set id | id in t && id !in locked && t[id].status.Emitted?
  }

  function StaleIds(t: Table, now: int, locked: set<Id>): set<Id> {
    set id | id in t && id !in locked && Stale(t[id], now)
  }

  function OrphanIds(t: Table, cutoff: int): set<Id> {
    set id | id in t && Orphan(t[id], cutoff)
  }

  /** ORDER BY created_at ASC, id ASC. */
  function AgeRank(t: Table): Id -> Rank {
    (id: Id) => if id in t then Rank(0, t[id].createdAt, id) else Rank(0, 0, id)
  }

  /** ORDER BY lease_until ASC NULLS FIRST, id. */
  function LeaseRank(t: Table): Id -> Rank {
    (id: Id) => if id in t && t[id].lease.Some? then Rank(1, t[id].lease.value, id) else Rank(0, 0, id)
  }

  /** The first `limit` by age are chosen; the others are younger, or equally old with a higher id. */
  ghost predicate Oldest(t: Table, chosen: set<Id>, among: set<Id>, limit: nat)
    requires among <= t.Keys
  {
    && chosen <= among && |chosen| <= limit
    && forall x | x in among && x !in chosen ::
         && |chosen| == limit
         && forall c | c in chosen ::
              t[c].createdAt < t[x].createdAt || (t[c].createdAt == t[x].createdAt && c < x)
  }

  lemma FirstByAgeAreOldest(t: Table, chosen: set<Id>, among: set<Id>, limit: nat)
    requires among <= t.Keys && IsFirst(chosen, among, limit, AgeRank(t))
    ensures Oldest(t, chosen, among, limit)
  {
    forall x | x in among && x !in chosen
      ensures |chosen| == limit
    {
      assert |among| == |chosen| + |among - chosen| by {
        assert among == chosen + (among - chosen);
      }
      assert x in among - chosen;
    }
    forall x, c | x in among && x !in chosen && c in chosen
      ensures t[c].createdAt < t[x].createdAt || (t[c].createdAt == t[x].createdAt && c < x)
    {
      assert Before(AgeRank(t)(c), AgeRank(t)(x));
    }
  }

  function ClaimAll(t: Table, ids: set<Id>, now: int, duration: int): Table {
    map id | id in t :: if id in ids then Claimed(t[id], now, duration) else t[id]
  }

  function RequeueAll(t: Table, ids: set<Id>): Table {
    map id | id in t :: if id in ids then Requeued(t[id]) else t[id]
  }

  /** One requeue statement over the unlocked rows, read at database time `now`. */
  ghost predicate Requeues(t: Table, t': Table, now: int, limit: nat, locked: set<Id>, count: nat) {
    exists ids ::
      IsFirst(ids, StaleIds(t, now, locked), limit, LeaseRank(t)) && t' == RequeueAll(t, ids) && |ids| == count
  }

  // ---------- The store ----------

  datatype Claim = Claim(id: Id, ns: string, generation: nat)

  function ClaimedIds(claims: seq<Claim>): set<Id> {
    set c | c in claims :: c.id
  }

  function ClaimsOf(t: Table, ids: seq<Id>): (claims: seq<Claim>)
    requires forall id | id in ids :: id in t
    ensures |claims| == |ids|
    ensures forall i | 0 <= i < |ids| :: claims[i] == Claim(ids[i], t[ids[i]].ns, t[ids[i]].generation + 1)
  {
    seq(|ids|, i requires 0 <= i < |ids| => Claim(ids[i], t[ids[i]].ns, t[ids[i]].generation + 1))
  }

  lemma ClaimsOfIds(t: Table, ids: seq<Id>)
    requires forall id | id in ids :: id in t
    ensures ClaimedIds(ClaimsOf(t, ids)) == Elements(ids)
  {
    var claims := ClaimsOf(t, ids);
    forall id | id in Elements(ids)
      ensures id in ClaimedIds(claims)
    {
      var i :| 0 <= i < |ids| && ids[i] == id;
      assert claims[i] in claims;
    }
  }

  datatype StatusUpdate = Updated | RowNotFound | TransitionDenied | ClaimLost

  datatype CompletionReply = Recorded | NotTheOwner | InvalidStatus

  /** The execution statements of internal/store/postgres/store.go over one table. */
  class ExecutionStore {
    var table: Table
    const duration: int

    ghost predicate Valid()
      reads this
    {
      AllWellFormed(table)
    }

    /**
      Opens a table as migration 011 leaves it, without generations and leases. A
      lease below a millisecond is a programming error; the rest is truncated, so
      that claims and the leases of their owners last equally long.
     */
    constructor (rows: Table, configuredLease: nat)
      requires forall id | id in rows :: Unclaimed(rows[id])
      requires configuredLease >= LocalLease.MILLISECOND
      ensures Valid() && table == rows
      ensures 0 < duration <= configuredLease < duration + LocalLease.MILLISECOND
      ensures duration == LocalLease.Truncated(configuredLease) == LocalLease.DatabaseInterval(configuredLease)
    {
      LocalLease.LeaseDurationsAgree(configuredLease);
      table := rows;
      duration := LocalLease.Truncated(configuredLease);
    }

    method ClaimExecution(id: Id, ns: string, now: int) returns (claim: Option<Claim>)
      requires Valid()
      modifies this
      ensures Valid() && TableAdvances(old(table), table)
      ensures claim.Some? <==> Visible(old(table), id, ns) && old(table)[id].status.Emitted?
      ensures claim.Some? ==>
                && claim.value == Claim(id, ns, old(table)[id].generation + 1)
                && table == old(table)[id := Claimed(old(table)[id], now, duration)]
                && (duration > 0 ==> Held(table[id], claim.value.generation, now))
      ensures claim.None? ==> table == old(table)
    {
      if id in table && table[id].ns == ns && table[id].status.Emitted? {
        var row := Claimed(table[id], now, duration);
        table := table[id := row];
        claim := Some(Claim(id, ns, row.generation));
      } else {
        claim := None;
      }
    }

    /** Claims the oldest `limit` unlocked emitted rows in one statement. */
    method DequeueExecutions(limit: int, now: int, locked: set<Id>) returns (claims: seq<Claim>)
      requires Valid()
      modifies this
      ensures Valid() && TableAdvances(old(table), table)
      ensures IsFirst(ClaimedIds(claims), EmittedIds(old(table), locked), if limit < 0 then 0 else limit,
                      AgeRank(old(table)))
      ensures |ClaimedIds(claims)| == |claims|
      ensures table == ClaimAll(old(table), ClaimedIds(claims), now, duration)
      ensures forall c | c in claims ::
                c.id in table && c.generation == table[c.id].generation && c.ns == table[c.id].ns
    {
      var pool := EmittedIds(table, locked);
      var chosen := TakeFirst(pool, if limit < 0 then 0 else limit, AgeRank(table));
      claims := ClaimsOf(table, chosen);
      ClaimsOfIds(table, chosen);
      table := ClaimAll(table, Elements(chosen), now, duration);
    }

    method RenewExecutionClaim(claim: Claim, now: int) returns (ok: bool)
      requires Valid()
      modifies this
      ensures Valid() && TableAdvances(old(table), table)
      ensures ok <==> Visible(old(table), claim.id, claim.ns) && Held(old(table)[claim.id], claim.generation, now)
      ensures table == if ok then old(table)[claim.id := Renewed(old(table)[claim.id], now, duration)] else old(table)
    {
      ok := claim.id in table && table[claim.id].ns == claim.ns && Held(table[claim.id], claim.generation, now);
      if ok {
        table := table[claim.id := Renewed(table[claim.id], now, duration)];
      }
    }

    method CompleteExecution(claim: Claim, status: Status, now: int) returns (reply: CompletionReply)
      requires Valid()
      modifies this
      ensures Valid() && TableAdvances(old(table), table)
      ensures reply.InvalidStatus? <==> !Terminal(status)
      ensures reply.Recorded? <==>
                Terminal(status) && Visible(old(table), claim.id, claim.ns) &&
                Held(old(table)[claim.id], claim.generation, now)
      ensures table == if reply.Recorded?
                       then old(table)[claim.id := Completed(old(table)[claim.id], status)] else old(table)
    {
      if !status.Delivered? && !status.Failed? {
        return InvalidStatus;
      }
      if claim.id in table && table[claim.id].ns == claim.ns && Held(table[claim.id], claim.generation, now) {
        table := table[claim.id := Completed(table[claim.id], status)];
        reply := Recorded;
      } else {
        reply := NotTheOwner;
      }
    }

    /** The database clock alone decides: the first `limit` unlocked stale rows become claimable again. */
    method RequeueExpiredExecutions(limit: nat, now: int, locked: set<Id>) returns (count: nat)
      requires Valid()
      modifies this
      ensures Valid() && TableAdvances(old(table), table)
      ensures Requeues(old(table), table, now, limit, locked, count)
    {
      var pool := StaleIds(table, now, locked);
      var chosen := TakeFirst(pool, limit, LeaseRank(table));
      table := RequeueAll(table, Elements(chosen));
      count := |chosen|;
    }

    method UpdateExecutionStatus(id: Id, status: Status) returns (reply: StatusUpdate)
      requires Valid()
      modifies this
      ensures Valid() && TableAdvances(old(table), table)
      ensures reply.RowNotFound? <==> id !in old(table)
      ensures reply.TransitionDenied? <==> id in old(table) && Terminal(old(table)[id].status)
      ensures reply.Updated? <==> id in old(table) && LegacyWritable(old(table)[id])
      ensures table == if reply.Updated? then old(table)[id := old(table)[id].(status := status)] else old(table)
    {
      if id !in table {
        return RowNotFound;
      }
      if Terminal(table[id].status) {
        return TransitionDenied;
      }
      if table[id].generation != 0 {
        return ClaimLost;
      }
      table := table[id := table[id].(status := status)];
      reply := Updated;
    }
  }
}
