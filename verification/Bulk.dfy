/**
  Bulk pause and resume (internal/store/postgres/control.go and the checks of
  internal/service/control.go): a preview stores a snapshot of the selected
  jobs, and a confirmation changes just the jobs that still match it. The
  database and each store call of a confirmation may fail; while a confirmation
  runs, other transactions may edit every job it has not locked.
 */
module Bulk {
  import opened Options
  import opened Sets

  type JobId = nat
  type BatchId = nat

  datatype Action = Pause | Resume

  datatype Job = Job(ns: nat, enabled: bool, updatedAt: int)

  datatype Result = Unavailable | Failed | Conflict | Unchanged | Applied

  datatype Item = Item(id: JobId, enabled: bool, updatedAt: int, result: Option<Result>)

  datatype Batch = Batch(actor: nat, ns: nat, action: Action, items: seq<Item>, expires: int, confirmed: bool)

  /** What the two statements of one item meet. */
  datatype Fault = Works | ReadFails | WriteFails

  const MAX_JOBS := 100
  const MAX_PENDING := 20
  const PREVIEW_TTL := 600_000_000_000

  type Jobs = map<JobId, Job>

  function Find(jobs: Jobs, ns: nat, id: JobId): Option<Job> {
    if id in jobs && jobs[id].ns == ns then Some(jobs[id]) else None
  }

  // ---------- One item ----------

  predicate Matches(job: Job, item: Item) {
    job.updatedAt == item.updatedAt && job.enabled == item.enabled
  }

  function Verdict(job: Option<Job>, action: Action, item: Item, fault: Fault): Result {
    if fault.ReadFails? then Failed
    else if job.None? then Unavailable
    else if !Matches(job.value, item) then Conflict
    else if job.value.enabled == action.Resume? then Unchanged
    else if fault.WriteFails? then Failed
    else Applied
  }

  function AfterItem(jobs: Jobs, ns: nat, action: Action, item: Item, fault: Fault, stamp: int): Jobs {
    if Verdict(Find(jobs, ns, item.id), action, item, fault).Applied?
    then jobs[item.id := jobs[item.id].(enabled := action.Resume?, updatedAt := stamp)]
    else jobs
  }

  /** The item with its verdict. */
  function Judged(jobs: Jobs, ns: nat, action: Action, item: Item, fault: Fault): Item {
    item.(result := Some(Verdict(Find(jobs, ns, item.id), action, item, fault)))
  }

  // ---------- A whole confirmation ----------

  predicate Ascending(items: seq<Item>) {
    forall i, j | 0 <= i < j < |items| :: items[i].id < items[j].id
  }

  /** The jobs and the item results after the first n items. */
  function Confirmed(jobs: Jobs, ns: nat, action: Action, items: seq<Item>, faults: seq<Fault>, stamps: seq<int>,
                     n: nat): (Jobs, seq<Item>)
    requires n <= |items| && |faults| == |stamps| == |items|
  {
    if n == 0 then (jobs, [])
    else
      var (before, done) := Confirmed(jobs, ns, action, items, faults, stamps, n - 1);
      var item := items[n - 1];
      (AfterItem(before, ns, action, item, faults[n - 1], stamps[n - 1]),
       done + [Judged(before, ns, action, item, faults[n - 1])])
  }

  /** One item changes its own job only, and only from its snapshot to the requested state. */
  lemma ItemIsExact(jobs: Jobs, before: Jobs, ns: nat, action: Action, item: Item, fault: Fault, stamp: int)
    requires before.Keys == jobs.Keys && (item.id in jobs ==> before[item.id] == jobs[item.id])
    ensures Find(before, ns, item.id) == Find(jobs, ns, item.id)
    ensures var after := AfterItem(before, ns, action, item, fault, stamp);
            && after.Keys == jobs.Keys
            && (forall id | id in jobs && id != item.id :: after[id] == before[id])
            && (if Verdict(Find(jobs, ns, item.id), action, item, fault).Applied?
                then item.id in jobs && jobs[item.id] == Job(ns, !action.Resume?, item.updatedAt)
                     && after[item.id] == Job(ns, action.Resume?, stamp)
                else after == before)
  {
  }

  /**
    Each item is judged against the job as it was, exactly the applied jobs
    change, each from its snapshot to the requested state, and nothing else moves.
   */
  lemma {:induction false} ConfirmationIsExact(
      jobs: Jobs, ns: nat, action: Action, items: seq<Item>, faults: seq<Fault>, stamps: seq<int>, n: nat)
    requires n <= |items| && |faults| == |stamps| == |items| && Ascending(items)
    ensures var (after, done) := Confirmed(jobs, ns, action, items, faults, stamps, n);
            && |done| == n && after.Keys == jobs.Keys
            && (forall i | 0 <= i < n ::
                  done[i] == Judged(jobs, ns, action, items[i], faults[i]))
            && (forall i | 0 <= i < n && done[i].result == Some(Applied) ::
                  && items[i].id in jobs && jobs[items[i].id] == Job(ns, !action.Resume?, items[i].updatedAt)
                  && after[items[i].id] == Job(ns, action.Resume?, stamps[i]))
            && (forall id | id in jobs
                            && (forall i | 0 <= i < n :: items[i].id == id ==> done[i].result != Some(Applied)) ::
                  after[id] == jobs[id])
  {
    if n > 0 {
      ConfirmationIsExact(jobs, ns, action, items, faults, stamps, n - 1);
      var (before, done) := Confirmed(jobs, ns, action, items, faults, stamps, n - 1);
      var item := items[n - 1];
      assert item.id in jobs ==> before[item.id] == jobs[item.id];
      ItemIsExact(jobs, before, ns, action, item, faults[n - 1], stamps[n - 1]);
    }
  }

  /** How one item must end, given the job as it was. */
  ghost predicate Rightly(jobs: Jobs, ns: nat, action: Action, item: Item, fault: Fault, result: Option<Result>) {
    var there := item.id in jobs && jobs[item.id].ns == ns;
    var same := there && jobs[item.id] == Job(ns, item.enabled, item.updatedAt);
    var wanted := item.enabled == action.Resume?;
    && (result == Some(Applied) <==> same && !wanted && fault == Works)
    && (result == Some(Unchanged) <==> same && wanted && fault != ReadFails)
    && (result == Some(Conflict) <==> there && !same && fault != ReadFails)
    && (result == Some(Unavailable) <==> !there && fault != ReadFails)
    && (result == Some(Failed) <==> fault == ReadFails || (fault == WriteFails && same && !wanted))
  }

  /**
    Every item ends as it must: applied exactly if its job is still as in the
    snapshot, needs the change, and the store works.
   */
  lemma EveryItemEndsRightly(jobs: Jobs, ns: nat, action: Action, items: seq<Item>, faults: seq<Fault>,
                             stamps: seq<int>, i: nat)
    requires |faults| == |stamps| == |items| && Ascending(items) && i < |items|
    ensures |Confirmed(jobs, ns, action, items, faults, stamps, |items|).1| == |items|
    ensures Rightly(jobs, ns, action, items[i], faults[i],
                    Confirmed(jobs, ns, action, items, faults, stamps, |items|).1[i].result)
  {
    ConfirmationIsExact(jobs, ns, action, items, faults, stamps, |items|);
  }

  /** With jobs as previewed and a working store, a confirmation brings every selected job into the requested state. */
  lemma ConfirmationReachesTheState(jobs: Jobs, ns: nat, action: Action, items: seq<Item>, faults: seq<Fault>,
                                    stamps: seq<int>, i: nat)
    requires |faults| == |stamps| == |items| && Ascending(items) && i < |items|
    requires Snapshot(jobs, ns, items[i]) && faults[i].Works?
    ensures var after := Confirmed(jobs, ns, action, items, faults, stamps, |items|).0;
            items[i].id in after && after[items[i].id].ns == ns && after[items[i].id].enabled == action.Resume?
  {
    ConfirmationIsExact(jobs, ns, action, items, faults, stamps, |items|);
    EveryItemEndsRightly(jobs, ns, action, items, faults, stamps, i);
  }

  // ---------- The store ----------

  type Batches = map<BatchId, Batch>

  function PendingOf(batches: Batches, actor: nat, ns: nat): set<BatchId> {
    set b | b in batches && batches[b].actor == actor && batches[b].ns == ns && !batches[b].confirmed
  }

  /** Without the caller's expired previews. */
  function Swept(batches: Batches, actor: nat, ns: nat, now: int): Batches {
    map b | b in batches && !(b in PendingOf(batches, actor, ns) && batches[b].expires <= now) :: batches[b]
  }

  /** A preview of this key and namespace that was never confirmed and can no longer be. */
  predicate Expired(batch: Batch, actor: nat, ns: nat, now: int) {
    batch.actor == actor && batch.ns == ns && !batch.confirmed && now >= batch.expires
  }

  /** Previews of this key and namespace that can still be confirmed. */
  function Open(batches: Batches, actor: nat, ns: nat, now: int): set<BatchId> {
    set b | b in batches && batches[b].actor == actor && batches[b].ns == ns && !batches[b].confirmed
            && now < batches[b].expires
  }

  /** The sweep removes exactly the expired previews, so only open ones count against the limit. */
  lemma SweepLeavesTheOpen(batches: Batches, actor: nat, ns: nat, now: int)
    ensures PendingOf(Swept(batches, actor, ns, now), actor, ns) == Open(batches, actor, ns, now)
    ensures forall b :: b in Swept(batches, actor, ns, now) <==> b in batches && !Expired(batches[b], actor, ns, now)
  {
  }

  /** Once all earlier previews of a key have run out, it can preview again. */
  lemma ExpiryMakesRoom(batches: Batches, actor: nat, ns: nat, now: int)
    requires forall b | b in batches && batches[b].actor == actor && batches[b].ns == ns ::
               batches[b].confirmed || batches[b].expires <= now
    ensures |Open(batches, actor, ns, now)| < MAX_PENDING
  {
    assert Open(batches, actor, ns, now) == {};
  }

  predicate Visible(batches: Batches, id: BatchId, actor: nat, ns: nat, now: int) {
    && id in batches && batches[id].actor == actor && batches[id].ns == ns
    && (batches[id].confirmed || batches[id].expires > now)
  }

  predicate Distinct(ids: seq<JobId>) {
    forall i, j | 0 <= i < j < |ids| :: ids[i] != ids[j]
  }

  /** At most MAX_PENDING unconfirmed previews for each key and namespace, each of a proper selection. */
  ghost predicate BatchesInv(batches: Batches) {
    && (forall b | b in batches :: Ascending(batches[b].items) && 1 <= |batches[b].items| <= MAX_JOBS)
    && (forall actor, ns :: |PendingOf(batches, actor, ns)| <= MAX_PENDING)
  }

  lemma OnePreviewMore(batches: Batches, left: Batches, id: BatchId, batch: Batch, actor: nat, ns: nat)
    requires id !in batches && !batch.confirmed && forall b | b in left :: b in batches && left[b] == batches[b]
    requires |PendingOf(batches, actor, ns)| <= MAX_PENDING && |PendingOf(left, batch.actor, batch.ns)| < MAX_PENDING
    ensures |PendingOf(left[id := batch], actor, ns)| <= MAX_PENDING
  {
    if actor == batch.actor && ns == batch.ns {
      assert PendingOf(left[id := batch], actor, ns) == PendingOf(left, actor, ns) + {id};
    } else {
      SubsetSize(PendingOf(left[id := batch], actor, ns), PendingOf(batches, actor, ns));
    }
  }

  /** A new preview counts against its own key and namespace only, and the sweep makes room. */
  lemma PreviewKeeps(batches: Batches, now: int, id: BatchId, batch: Batch)
    requires BatchesInv(batches) && id !in batches && !batch.confirmed
    requires Ascending(batch.items) && 1 <= |batch.items| <= MAX_JOBS
    requires |PendingOf(Swept(batches, batch.actor, batch.ns, now), batch.actor, batch.ns)| < MAX_PENDING
    ensures BatchesInv(Swept(batches, batch.actor, batch.ns, now)[id := batch])
  {
    var left := Swept(batches, batch.actor, batch.ns, now);
    var after := left[id := batch];
    forall actor, ns
      ensures |PendingOf(after, actor, ns)| <= MAX_PENDING
    {
      OnePreviewMore(batches, left, id, batch, actor, ns);
    }
  }

  /** Confirming a batch takes it off the pending ones. */
  lemma ConfirmKeeps(batches: Batches, id: BatchId, items: seq<Item>)
    requires BatchesInv(batches) && id in batches && Ascending(items) && |items| == |batches[id].items|
    ensures BatchesInv(batches[id := batches[id].(items := items, confirmed := true)])
  {
    var batches' := batches[id := batches[id].(items := items, confirmed := true)];
    forall actor, ns
      ensures |PendingOf(batches', actor, ns)| <= MAX_PENDING
    {
      SubsetSize(PendingOf(batches', actor, ns), PendingOf(batches, actor, ns));
    }
  }

  function Insert(ids: seq<JobId>, id: JobId): (r: seq<JobId>)
    requires forall i, j | 0 <= i < j < |ids| :: ids[i] < ids[j]
    requires id !in ids
    ensures forall i, j | 0 <= i < j < |r| :: r[i] < r[j]
    ensures |r| == |ids| + 1 && forall x :: x in r <==> x in ids || x == id
  {
    if ids == [] then [id]
    else if id < ids[0] then [id] + ids
    else
      var rest := Insert(ids[1..], id);
      assert forall x | x in ids[1..] :: ids[0] < x;
      assert forall k | 0 <= k < |rest| :: rest[k] in rest;
      [ids[0]] + rest
  }

  function Sorted(ids: seq<JobId>): (r: seq<JobId>)
    requires Distinct(ids)
    ensures forall i, j | 0 <= i < j < |r| :: r[i] < r[j]
    ensures |r| == |ids| && forall x :: x in r <==> x in ids
  {
    if ids == [] then [] else Insert(Sorted(ids[1..]), ids[0])
  }

  /** The duplicate check of the service: no nil id and none twice. */
  method CheckIds(ids: seq<JobId>) returns (ok: bool)
    ensures ok <==> Distinct(ids) && 0 !in ids
  {
    var seen: set<JobId> := {};
    var i := 0;
    while i < |ids|
      invariant 0 <= i <= |ids| && Distinct(ids[..i]) && 0 !in ids[..i]
      invariant forall id :: id in seen <==> id in ids[..i]
    {
      if ids[i] == 0 || ids[i] in seen {
        return false;
      }
      assert ids[..i + 1] == ids[..i] + [ids[i]];
      seen := seen + {ids[i]};
      i := i + 1;
    }
    assert ids[..i] == ids;
    ok := true;
  }

  datatype PreviewOutcome = Previewed(batch: Batch) | InvalidInput | Unauthorized | JobNotFound | StoreFailed

  datatype ConfirmOutcome = Done(batch: Batch) | NotAuthorized | NotFound | Aborted

  predicate Snapshot(jobs: Jobs, ns: nat, item: Item) {
    item.id in jobs && jobs[item.id] == Job(ns, item.enabled, item.updatedAt) && item.result.None?
  }

  /** One item for each of the ids, with the job as it is now. */
  ghost predicate Selected(jobs: Jobs, ns: nat, ids: seq<JobId>, items: seq<Item>) {
    && |items| == |ids| && (forall x :: x in ids <==> exists i | 0 <= i < |items| :: items[i].id == x)
    && forall i | 0 <= i < |items| :: Snapshot(jobs, ns, items[i])
  }

  class ControlStore {
    var jobs: Jobs
    var batches: Batches

    constructor (jobs: Jobs)
      ensures BatchesInv(batches) && this.jobs == jobs && batches == map[]
    {
      this.jobs, batches := jobs, map[];
      new;
      forall actor, ns
        ensures |PendingOf(batches, actor, ns)| <= MAX_PENDING
      {
        assert PendingOf(batches, actor, ns) == {};
      }
    }

    /** The snapshots of all the jobs, or None if one is missing. */
    method Load(ns: nat, ids: seq<JobId>) returns (items: Option<seq<Item>>)
      ensures items.Some? <==> forall i | 0 <= i < |ids| :: ids[i] in jobs && jobs[ids[i]].ns == ns
      ensures items.Some? ==> |items.value| == |ids|
      ensures items.Some? ==>
                forall i | 0 <= i < |ids| :: items.value[i].id == ids[i] && Snapshot(jobs, ns, items.value[i])
    {
      var loaded: seq<Item> := [];
      var i := 0;
      while i < |ids|
        invariant 0 <= i == |loaded| <= |ids|
        invariant forall k | 0 <= k < i :: loaded[k].id == ids[k] && Snapshot(jobs, ns, loaded[k])
      {
        var job := Find(jobs, ns, ids[i]);
        if job.None? {
          return None;
        }
        loaded := loaded + [Item(ids[i], job.value.enabled, job.value.updatedAt, None)];
        i := i + 1;
      }
      items := Some(loaded);
    }

    /** The snapshots of a selection, in the order of the ids. */
    method Select(ns: nat, ids: seq<JobId>) returns (items: Option<seq<Item>>)
      requires Distinct(ids)
      ensures items.Some? <==> forall i | 0 <= i < |ids| :: ids[i] in jobs && jobs[ids[i]].ns == ns
      ensures items.Some? ==> Ascending(items.value) && Selected(jobs, ns, ids, items.value)
    {
      var sorted := Sorted(ids);
      assert forall i | 0 <= i < |ids| :: ids[i] in sorted;
      assert forall i | 0 <= i < |sorted| :: sorted[i] in ids;
      items := Load(ns, sorted);
      if items.Some? {
        assert forall i | 0 <= i < |sorted| :: items.value[i].id == sorted[i];
      }
    }

    /** `commits` is false if a statement of the transaction or its commit fails. */
    method PreviewBulk(ns: nat, actor: nat, action: Option<Action>, ids: seq<JobId>, id: BatchId, now: int,
                       authorized: bool, commits: bool)
      returns (r: PreviewOutcome)
      requires BatchesInv(batches) && id !in batches
      modifies this`batches
      ensures BatchesInv(batches)
      ensures r.Previewed? <==>
                && actor != 0 && action.Some? && 1 <= |ids| <= MAX_JOBS && Distinct(ids) && 0 !in ids
                && authorized && commits
                && |Open(old(batches), actor, ns, now)| < MAX_PENDING
                && (forall i | 0 <= i < |ids| :: ids[i] in jobs && jobs[ids[i]].ns == ns)
      ensures r.Previewed? ==>
                && id in batches && batches[id] == r.batch
                && (forall b | b != id ::
                      b in batches <==> b in old(batches) && !Expired(old(batches)[b], actor, ns, now))
                && (forall b | b != id && b in batches :: batches[b] == old(batches)[b])
                && r.batch == Batch(actor, ns, action.value, r.batch.items, now + PREVIEW_TTL, false)
                && Selected(jobs, ns, ids, r.batch.items)
      ensures !r.Previewed? ==> batches == old(batches)
      ensures forall b | b in old(batches) && old(batches)[b].confirmed :: b in batches && batches[b] == old(batches)[b]
    {
      if actor == 0 || action.None? || |ids| < 1 || |ids| > MAX_JOBS {
        return InvalidInput;
      }
      var ok := CheckIds(ids);
      if !ok {
        return InvalidInput;
      }
      if !authorized {
        return Unauthorized;
      }
      SweepLeavesTheOpen(batches, actor, ns, now);
      var left := Swept(batches, actor, ns, now);
      if |PendingOf(left, actor, ns)| >= MAX_PENDING {
        return InvalidInput;
      }
      var items := Select(ns, ids);
      if items.None? {
        return JobNotFound;
      }
      if !commits {
        return StoreFailed;
      }
      r := Previewed(Batch(actor, ns, action.value, items.value, now + PREVIEW_TTL, false));
      PreviewKeeps(batches, now, id, r.batch);
      batches := left[id := r.batch];
    }

    /** The loop over the items; the caller's transaction commits or not. */
    method ConfirmItems(batch: Batch, faults: seq<Fault>, stamps: seq<int>) returns (done: seq<Item>)
      requires |faults| == |stamps| == |batch.items|
      modifies this`jobs
      ensures (jobs, done) == Confirmed(old(jobs), batch.ns, batch.action, batch.items, faults, stamps, |batch.items|)
    {
      done := [];
      var i := 0;
      while i < |batch.items|
        invariant 0 <= i <= |batch.items|
        invariant (jobs, done) == Confirmed(old(jobs), batch.ns, batch.action, batch.items, faults, stamps, i)
      {
        var item := batch.items[i];
        var job := Find(jobs, batch.ns, item.id);
        var result;
        if faults[i].ReadFails? {
          result := Failed;
        } else if job.None? {
          result := Unavailable;
        } else if job.value.updatedAt != item.updatedAt || job.value.enabled != item.enabled {
          result := Conflict;
        } else if job.value.enabled == batch.action.Resume? {
          result := Unchanged;
        } else if faults[i].WriteFails? {
          result := Failed;
        } else {
          jobs := jobs[item.id := jobs[item.id].(enabled := batch.action.Resume?, updatedAt := stamps[i])];
          result := Applied;
        }
        done := done + [item.(result := Some(result))];
        i := i + 1;
      }
    }

    /** A confirmation happens once: after it the stored results are returned and nothing changes. */
    method ConfirmBulk(ns: nat, actor: nat, id: BatchId, now: int, authorized: bool, faults: seq<Fault>,
                       stamps: seq<int>, commits: bool)
      returns (r: ConfirmOutcome)
      requires BatchesInv(batches)
      requires id in batches ==> |faults| == |stamps| == |batches[id].items|
      modifies this
      ensures BatchesInv(batches)
      ensures !r.Done? ==> jobs == old(jobs) && batches == old(batches)
      ensures r.Done? <==>
                && authorized && commits && id in old(batches)
                && old(batches)[id].actor == actor && old(batches)[id].ns == ns
                && (old(batches)[id].confirmed || now < old(batches)[id].expires)
      ensures r.Done? ==> batches == old(batches)[id := r.batch] && r.batch.confirmed
      ensures forall b | b in old(batches) && old(batches)[b].confirmed :: b in batches && batches[b] == old(batches)[b]
      ensures r.Done? && old(batches)[id].confirmed ==> jobs == old(jobs) && r.batch == old(batches)[id]
      ensures r.Done? && !old(batches)[id].confirmed ==>
                (jobs, r.batch.items) == Confirmed(old(jobs), ns, old(batches)[id].action, old(batches)[id].items,
                                                   faults, stamps, |faults|)
    {
      if !authorized {
        return NotAuthorized;
      }
      if !Visible(batches, id, actor, ns, now) {
        return NotFound;
      }
      var batch := batches[id];
      if batch.confirmed {
        assert batches == batches[id := batch];
        return if commits then Done(batch) else Aborted;
      }
      var before := jobs;
      ConfirmationIsExact(jobs, ns, batch.action, batch.items, faults, stamps, |batch.items|);
      var done := ConfirmItems(batch, faults, stamps);
      if !commits {
        jobs := before;
        return Aborted;
      }
      ConfirmKeeps(batches, id, done);
      batches := batches[id := batch.(items := done, confirmed := true)];
      return Done(batches[id]);
    }
  }

  // ---------- A confirmation among other transactions ----------

  /**
    A confirmation in progress: the items judged so far, the jobs whose row locks
    it holds, and the rows it wrote. `others` is the jobs table as the other
    transactions alone would have left it.
   */
  datatype Tx = Tx(ns: nat, action: Action, items: seq<Item>, done: seq<Item>, jobs: Jobs, others: Jobs,
                   locked: set<JobId>, written: set<JobId>)

  datatype Step = Next(fault: Fault, stamp: int) | Edit(id: JobId, job: Option<Job>)

  function Begun(batch: Batch, jobs: Jobs): Tx {
    Tx(batch.ns, batch.action, batch.items, [], jobs, jobs, {}, {})
  }

  function Edited(jobs: Jobs, id: JobId, job: Option<Job>): Jobs {
    if job.Some? then jobs[id := job.value] else jobs - {id}
  }

  /** A failed item is rolled back to its savepoint, which gives up its row lock. */
  function ItemStep(tx: Tx, item: Item, fault: Fault, stamp: int): Tx {
    var verdict := Verdict(Find(tx.jobs, tx.ns, item.id), tx.action, item, fault);
    tx.(done := tx.done + [item.(result := Some(verdict))],
        jobs := AfterItem(tx.jobs, tx.ns, tx.action, item, fault, stamp),
        locked := if verdict.Failed? || verdict.Unavailable? then tx.locked else tx.locked + {item.id},
        written := if verdict.Applied? then tx.written + {item.id} else tx.written)
  }

  /** The next item, or an edit of a job that is not locked; other steps change nothing. */
  function TxNext(tx: Tx, step: Step): Tx {
    match step
    case Next(fault, stamp) => if |tx.done| < |tx.items| then ItemStep(tx, tx.items[|tx.done|], fault, stamp) else tx
    case Edit(id, job) =>
      if id in tx.locked then tx else tx.(jobs := Edited(tx.jobs, id, job), others := Edited(tx.others, id, job))
  }

  function TxRun(tx: Tx, steps: seq<Step>): Tx {
    if steps == [] then tx else TxNext(TxRun(tx, steps[..|steps| - 1]), steps[|steps| - 1])
  }

  predicate Same(a: Jobs, b: Jobs, id: JobId) {
    (id in a <==> id in b) && (id in a ==> a[id] == b[id])
  }

  /** A written job: locked, still as its snapshot for everyone else, and in the requested state here. */
  predicate WrittenInv(tx: Tx, item: Item) {
    && item.id in tx.locked && item.id in tx.others && item.id in tx.jobs
    && tx.others[item.id] == Job(tx.ns, !tx.action.Resume?, item.updatedAt) && Matches(tx.others[item.id], item)
    && tx.jobs[item.id].ns == tx.ns && tx.jobs[item.id].enabled == tx.action.Resume?
  }

  /** Results for which the row of the job was read and kept. */
  predicate Locks(r: Option<Result>) {
    r.Some? && (r.value == Applied || r.value == Unchanged || r.value == Conflict)
  }

  ghost predicate TxInv(tx: Tx) {
    && Ascending(tx.items) && |tx.done| <= |tx.items|
    && (forall i | 0 <= i < |tx.done| ::
          && tx.done[i].result.Some? && tx.done[i] == tx.items[i].(result := tx.done[i].result)
          && (tx.done[i].id in tx.written <==> tx.done[i].result == Some(Applied))
          && (tx.done[i].id in tx.locked <==> Locks(tx.done[i].result))
          && (tx.done[i].result == Some(Applied) ==> WrittenInv(tx, tx.items[i])))
    && (forall id | id in tx.written || id in tx.locked :: exists i | 0 <= i < |tx.done| :: tx.items[i].id == id)
    && (forall id | id !in tx.written :: Same(tx.jobs, tx.others, id))
  }

  lemma ItemKeeps(tx: Tx, item: Item, fault: Fault, stamp: int)
    requires TxInv(tx) && |tx.done| < |tx.items| && item == tx.items[|tx.done|]
    ensures TxInv(ItemStep(tx, item, fault, stamp))
  {
    var tx' := ItemStep(tx, item, fault, stamp);
    assert item.id !in tx.written && item.id !in tx.locked;
    assert Same(tx.jobs, tx.others, item.id);
  }

  lemma EditKeeps(tx: Tx, id: JobId, job: Option<Job>)
    requires TxInv(tx) && id !in tx.locked
    ensures TxInv(TxNext(tx, Edit(id, job)))
  {
    var tx' := TxNext(tx, Edit(id, job));
    forall other | other !in tx'.written
      ensures Same(tx'.jobs, tx'.others, other)
    {
      assert Same(tx.jobs, tx.others, other);
    }
  }

  lemma {:induction false} TxRunKeeps(batch: Batch, jobs: Jobs, steps: seq<Step>)
    requires Ascending(batch.items)
    ensures TxInv(TxRun(Begun(batch, jobs), steps))
  {
    if steps != [] {
      TxRunKeeps(batch, jobs, steps[..|steps| - 1]);
      var tx := TxRun(Begun(batch, jobs), steps[..|steps| - 1]);
      match steps[|steps| - 1]
      case Next(fault, stamp) => if |tx.done| < |tx.items| { ItemKeeps(tx, tx.items[|tx.done|], fault, stamp); }
      case Edit(id, job) => if id !in tx.locked { EditKeeps(tx, id, job); }
    }
  }

  /**
    Whatever other transactions do meanwhile, the confirmation differs from their
    work alone exactly on the applied jobs; each of those still matches its
    snapshot for everyone else and holds the requested state here.
   */
  lemma OnlyAppliedJobsDiffer(batch: Batch, jobs: Jobs, steps: seq<Step>, id: JobId)
    requires Ascending(batch.items)
    ensures var tx := TxRun(Begun(batch, jobs), steps);
            && (!Same(tx.jobs, tx.others, id) <==>
                  exists i | 0 <= i < |tx.done| :: tx.done[i].id == id && tx.done[i].result == Some(Applied))
            && (forall i | 0 <= i < |tx.done| && tx.done[i].result == Some(Applied) && tx.done[i].id == id ::
                  && id in tx.jobs && tx.jobs[id].enabled == batch.action.Resume?
                  && id in tx.others && Matches(tx.others[id], tx.done[i]))
  {
    TxRunKeeps(batch, jobs, steps);
    var tx := TxRun(Begun(batch, jobs), steps);
    assert tx.action == batch.action by { TxKeepsRequest(batch, jobs, steps); }
    if id in tx.written {
      var i :| 0 <= i < |tx.done| && tx.items[i].id == id;
      assert tx.done[i].result == Some(Applied);
    }
  }

  lemma {:induction false} TxKeepsRequest(batch: Batch, jobs: Jobs, steps: seq<Step>)
    ensures TxRun(Begun(batch, jobs), steps).action == batch.action && TxRun(Begun(batch, jobs), steps).ns == batch.ns
  {
    if steps != [] {
      TxKeepsRequest(batch, jobs, steps[..|steps| - 1]);
    }
  }

  /** Among other transactions too, an item ends as the job it meets demands. */
  lemma EveryStepEndsRightly(batch: Batch, jobs: Jobs, steps: seq<Step>, fault: Fault, stamp: int)
    requires |TxRun(Begun(batch, jobs), steps).done| < |TxRun(Begun(batch, jobs), steps).items|
    ensures var tx := TxRun(Begun(batch, jobs), steps);
            var done := TxNext(tx, Next(fault, stamp)).done;
            && |done| == |tx.done| + 1 && done[..|tx.done|] == tx.done
            && Rightly(tx.jobs, batch.ns, batch.action, tx.items[|tx.done|], fault, done[|tx.done|].result)
  {
    TxKeepsRequest(batch, jobs, steps);
  }

  /** Another transaction has to wait exactly for the jobs whose rows the confirmation read and did not give up. */
  lemma EditsWaitForLockedJobs(batch: Batch, jobs: Jobs, steps: seq<Step>, id: JobId, job: Option<Job>)
    requires Ascending(batch.items)
    ensures var tx := TxRun(Begun(batch, jobs), steps);
            var waits := exists i | 0 <= i < |tx.done| :: tx.done[i].id == id && Locks(tx.done[i].result);
            TxNext(tx, Edit(id, job)).others == if waits then tx.others else Edited(tx.others, id, job)
  {
    TxRunKeeps(batch, jobs, steps);
    var tx := TxRun(Begun(batch, jobs), steps);
    if id in tx.locked {
      var i :| 0 <= i < |tx.done| && tx.items[i].id == id;
      assert tx.done[i].id == id;
    }
  }
}
