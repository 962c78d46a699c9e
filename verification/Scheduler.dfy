/**
  The tick of internal/scheduler/scheduler.go: page through the jobs, catch
  each one up from its window start, and hold the shared cursor back for jobs
  that were capped or could not be persisted.
 */
module Scheduler {
  import opened Options
  import opened Selection
  import opened Sets
  import opened Schedules

  type JobId = nat

  const PAGE_SIZE := 100
  const DEFAULT_MAX_FIRES := 1000

  /** `schedule` is None when the expression or timezone does not parse; `createdAt` None is the zero time. */
  datatype Job = Job(createdAt: Option<int>, schedule: Option<Next>)

  /** What one insert reports, and whether the row became durable. */
  datatype Insert = Stored | Lost | StoredButReportedLost

  /** The environment of one tick. */
  datatype Env = Env(
    now: int,
    pageFails: nat -> bool,
    lookupFails: JobId -> bool,
    insert: (JobId, int) -> Insert
  )

  /** `cursor` None is the zero cursor of a job whose schedule does not parse. */
  datatype JobResult = JobResult(rows: Rows, cursor: Option<int>, capped: bool, failed: bool)

  /** A job for whose sake the shared cursor must not advance. */
  predicate HoldsBack(r: JobResult) {
    (r.capped || r.failed) && r.cursor.Some?
  }

  function Cap(maxFires: int): nat {
    if maxFires <= 0 then DEFAULT_MAX_FIRES else maxFires
  }

  // ---------- One job ----------

  /** Persist due slots after `cursor`, oldest first, stopping at the first one that cannot be stored. */
  function CatchUp(next: Next, cursor: int, now: int, left: nat, rows: Rows, insert: int -> Insert): JobResult
    decreases left
  {
    var due := next(cursor);
    if due.None? || due.value > now then JobResult(rows, Some(cursor), false, false)
    else if left == 0 then JobResult(rows, Some(cursor), true, false)
    else match insert(due.value)
      case Stored => CatchUp(next, due.value, now, left - 1, WithRow(rows, due.value), insert)
      case Lost => JobResult(rows, Some(cursor), false, true)
      case StoredButReportedLost => JobResult(WithRow(rows, due.value), Some(cursor), false, true)
  }

  /** The cursor before durable progress is consulted. */
  function SharedCursor(job: Job, lastTick: Option<int>, now: int, tickInterval: int): int {
    match lastTick
    case Some(last) =>
      if job.createdAt.Some? && job.createdAt.value > last && job.createdAt.value <= now then job.createdAt.value
      else last
    case None =>
      if job.createdAt.None? || job.createdAt.value > now then now - (if tickInterval > 0 then tickInterval else MINUTE)
      else job.createdAt.value
  }

  /** Recovering ticks resume from the latest scheduled row when it lies ahead of the shared cursor. */
  function WindowStart(job: Job, lastTick: Option<int>, deferred: bool, now: int, tickInterval: int,
                       lookupFails: bool, latest: Option<int>): int
  {
    var cursor := SharedCursor(job, lastTick, now, tickInterval);
    if lastTick.Some? && !deferred then cursor
    else if lookupFails || latest.None? || latest.value <= cursor then cursor
    else latest.value
  }

  /** One job of one tick, relative to what the last-scheduled query answers. */
  function JobRun(job: Job, lastTick: Option<int>, deferred: bool, now: int, tickInterval: int, cap: nat,
                  lookupFails: bool, latest: Option<int>, rows: Rows, insert: int -> Insert): JobResult
  {
    if job.schedule.None? then JobResult(rows, None, false, true)
    else
      CatchUp(job.schedule.value, WindowStart(job, lastTick, deferred, now, tickInterval, lookupFails, latest),
              now, cap, rows, insert)
  }

  // ---------- The whole tick ----------

  datatype State = State(lastTick: Option<int>, deferred: bool, rows: map<JobId, Rows>)

  datatype Settings = Settings(tickInterval: int, maxFires: int)

  /** What the tick did for job j. */
  ghost predicate JobStep(jobs: map<JobId, Job>, settings: Settings, s: State, env: Env, j: JobId, r: JobResult)
    requires j in jobs && j in s.rows
  {
    exists latest ::
      && IsLatest(s.rows[j], latest)
      && r == JobRun(jobs[j], s.lastTick, s.deferred, env.now, settings.tickInterval, Cap(settings.maxFires),
                     env.lookupFails(j), latest, s.rows[j], x => env.insert(j, x))
  }

  /** The results of the jobs a tick reached. */
  ghost predicate JobSteps(jobs: map<JobId, Job>, settings: Settings, s: State, env: Env,
                           results: map<JobId, JobResult>)
  {
    && results.Keys <= jobs.Keys && jobs.Keys == s.rows.Keys
    && forall j | j in results :: JobStep(jobs, settings, s, env, j, results[j])
  }

  /** The new shared cursor: now, or the earliest cursor of a job that holds it back. */
  ghost predicate NextCursor(now: int, results: map<JobId, JobResult>, cursor: int) {
    && cursor <= now
    && (forall j | j in results && HoldsBack(results[j]) :: cursor <= results[j].cursor.value)
    && (cursor == now || exists j :: j in results && HoldsBack(results[j]) && cursor == results[j].cursor.value)
  }

  function RowsAfter(rows: map<JobId, Rows>, results: map<JobId, JobResult>): map<JobId, Rows> {
    map j | j in rows :: if j in results then results[j].rows else rows[j]
  }

  /** Every page of the job list can be read; the last one is short, and may be empty. */
  ghost predicate AllPagesRead(jobs: set<JobId>, env: Env) {
    forall p | 0 <= p <= |jobs| / PAGE_SIZE :: !env.pageFails(p)
  }

  /** Reading stopped at the first page that fails, after just the jobs with the lowest ids on the pages before it. */
  ghost predicate PageFailed(jobs: set<JobId>, env: Env, reached: set<JobId>) {
    && reached <= jobs && (forall x, y | x in reached && y in jobs && y !in reached :: x < y)
    && |reached| == (|reached| / PAGE_SIZE) * PAGE_SIZE && env.pageFails(|reached| / PAGE_SIZE)
    && forall p | 0 <= p < |reached| / PAGE_SIZE :: !env.pageFails(p)
  }

  /** A tick that reads every page advances the cursor; a failed page only marks it deferred. */
  ghost predicate TickStep(jobs: map<JobId, Job>, settings: Settings, s: State, s': State, env: Env,
                           results: map<JobId, JobResult>)
  {
    && JobSteps(jobs, settings, s, env, results)
    && s'.rows == RowsAfter(s.rows, results)
    && (|| (s'.lastTick == s.lastTick && s'.deferred && PageFailed(jobs.Keys, env, results.Keys))
        || (&& results.Keys == jobs.Keys && AllPagesRead(jobs.Keys, env)
            && s'.lastTick.Some? && NextCursor(env.now, results, s'.lastTick.value)
            && (s'.deferred <==> s'.lastTick.value < env.now)))
  }

  // ---------- Keyset paging ----------

  function IdRank(): nat -> Rank {
    (id: nat) => Rank(0, 0, id)
  }

  function JobsAfter(jobs: set<JobId>, after: JobId): set<JobId> {
    set j | j in jobs && j > after
  }

  /** A page of the keyset query continues exactly where the previous one ended. */
  lemma PageContinues(jobs: set<JobId>, after: JobId, page: seq<JobId>)
    requires IsFirst(Elements(page), JobsAfter(jobs, after), PAGE_SIZE, IdRank())
    requires |page| == |Elements(page)| && Ascending(page, IdRank())
    ensures |page| < PAGE_SIZE ==> jobs == (jobs - JobsAfter(jobs, after)) + Elements(page)
    ensures |page| >= PAGE_SIZE ==>
              && page[|page| - 1] in JobsAfter(jobs, after)
              && jobs - JobsAfter(jobs, page[|page| - 1]) == (jobs - JobsAfter(jobs, after)) + Elements(page)
  {
    var pool := JobsAfter(jobs, after);
    if |page| < PAGE_SIZE {
      assert |pool - Elements(page)| == 0 by {
        assert pool == Elements(page) + (pool - Elements(page));
      }
    } else {
      var last := page[|page| - 1];
      assert last in Elements(page);
      forall j | j in Elements(page)
        ensures j <= last
      {
        var i :| 0 <= i < |page| && page[i] == j;
      }
      forall j | j in pool && j !in Elements(page)
        ensures j > last
      {
        assert Before(IdRank()(last), IdRank()(j));
      }
    }
  }

  /** Full pages come in hundreds, and a short one completes the list. */
  lemma PageCounts(jobs: set<JobId>, after: JobId, page: seq<JobId>)
    requires IsFirst(Elements(page), JobsAfter(jobs, after), PAGE_SIZE, IdRank())
    requires |page| == |Elements(page)| && Ascending(page, IdRank())
    ensures |page| < PAGE_SIZE ==> |jobs| < |jobs - JobsAfter(jobs, after)| + PAGE_SIZE
    ensures |page| >= PAGE_SIZE ==>
              |jobs - JobsAfter(jobs, page[|page| - 1])| == |jobs - JobsAfter(jobs, after)| + PAGE_SIZE
  {
    PageContinues(jobs, after, page);
    var done := jobs - JobsAfter(jobs, after);
    assert done !! Elements(page);
    assert |done + Elements(page)| == |done| + |page|;
  }

  /** How far paging has got: `reached` are the jobs of all earlier pages, in hundreds, or the whole list. */
  ghost predicate PagesRead(jobs: set<JobId>, env: Env, after: JobId, pageNumber: nat, more: bool,
                            reached: set<JobId>)
  {
    && (forall p | 0 <= p < pageNumber :: !env.pageFails(p))
    && (if more then reached == jobs - JobsAfter(jobs, after) && |reached| == pageNumber * PAGE_SIZE
        else reached == jobs && |jobs| < pageNumber * PAGE_SIZE)
  }

  lemma PageFailsHere(jobs: set<JobId>, env: Env, after: JobId, pageNumber: nat, reached: set<JobId>)
    requires PagesRead(jobs, env, after, pageNumber, true, reached) && env.pageFails(pageNumber)
    ensures PageFailed(jobs, env, reached) && !AllPagesRead(jobs, env)
  {
    SubsetSize(reached, jobs);
    assert pageNumber * PAGE_SIZE / PAGE_SIZE == pageNumber;
  }

  lemma LastPageRead(jobs: set<JobId>, env: Env, after: JobId, pageNumber: nat, reached: set<JobId>)
    requires PagesRead(jobs, env, after, pageNumber, false, reached)
    ensures AllPagesRead(jobs, env) && reached == jobs
  {
  }

  lemma PageShrinks(jobs: set<JobId>, after: JobId, last: JobId)
    requires last in JobsAfter(jobs, after)
    ensures JobsAfter(jobs, last) < JobsAfter(jobs, after)
  {
    assert last !in JobsAfter(jobs, last);
  }

  lemma FullPageRead(jobs: set<JobId>, env: Env, after: JobId, pageNumber: nat, reached: set<JobId>, page: seq<JobId>)
    requires PagesRead(jobs, env, after, pageNumber, true, reached) && !env.pageFails(pageNumber)
    requires IsFirst(Elements(page), JobsAfter(jobs, after), PAGE_SIZE, IdRank())
    requires |page| == |Elements(page)| && Ascending(page, IdRank()) && |page| >= PAGE_SIZE
    ensures PagesRead(jobs, env, page[|page| - 1], pageNumber + 1, true, reached + Elements(page))
    ensures JobsAfter(jobs, page[|page| - 1]) < JobsAfter(jobs, after)
  {
    PageCounts(jobs, after, page);
    PageContinues(jobs, after, page);
    PageShrinks(jobs, after, page[|page| - 1]);
  }

  lemma ShortPageRead(jobs: set<JobId>, env: Env, after: JobId, pageNumber: nat, reached: set<JobId>, page: seq<JobId>)
    requires PagesRead(jobs, env, after, pageNumber, true, reached) && !env.pageFails(pageNumber)
    requires IsFirst(Elements(page), JobsAfter(jobs, after), PAGE_SIZE, IdRank())
    requires |page| == |Elements(page)| && Ascending(page, IdRank()) && |page| < PAGE_SIZE
    ensures PagesRead(jobs, env, after, pageNumber + 1, false, reached + Elements(page))
  {
    PageCounts(jobs, after, page);
    PageContinues(jobs, after, page);
  }

  lemma NothingToRead(jobs: set<JobId>)
    requires forall j | j in jobs :: j > 0
    ensures jobs - JobsAfter(jobs, 0) == {}
  {
    assert forall j | j in jobs :: j in JobsAfter(jobs, 0);
    EmptyMeetAndRest(jobs, JobsAfter(jobs, 0));
  }

  /** A page lists each job once. */
  lemma NextOfPage(page: seq<JobId>, i: nat, seen: set<JobId>)
    requires Ascending(page, IdRank()) && i < |page|
    ensures page[i] in Elements(page) && page[i] !in Elements(page[..i])
    ensures seen + Elements(page[..i + 1]) == seen + Elements(page[..i]) + {page[i]}
  {
    assert page[..i + 1] == page[..i] + [page[i]];
    forall j | j in Elements(page[..i])
      ensures j != page[i]
    {
      var k :| 0 <= k < i && page[k] == j;
      assert Before(IdRank()(page[k]), IdRank()(page[i]));
    }
  }

  lemma JobStepReadsOneJob(jobs: map<JobId, Job>, settings: Settings, s: State, s': State, env: Env, j: JobId,
                           r: JobResult)
    requires j in jobs && j in s.rows && j in s'.rows && s.rows[j] == s'.rows[j]
    requires s.lastTick == s'.lastTick && s.deferred == s'.deferred
    requires JobStep(jobs, settings, s, env, j, r)
    ensures JobStep(jobs, settings, s', env, j, r)
  {
  }

  /** Part way through a tick that began in `start`: `results` are in, `cursor` is the next shared cursor so far. */
  ghost predicate Progress(jobs: map<JobId, Job>, settings: Settings, start: State, s: State, env: Env,
                           results: map<JobId, JobResult>, cursor: int)
  {
    && s.lastTick == start.lastTick && s.deferred == start.deferred
    && s.rows == RowsAfter(start.rows, results)
    && JobSteps(jobs, settings, start, env, results)
    && NextCursor(env.now, results, cursor)
  }

  function Lowered(cursor: int, r: JobResult): int {
    if HoldsBack(r) && r.cursor.value < cursor then r.cursor.value else cursor
  }

  lemma LoweredCursor(now: int, results: map<JobId, JobResult>, cursor: int, j: JobId, r: JobResult)
    requires NextCursor(now, results, cursor) && j !in results
    ensures NextCursor(now, results[j := r], Lowered(cursor, r))
  {
    var results' := results[j := r];
    assert forall k | k in results :: results'[k] == results[k];
    assert j in results' && results'[j] == r;
  }

  lemma RowsExtend(rows: map<JobId, Rows>, results: map<JobId, JobResult>, j: JobId, r: JobResult)
    requires j in rows && j !in results
    ensures RowsAfter(rows, results[j := r]) == RowsAfter(rows, results)[j := r.rows]
  {
  }

  lemma JobStepsExtend(jobs: map<JobId, Job>, settings: Settings, start: State, env: Env,
                       results: map<JobId, JobResult>, j: JobId, r: JobResult)
    requires JobSteps(jobs, settings, start, env, results)
    requires j in jobs && j !in results && JobStep(jobs, settings, start, env, j, r)
    ensures JobSteps(jobs, settings, start, env, results[j := r])
  {
    var results' := results[j := r];
    forall k | k in results'
      ensures JobStep(jobs, settings, start, env, k, results'[k])
    {
    }
  }

  lemma ProgressExtends(jobs: map<JobId, Job>, settings: Settings, start: State, s: State, env: Env,
                        results: map<JobId, JobResult>, cursor: int, j: JobId, r: JobResult)
    requires Progress(jobs, settings, start, s, env, results, cursor)
    requires j in jobs && j in s.rows && j !in results && JobStep(jobs, settings, s, env, j, r)
    ensures Progress(jobs, settings, start, s.(rows := s.rows[j := r.rows]), env, results[j := r], Lowered(cursor, r))
  {
    JobStepReadsOneJob(jobs, settings, s, start, env, j, r);
    LoweredCursor(env.now, results, cursor, j, r);
    RowsExtend(start.rows, results, j, r);
    JobStepsExtend(jobs, settings, start, env, results, j, r);
  }

  class CronScheduler {
    const jobs: map<JobId, Job>
    const settings: Settings
    var state: State

    ghost predicate Valid()
      reads this
    {
      && jobs.Keys == state.rows.Keys
      && (forall j | j in jobs :: j > 0)  // uuid.Nil is the paging sentinel
      && (forall j | j in jobs && jobs[j].schedule.Some? :: ValidSchedule(jobs[j].schedule.value))
    }

    /** Run() forgets both cursors on start. */
    constructor (jobs: map<JobId, Job>, settings: Settings, rows: map<JobId, Rows>)
      requires jobs.Keys == rows.Keys
      requires forall j | j in jobs :: j > 0
      requires forall j | j in jobs && jobs[j].schedule.Some? :: ValidSchedule(jobs[j].schedule.value)
      ensures Valid() && state == State(None, false, rows) && this.jobs == jobs && this.settings == settings
    {
      this.jobs := jobs;
      this.settings := settings;
      state := State(None, false, rows);
    }

    /** The catch-up loop of one job. */
    method ProcessJob(j: JobId, env: Env) returns (r: JobResult)
      requires Valid() && j in jobs
      ensures JobStep(jobs, settings, state, env, j, r)
    {
      var rows := state.rows[j];
      var job := jobs[j];
      var latest := GetLastScheduledExecution(rows);
      var lookupFails := env.lookupFails(j);
      var start := WindowStart(job, state.lastTick, state.deferred, env.now, settings.tickInterval, lookupFails,
                               latest);
      ghost var insert := x => env.insert(j, x);
      if job.schedule.None? {
        return JobResult(rows, None, false, true);
      }
      var next := job.schedule.value;
      var cursor, i := start, 0;
      var t := next(start);
      ghost var spec := CatchUp(next, start, env.now, Cap(settings.maxFires), rows, insert);
      while i < Cap(settings.maxFires) && t.Some? && t.value <= env.now
        invariant 0 <= i <= Cap(settings.maxFires)
        invariant t == next(cursor)
        invariant spec == CatchUp(next, cursor, env.now, Cap(settings.maxFires) - i, rows, insert)
      {
        NextIsTheNextSlot(next, cursor);
        var scheduledAt := MinuteOf(t.value);
        var outcome := env.insert(j, scheduledAt);
        if outcome.StoredButReportedLost? {
          rows := WithRow(rows, scheduledAt);
        }
        if !outcome.Stored? {
          return JobResult(rows, Some(cursor), false, true);
        }
        rows := WithRow(rows, scheduledAt);
        cursor := scheduledAt;
        t := next(t.value);
        i := i + 1;
      }
      r := JobResult(rows, Some(cursor), t.Some? && t.value <= env.now, false);
    }

    /** Processes one job, stores its rows, and lowers the next cursor if the job holds it back. */
    method HandleJob(j: JobId, env: Env, cursor: int, ghost start: State, ghost results: map<JobId, JobResult>)
      returns (cursor': int, ghost results': map<JobId, JobResult>)
      requires Valid() && j in jobs && j !in results
      requires Progress(jobs, settings, start, state, env, results, cursor)
      modifies this
      ensures Valid() && Progress(jobs, settings, start, state, env, results', cursor')
      ensures results'.Keys == results.Keys + {j}
    {
      var r := ProcessJob(j, env);
      ProgressExtends(jobs, settings, start, state, env, results, cursor, j, r);
      results' := results[j := r];
      state := state.(rows := state.rows[j := r.rows]);
      cursor' := cursor;
      if HoldsBack(r) && r.cursor.value < cursor {
        cursor' := r.cursor.value;
      }
    }

    method ProcessPage(page: seq<JobId>, env: Env, cursor: int, ghost start: State,
                       ghost results: map<JobId, JobResult>)
      returns (cursor': int, ghost results': map<JobId, JobResult>)
      requires Valid() && Ascending(page, IdRank()) && Elements(page) <= jobs.Keys - results.Keys
      requires Progress(jobs, settings, start, state, env, results, cursor)
      modifies this
      ensures Valid() && Progress(jobs, settings, start, state, env, results', cursor')
      ensures results'.Keys == results.Keys + Elements(page)
    {
      cursor', results' := cursor, results;
      var i := 0;
      while i < |page|
        invariant 0 <= i <= |page| && Valid()
        invariant results'.Keys == results.Keys + Elements(page[..i])
        invariant Progress(jobs, settings, start, state, env, results', cursor')
      {
        NextOfPage(page, i, results.Keys);
        cursor', results' := HandleJob(page[i], env, cursor', start, results');
        i := i + 1;
      }
      assert page[..i] == page;
    }

    /** The next page of the keyset query; a short one is the last. */
    method NextPage(after: JobId, env: Env, cursor: int, ghost pageNumber: nat, ghost start: State,
                    ghost results: map<JobId, JobResult>)
      returns (cursor': int, more: bool, after': JobId, ghost results': map<JobId, JobResult>)
      requires Valid() && PagesRead(jobs.Keys, env, after, pageNumber, true, results.Keys) && !env.pageFails(pageNumber)
      requires Progress(jobs, settings, start, state, env, results, cursor)
      modifies this
      ensures Valid() && Progress(jobs, settings, start, state, env, results', cursor')
      ensures PagesRead(jobs.Keys, env, after', pageNumber + 1, more, results'.Keys)
      ensures more ==> JobsAfter(jobs.Keys, after') < JobsAfter(jobs.Keys, after)
    {
      var page := TakeFirst(JobsAfter(jobs.Keys, after), PAGE_SIZE, IdRank());
      more, after' := |page| >= PAGE_SIZE, after;
      if more {
        FullPageRead(jobs.Keys, env, after, pageNumber, results.Keys, page);
        after' := page[|page| - 1];
      } else {
        ShortPageRead(jobs.Keys, env, after, pageNumber, results.Keys, page);
      }
      cursor', results' := ProcessPage(page, env, cursor, start, results);
    }

    /** One tick. On a page error the cursor stays and the next tick recovers. */
    method ProcessTick(env: Env) returns (ok: bool, ghost results: map<JobId, JobResult>)
      requires Valid()
      modifies this
      ensures Valid()
      ensures TickStep(jobs, settings, old(state), state, env, results)
      ensures ok <==> AllPagesRead(jobs.Keys, env)
      ensures ok ==> results.Keys == jobs.Keys && state.lastTick.Some?
      ensures ok ==> NextCursor(env.now, results, state.lastTick.value)
      ensures !ok ==> state.lastTick == old(state).lastTick && state.deferred
      ensures !ok ==> PageFailed(jobs.Keys, env, results.Keys)
    {
      results := map[];
      var cursor := env.now;
      var after, pageNumber, more := 0, 0, true;
      assert state.rows == RowsAfter(state.rows, results);
      NothingToRead(jobs.Keys);
      while more
        invariant Valid() && PagesRead(jobs.Keys, env, after, pageNumber, more, results.Keys)
        invariant Progress(jobs, settings, old(state), state, env, results, cursor)
        decreases more, JobsAfter(jobs.Keys, after)
      {
        if env.pageFails(pageNumber) {
          PageFailsHere(jobs.Keys, env, after, pageNumber, results.Keys);
          state := state.(deferred := true);
          return false, results;
        }
        cursor, more, after, results := NextPage(after, env, cursor, pageNumber, old(state), results);
        pageNumber := pageNumber + 1;
      }
      LastPageRead(jobs.Keys, env, after, pageNumber, results.Keys);
      state := state.(lastTick := Some(cursor), deferred := cursor < env.now);
      ok := true;
    }
  }
}
