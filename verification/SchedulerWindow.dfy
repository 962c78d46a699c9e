/**
  Where a tick starts looking: at the latest point before which a job needs
  nothing. No job fires for a slot before it was created, unless a tick's clock
  reads a time before that.
 */
module SchedulerWindow {
  import opened Options
  import opened Schedules
  import opened Scheduler
  import opened SchedulerSafety

  /** A point at or before which a tick at `now` has nothing to look for. */
  ghost predicate Behind(job: Job, lastTick: Option<int>, deferred: bool, now: int, tickInterval: int,
                         lookupFails: bool, latest: Option<int>, p: int)
  {
    || lastTick == Some(p)
    || (job.createdAt == Some(p) && p <= now)
    || (latest == Some(p) && !lookupFails && (lastTick.None? || deferred))
    || (lastTick.None? && (job.createdAt.None? || job.createdAt.value > now)
        && p == now - (if tickInterval > 0 then tickInterval else MINUTE))
  }

  /** A tick looks from the latest such point. */
  lemma WindowStartIsTheLatest(job: Job, lastTick: Option<int>, deferred: bool, now: int, tickInterval: int,
                               lookupFails: bool, latest: Option<int>, start: int)
    ensures start == WindowStart(job, lastTick, deferred, now, tickInterval, lookupFails, latest) <==>
            && Behind(job, lastTick, deferred, now, tickInterval, lookupFails, latest, start)
            && forall p | Behind(job, lastTick, deferred, now, tickInterval, lookupFails, latest, p) :: p <= start
  {
    var from := WindowStart(job, lastTick, deferred, now, tickInterval, lookupFails, latest);
    assert Behind(job, lastTick, deferred, now, tickInterval, lookupFails, latest, from);
  }

  /** The latest point at or before which this tick has nothing to look for. */
  ghost predicate StartsAt(job: Job, settings: Settings, s: State, env: Env, lookupFails: bool, latest: Option<int>,
                           start: int)
  {
    && Behind(job, s.lastTick, s.deferred, env.now, settings.tickInterval, lookupFails, latest, start)
    && forall p | Behind(job, s.lastTick, s.deferred, env.now, settings.tickInterval, lookupFails, latest, p) ::
         p <= start
  }

  /**
    Every tick with a working store, ordinary or recovering, whatever is known of
    the creation time: the first `cap` slots due after the starting point get the
    rows they lack, nothing else changes, and the job holds the cursor back
    exactly if more were due.
   */
  lemma EveryTickStores(jobs: map<JobId, Job>, settings: Settings, s: State, env: Env, j: JobId, r: JobResult,
                        latest: Option<int>, start: int)
    requires j in jobs && j in s.rows && JobStep(jobs, settings, s, env, j, r) && IsLatest(s.rows[j], latest)
    requires jobs[j].schedule.Some? && ValidSchedule(jobs[j].schedule.value)
    requires forall x :: env.insert(j, x).Stored?
    requires StartsAt(jobs[j], settings, s, env, env.lookupFails(j), latest, start)
    ensures var next, cap := jobs[j].schedule.value, if settings.maxFires <= 0 then 1000 else settings.maxFires;
            && r.rows.Keys == s.rows[j].Keys + FirstSlots(next, start, env.now, cap)
            && (forall x | x in s.rows[j] :: r.rows[x] == s.rows[j][x])
            && (HoldsBack(r) <==> |Slots(next, start, env.now)| > cap)
  {
    var job, rows, cap := jobs[j], s.rows[j], Cap(settings.maxFires);
    var latest' :| IsLatest(rows, latest') &&
                   r == JobRun(job, s.lastTick, s.deferred, env.now, settings.tickInterval, cap,
                               env.lookupFails(j), latest', rows, x => env.insert(j, x));
    LatestIsUnique(rows, latest, latest');
    WindowStartIsTheLatest(job, s.lastTick, s.deferred, env.now, settings.tickInterval, env.lookupFails(j), latest,
                           start);
    CatchUpStores(job.schedule.value, start, env.now, cap, rows, x => env.insert(j, x), r);
    CappedIffMoreDue(job.schedule.value, start, env.now, cap, rows, x => env.insert(j, x), r);
    CatchUpKeepsRows(job.schedule.value, start, env.now, cap, rows, x => env.insert(j, x), r);
  }

  // ---------- Nothing fires before it was created ----------

  lemma {:induction false} CatchUpAddsScheduledRows(next: Next, cursor: int, now: int, left: nat, rows: Rows,
                                                    insert: int -> Insert, r: JobResult)
    requires r == CatchUp(next, cursor, now, left, rows, insert)
    ensures forall x | x in r.rows && x !in rows :: r.rows[x].Scheduled?
    decreases left
  {
    var due := next(cursor);
    if due.Some? && due.value <= now && left > 0 && insert(due.value).Stored? {
      CatchUpAddsScheduledRows(next, due.value, now, left - 1, WithRow(rows, due.value), insert, r);
      CatchUpKeepsRows(next, due.value, now, left - 1, WithRow(rows, due.value), insert, r);
    }
  }

  /** A row added by a tick lies after the creation time exactly if the tick's clock has reached that time. */
  lemma AddedRowFollowsCreation(jobs: map<JobId, Job>, settings: Settings, s: State, env: Env, j: JobId, r: JobResult,
                                x: int)
    requires j in jobs && j in s.rows && JobStep(jobs, settings, s, env, j, r)
    requires jobs[j].schedule.Some? && ValidSchedule(jobs[j].schedule.value) && jobs[j].createdAt.Some?
    requires x in r.rows && x !in s.rows[j]
    ensures r.rows[x].Scheduled?
    ensures x > jobs[j].createdAt.value <==> jobs[j].createdAt.value <= env.now
  {
    var job, rows, cap := jobs[j], s.rows[j], Cap(settings.maxFires);
    var latest :| IsLatest(rows, latest) &&
                  r == JobRun(job, s.lastTick, s.deferred, env.now, settings.tickInterval, cap,
                              env.lookupFails(j), latest, rows, x => env.insert(j, x));
    var start := WindowStart(job, s.lastTick, s.deferred, env.now, settings.tickInterval, env.lookupFails(j), latest);
    CatchUpAddsOnlyDueSlots(job.schedule.value, start, env.now, cap, rows, x => env.insert(j, x), r);
    CatchUpAddsScheduledRows(job.schedule.value, start, env.now, cap, rows, x => env.insert(j, x), r);
  }

  lemma JobStepKeepsRows(jobs: map<JobId, Job>, settings: Settings, s: State, env: Env, j: JobId, r: JobResult)
    requires j in jobs && j in s.rows && JobStep(jobs, settings, s, env, j, r)
    ensures forall x | x in s.rows[j] :: x in r.rows && r.rows[x] == s.rows[j][x]
  {
    var job, rows, cap := jobs[j], s.rows[j], Cap(settings.maxFires);
    var latest :| IsLatest(rows, latest) &&
                  r == JobRun(job, s.lastTick, s.deferred, env.now, settings.tickInterval, cap,
                              env.lookupFails(j), latest, rows, x => env.insert(j, x));
    if job.schedule.Some? {
      var start := WindowStart(job, s.lastTick, s.deferred, env.now, settings.tickInterval, env.lookupFails(j), latest);
      CatchUpKeepsRows(job.schedule.value, start, env.now, cap, rows, x => env.insert(j, x), r);
    }
  }

  /** A tick whose clock reads a time before the job was created, and that stores a row for it all the same. */
  ghost predicate FiresEarly(settings: Settings, w: World, w': World, j: JobId) {
    && j in w.jobs && j in w.state.rows && w.jobs[j].createdAt.Some?
    && w'.jobs == w.jobs && exists env: Env, results: map<JobId, JobResult>, x: int ::
         && TickStep(w.jobs, settings, w.state, w'.state, env, results)
         && j in results && x in results[j].rows && x !in w.state.rows[j] && env.now < w.jobs[j].createdAt.value
  }

  /** No scheduled row of job j lies at or before its creation time. */
  ghost predicate FollowsCreation(w: World, j: JobId) {
    j in w.jobs && j in w.state.rows && w.jobs[j].createdAt.Some? ==>
      forall x | x in w.state.rows[j] && w.state.rows[j][x].Scheduled? :: x > w.jobs[j].createdAt.value
  }

  lemma TickFollowsCreation(settings: Settings, w: World, w': World, j: JobId)
    requires Inv(w) && Ticks(settings, w, w') && j in w.jobs && w.jobs[j].createdAt.Some? && w.jobs[j].schedule.Some?
    ensures FollowsCreation(w', j) ==> FollowsCreation(w, j)
    ensures FollowsCreation(w, j) && !FiresEarly(settings, w, w', j) ==> FollowsCreation(w', j)
  {
    var env: Env, results: map<JobId, JobResult> :| TickStep(w.jobs, settings, w.state, w'.state, env, results);
    assert JobInv(w.jobs[j], w.lows[j], w.state.rows[j], w.state.lastTick);
    if j in results {
      JobStepKeepsRows(w.jobs, settings, w.state, env, j, results[j]);
      forall x | x in results[j].rows && x !in w.state.rows[j]
        ensures x > w.jobs[j].createdAt.value <==> w.jobs[j].createdAt.value <= env.now
      {
        AddedRowFollowsCreation(w.jobs, settings, w.state, env, j, results[j], x);
      }
    }
  }

  lemma FiringEarlyShows(settings: Settings, w: World, w': World, j: JobId)
    requires Inv(w) && FiresEarly(settings, w, w', j) && w.jobs[j].schedule.Some?
    ensures !FollowsCreation(w', j)
  {
    var env: Env, results: map<JobId, JobResult>, x: int :|
      TickStep(w.jobs, settings, w.state, w'.state, env, results) &&
      j in results && x in results[j].rows && x !in w.state.rows[j] && env.now < w.jobs[j].createdAt.value;
    assert JobInv(w.jobs[j], w.lows[j], w.state.rows[j], w.state.lastTick);
    AddedRowFollowsCreation(w.jobs, settings, w.state, env, j, results[j], x);
  }

  lemma StepFollowsCreation(settings: Settings, w: World, w': World, j: JobId)
    requires Inv(w) && WorldStep(settings, w, w') && j in w.jobs && w.jobs[j].createdAt.Some?
    requires w.jobs[j].schedule.Some?
    ensures FollowsCreation(w', j) <==> FollowsCreation(w, j) && !FiresEarly(settings, w, w', j)
  {
    if FiresEarly(settings, w, w', j) {
      FiringEarlyShows(settings, w, w', j);
    } else if Ticks(settings, w, w') {
      TickFollowsCreation(settings, w, w', j);
    } else if k, at :| Triggers(w, w', k, at) {
      assert forall x | x in w.state.rows[j] :: x in w'.state.rows[j] && w'.state.rows[j][x] == w.state.rows[j][x];
    }
  }

  ghost predicate FiresEarlyAt(settings: Settings, run: seq<World>, k: nat, j: JobId)
    requires k < |run| - 1
  {
    FiresEarly(settings, run[k], run[k + 1], j)
  }

  /** No tick between points v and i stored a row for job j with a clock that read a time before its creation. */
  ghost predicate NeverEarly(settings: Settings, run: seq<World>, v: nat, i: nat, j: JobId)
    requires v <= i < |run|
  {
    forall k | v <= k < i :: !FiresEarlyAt(settings, run, k, j)
  }

  lemma NeverEarlyBefore(settings: Settings, run: seq<World>, v: nat, i: nat, j: JobId)
    requires v <= i < |run| - 1
    ensures NeverEarly(settings, run, v, i + 1, j) <==>
            NeverEarly(settings, run, v, i, j) && !FiresEarlyAt(settings, run, i, j)
  {
  }

  lemma RunStepFollowsCreation(settings: Settings, run: seq<World>, i: nat, j: JobId)
    requires Behavior(settings, run) && i < |run| - 1 && j in run[i].jobs && run[i].jobs[j].createdAt.Some?
    requires run[i].jobs[j].schedule.Some?
    ensures FollowsCreation(run[i + 1], j) <==> FollowsCreation(run[i], j) && !FiresEarlyAt(settings, run, i, j)
  {
    BehaviorKeepsInv(settings, run, i);
    assert StepAt(settings, run, i);
    StepFollowsCreation(settings, run[i], run[i + 1], j);
  }

  lemma {:induction false} FollowsCreationSince(settings: Settings, run: seq<World>, v: nat, i: nat, j: JobId)
    requires Behavior(settings, run) && v <= i < |run| && j in run[v].jobs && run[v].jobs[j].createdAt.Some?
    requires run[v].jobs[j].schedule.Some? && j in run[v].lows && FollowsCreation(run[v], j)
    ensures FollowsCreation(run[i], j) <==> NeverEarly(settings, run, v, i, j)
  {
    if v < i {
      FollowsCreationSince(settings, run, v, i - 1, j);
      JobsStay(settings, run, v, i - 1, j);
      RunStepFollowsCreation(settings, run, i - 1, j);
      NeverEarlyBefore(settings, run, v, i - 1, j);
    }
  }

  /**
    At every point of every run: all scheduled rows of a job lie after its
    creation, exactly if no tick so far stored a row for it with a clock that
    read a time before it.
   */
  lemma NothingFiresBeforeCreation(settings: Settings, run: seq<World>, v: nat, i: nat, j: JobId, job: Job)
    requires Behavior(settings, run) && Appears(run, v, j, job) && v <= i < |run| && job.createdAt.Some?
    ensures j in run[i].jobs && run[i].jobs[j] == job && j in run[i].state.rows
    ensures (forall x | x in run[i].state.rows[j] && run[i].state.rows[j][x].Scheduled? :: x > job.createdAt.value)
            <==> NeverEarly(settings, run, v, i, j)
  {
    BehaviorKeepsInv(settings, run, i);
    JobsStay(settings, run, v, i, j);
    FollowsCreationSince(settings, run, v, i, j);
  }

  /** A job created at minute 4 by its own clock gets the slot of minute 3 from a tick at minute 3. */
  lemma ClockBehindCreationFires(settings: Settings)
    ensures Behavior(settings, LateRun(4 * MINUTE)) && LateRun(4 * MINUTE)[3].jobs[1].createdAt == Some(4 * MINUTE)
    ensures LateRun(4 * MINUTE)[3].state.rows[1] == map[3 * MINUTE := Scheduled]
    ensures !FollowsCreation(LateRun(4 * MINUTE)[3], 1)
  {
    LateRunIsABehavior(settings, 4 * MINUTE);
    assert 3 * MINUTE in LateRun(4 * MINUTE)[3].state.rows[1];
  }
}
