/**
  No slot is lost and catch-up converges, over every run of ticks, page
  errors, insert failures, caps, restarts, manual triggers and new jobs.
 */
module SchedulerSafety {
  import opened Options
  import opened Sets
  import opened Schedules
  import opened Scheduler

  // ---------- One job ----------

  /**
    From `low` on, slots up to the shared cursor have rows, and rows have no gap
    below them. `low` is the creation time, or the shared cursor if that had
    already passed it when the job became visible.
   */
  ghost predicate JobInv(job: Job, low: int, rows: Rows, lastTick: Option<int>) {
    job.schedule.Some? ==>
      && ValidSchedule(job.schedule.value)
      && (job.createdAt.Some? ==>
            && job.createdAt.value <= low
            && GapFree(job.schedule.value, rows, low)
            && (lastTick.Some? ==> Covered(job.schedule.value, rows, low, lastTick.value)))
  }

  /** Wherever a job resumes, everything before that point already has a row. */
  lemma WindowStartIsCovered(job: Job, low: int, rows: Rows, lastTick: Option<int>, deferred: bool, now: int,
                             tickInterval: int, lookupFails: bool, latest: Option<int>)
    requires JobInv(job, low, rows, lastTick) && job.schedule.Some? && job.createdAt.Some? && IsLatest(rows, latest)
    ensures Covered(job.schedule.value, rows, low,
                    WindowStart(job, lastTick, deferred, now, tickInterval, lookupFails, latest))
  {
  }

  /** Adding the next slot after a covered stretch extends the stretch and keeps the rows gap-free. */
  lemma NextRowExtends(next: Next, rows: Rows, created: int, cursor: int)
    requires ValidSchedule(next) && next(cursor).Some?
    requires GapFree(next, rows, created) && Covered(next, rows, created, cursor)
    ensures var x := next(cursor).value;
            GapFree(next, WithRow(rows, x), created) && Covered(next, WithRow(rows, x), created, x)
  {
    var x := next(cursor).value;
    var rows' := WithRow(rows, x);
    NextIsTheNextSlot(next, cursor);
    assert Covered(next, rows', created, x);
    forall y | y in rows' && rows'[y].Scheduled?
      ensures Covered(next, rows', created, y)
    {
      if y in rows {
        assert Covered(next, rows, created, y);
      }
    }
  }

  lemma NothingDueIsCovered(next: Next, rows: Rows, created: int, cursor: int, now: int)
    requires ValidSchedule(next) && Covered(next, rows, created, cursor)
    requires next(cursor).None? || next(cursor).value > now
    ensures Covered(next, rows, created, now)
  {
    NextIsTheNextSlot(next, cursor);
  }

  /** Rows are never removed or changed. */
  lemma {:induction false} CatchUpKeepsRows(next: Next, cursor: int, now: int, left: nat, rows: Rows,
                                            insert: int -> Insert, r: JobResult)
    requires r == CatchUp(next, cursor, now, left, rows, insert)
    ensures forall x | x in rows :: x in r.rows && r.rows[x] == rows[x]
    decreases left
  {
    var due := next(cursor);
    if due.Some? && due.value <= now && left > 0 {
      var rows' := WithRow(rows, due.value);
      assert forall x | x in rows :: x in rows' && rows'[x] == rows[x];
      if insert(due.value).Stored? {
        CatchUpKeepsRows(next, due.value, now, left - 1, rows', insert, r);
      }
    }
  }

  /**
    However the inserts turn out, the rows stay gap-free and cover everything up
    to the returned cursor; a job that does not hold back is covered up to now.
   */
  lemma {:induction false} CatchUpCovers(next: Next, cursor: int, now: int, left: nat, rows: Rows,
                                         insert: int -> Insert, created: int, r: JobResult)
    requires ValidSchedule(next) && GapFree(next, rows, created) && Covered(next, rows, created, cursor)
    requires r == CatchUp(next, cursor, now, left, rows, insert)
    ensures r.cursor.Some? && cursor <= r.cursor.value
    ensures GapFree(next, r.rows, created) && Covered(next, r.rows, created, r.cursor.value)
    ensures !HoldsBack(r) ==> Covered(next, r.rows, created, now)
    decreases left
  {
    if next(cursor).None? || next(cursor).value > now {
      NothingDueIsCovered(next, rows, created, cursor, now);
    } else if left > 0 {
      NextRowExtends(next, rows, created, cursor);
      var x := next(cursor).value;
      if insert(x).Stored? {
        CatchUpCovers(next, x, now, left - 1, WithRow(rows, x), insert, created, r);
      } else {
        assert r.cursor == Some(cursor) && (r.rows == rows || r.rows == WithRow(rows, x));
        CatchUpKeepsRows(next, cursor, now, left, rows, insert, r);
      }
    }
  }

  lemma JobStepKeeps(jobs: map<JobId, Job>, settings: Settings, s: State, env: Env, j: JobId, r: JobResult,
                     low: int, cursor: int)
    requires j in jobs && j in s.rows && JobStep(jobs, settings, s, env, j, r)
    requires JobInv(jobs[j], low, s.rows[j], s.lastTick)
    requires cursor <= env.now && (HoldsBack(r) ==> cursor <= r.cursor.value)
    ensures JobInv(jobs[j], low, r.rows, s.lastTick)
    ensures JobInv(jobs[j], low, r.rows, Some(cursor))
  {
    var job := jobs[j];
    if job.schedule.Some? && job.createdAt.Some? {
      var latest :| IsLatest(s.rows[j], latest) &&
                    r == JobRun(job, s.lastTick, s.deferred, env.now, settings.tickInterval, Cap(settings.maxFires),
                                env.lookupFails(j), latest, s.rows[j], x => env.insert(j, x));
      var start := WindowStart(job, s.lastTick, s.deferred, env.now, settings.tickInterval, env.lookupFails(j), latest);
      WindowStartIsCovered(job, low, s.rows[j], s.lastTick, s.deferred, env.now, settings.tickInterval,
                           env.lookupFails(j), latest);
      CatchUpCovers(job.schedule.value, start, env.now, Cap(settings.maxFires), s.rows[j], x => env.insert(j, x),
                    low, r);
    }
  }

  // ---------- Every run ----------

  /** `lows` remembers for each job from where on its slots are promised. */
  datatype World = World(jobs: map<JobId, Job>, lows: map<JobId, int>, state: State)

  /** The creation time, or the shared cursor where that is later. */
  function Low(job: Job, lastTick: Option<int>): int {
    var created := if job.createdAt.Some? then job.createdAt.value else 0;
    if lastTick.Some? && created < lastTick.value then lastTick.value else created
  }

  /** A job with a valid schedule becomes visible, whatever its creation time. */
  ghost predicate Creates(w: World, w': World, j: JobId, job: Job) {
    && j > 0 && j !in w.jobs && job.schedule.Some? && ValidSchedule(job.schedule.value)
    && w' == World(w.jobs[j := job], w.lows[j := Low(job, w.state.lastTick)],
                   w.state.(rows := w.state.rows[j := map[]]))
  }

  ghost predicate Triggers(w: World, w': World, j: JobId, at: int) {
    && j in w.jobs && j in w.state.rows && at !in w.state.rows[j]
    && w' == w.(state := w.state.(rows := w.state.rows[j := w.state.rows[j][at := Manual]]))
  }

  ghost predicate Ticks(settings: Settings, w: World, w': World) {
    && w'.jobs == w.jobs && w'.lows == w.lows
    && exists env, results :: TickStep(w.jobs, settings, w.state, w'.state, env, results)
  }

  ghost predicate Restarts(w: World, w': World) {
    w' == w.(state := State(None, false, w.state.rows))
  }

  ghost predicate WorldStep(settings: Settings, w: World, w': World) {
    || Ticks(settings, w, w')
    || Restarts(w, w')
    || (exists j, at :: Triggers(w, w', j, at))
    || (exists j, job :: Creates(w, w', j, job))
  }

  ghost predicate StepAt(settings: Settings, run: seq<World>, i: nat)
    requires i < |run| - 1
  {
    WorldStep(settings, run[i], run[i + 1])
  }

  ghost predicate Behavior(settings: Settings, run: seq<World>) {
    && run != [] && run[0] == World(map[], map[], State(None, false, map[]))
    && forall i | 0 <= i < |run| - 1 :: StepAt(settings, run, i)
  }

  ghost predicate Inv(w: World) {
    && w.jobs.Keys == w.state.rows.Keys == w.lows.Keys
    && forall j | j in w.jobs :: JobInv(w.jobs[j], w.lows[j], w.state.rows[j], w.state.lastTick)
  }

  lemma TickKeeps(settings: Settings, w: World, w': World)
    requires Inv(w) && Ticks(settings, w, w')
    ensures Inv(w')
  {
    var env, results :| TickStep(w.jobs, settings, w.state, w'.state, env, results);
    forall j | j in w'.jobs
      ensures JobInv(w'.jobs[j], w'.lows[j], w'.state.rows[j], w'.state.lastTick)
    {
      assert JobInv(w.jobs[j], w.lows[j], w.state.rows[j], w.state.lastTick);
      if j in results {
        var r := results[j];
        if results.Keys == w.jobs.Keys && w'.state.lastTick.Some?
           && NextCursor(env.now, results, w'.state.lastTick.value) {
          JobStepKeeps(w.jobs, settings, w.state, env, j, r, w.lows[j], w'.state.lastTick.value);
        } else {
          var cursor := if HoldsBack(r) && r.cursor.value < env.now then r.cursor.value else env.now;
          JobStepKeeps(w.jobs, settings, w.state, env, j, r, w.lows[j], cursor);
        }
      }
    }
  }

  lemma TriggerKeeps(w: World, w': World, j: JobId, at: int)
    requires Inv(w) && Triggers(w, w', j, at)
    ensures Inv(w')
  {
    forall k | k in w'.jobs
      ensures JobInv(w'.jobs[k], w'.lows[k], w'.state.rows[k], w'.state.lastTick)
    {
      assert JobInv(w.jobs[k], w.lows[k], w.state.rows[k], w.state.lastTick);
      if k == j && w.jobs[k].schedule.Some? && w.jobs[k].createdAt.Some? {
        var rows, rows' := w.state.rows[k], w'.state.rows[k];
        forall x | x in rows' && rows'[x].Scheduled?
          ensures Covered(w.jobs[k].schedule.value, rows', w.lows[k], x)
        {
          assert x in rows && rows[x].Scheduled?;
        }
      }
    }
  }

  lemma WorldStepKeeps(settings: Settings, w: World, w': World)
    requires Inv(w) && WorldStep(settings, w, w')
    ensures Inv(w')
  {
    if Ticks(settings, w, w') {
      TickKeeps(settings, w, w');
    } else if j, at :| Triggers(w, w', j, at) {
      TriggerKeeps(w, w', j, at);
    } else if j, job :| Creates(w, w', j, job) {
      forall k | k in w'.jobs
        ensures JobInv(w'.jobs[k], w'.lows[k], w'.state.rows[k], w'.state.lastTick)
      {
        assert k != j ==> JobInv(w.jobs[k], w.lows[k], w.state.rows[k], w.state.lastTick);
      }
    } else {
      assert Restarts(w, w');
      forall k | k in w'.jobs
        ensures JobInv(w'.jobs[k], w'.lows[k], w'.state.rows[k], w'.state.lastTick)
      {
        assert JobInv(w.jobs[k], w.lows[k], w.state.rows[k], w.state.lastTick);
      }
    }
  }

  lemma {:induction false} BehaviorKeepsInv(settings: Settings, run: seq<World>, i: nat)
    requires Behavior(settings, run) && i < |run|
    ensures Inv(run[i])
  {
    if i > 0 {
      BehaviorKeepsInv(settings, run, i - 1);
      assert StepAt(settings, run, i - 1);
      WorldStepKeeps(settings, run[i - 1], run[i]);
    }
  }

  /** Every slot after `from` up to the shared cursor has a row, and no scheduled row has a gap below it. */
  ghost predicate Whole(w: World, j: JobId, from: int)
    requires j in w.jobs && j in w.state.rows && w.jobs[j].schedule.Some?
  {
    var next := w.jobs[j].schedule.value;
    && GapFree(next, w.state.rows[j], from)
    && (w.state.lastTick.Some? ==> Covered(next, w.state.rows[j], from, w.state.lastTick.value))
  }

  /**
    At every point of every run, each job with a known creation time has lost no
    slot since it was created, or since the shared cursor at which it became
    visible if that is later.
   */
  lemma NoSlotIsLost(settings: Settings, run: seq<World>, i: nat, j: JobId)
    requires Behavior(settings, run) && i < |run| && j in run[i].jobs
    requires run[i].jobs[j].schedule.Some? && run[i].jobs[j].createdAt.Some?
    ensures j in run[i].state.rows && j in run[i].lows && Whole(run[i], j, run[i].lows[j])
  {
    BehaviorKeepsInv(settings, run, i);
    assert JobInv(run[i].jobs[j], run[i].lows[j], run[i].state.rows[j], run[i].state.lastTick);
  }

  // ---------- Jobs that become visible late ----------

  lemma JobStays(settings: Settings, w: World, w': World, j: JobId)
    requires Inv(w) && WorldStep(settings, w, w') && j in w.jobs
    ensures j in w'.jobs && w'.jobs[j] == w.jobs[j] && j in w'.lows && w'.lows[j] == w.lows[j]
  {
  }

  lemma JobStaysAt(settings: Settings, run: seq<World>, i: nat, j: JobId)
    requires Behavior(settings, run) && i < |run| - 1 && j in run[i].jobs && j in run[i].lows
    ensures j in run[i + 1].jobs && run[i + 1].jobs[j] == run[i].jobs[j]
    ensures j in run[i + 1].lows && run[i + 1].lows[j] == run[i].lows[j]
  {
    BehaviorKeepsInv(settings, run, i);
    assert StepAt(settings, run, i);
    JobStays(settings, run[i], run[i + 1], j);
  }

  /** A job keeps its settings and its `low` from the moment it becomes visible. */
  lemma {:induction false} JobsStay(settings: Settings, run: seq<World>, v: nat, i: nat, j: JobId)
    requires Behavior(settings, run) && v <= i < |run| && j in run[v].jobs && j in run[v].lows
    ensures j in run[i].jobs && run[i].jobs[j] == run[v].jobs[j] && j in run[i].lows && run[i].lows[j] == run[v].lows[j]
  {
    if v < i {
      JobsStay(settings, run, v, i - 1, j);
      JobStaysAt(settings, run, i - 1, j);
    }
  }

  /** Job j becomes visible at point v. */
  ghost predicate Appears(run: seq<World>, v: nat, j: JobId, job: Job) {
    0 < v < |run| && Creates(run[v - 1], run[v], j, job)
  }

  /**
    Nothing is lost since creation, at every point of a run, exactly when no slot
    lies between the creation time and the shared cursor at which the job became
    visible.
   */
  lemma WholeUnlessLate(settings: Settings, run: seq<World>, v: nat, j: JobId, job: Job)
    requires Behavior(settings, run) && Appears(run, v, j, job) && job.createdAt.Some?
    ensures forall i | v <= i < |run| :: j in run[i].jobs && run[i].jobs[j] == job && j in run[i].state.rows
    ensures (forall i | v <= i < |run| :: Whole(run[i], j, job.createdAt.value)) <==>
            (run[v].state.lastTick.Some? ==>
               forall x | job.createdAt.value < x <= run[v].state.lastTick.value :: !IsSlot(job.schedule.value, x))
  {
    forall i | v <= i < |run|
      ensures j in run[i].jobs && run[i].jobs[j] == job && j in run[i].state.rows
      ensures Whole(run[i], j, Low(job, run[v].state.lastTick))
    {
      BehaviorKeepsInv(settings, run, i);
      JobsStay(settings, run, v, i, j);
      NoSlotIsLost(settings, run, i, j);
    }
    var low := Low(job, run[v].state.lastTick);
    if forall x | job.createdAt.value < x <= low :: !IsSlot(job.schedule.value, x) {
      forall i | v <= i < |run|
        ensures Whole(run[i], j, job.createdAt.value)
      {
        assert Whole(run[i], j, low);
        forall x | x in run[i].state.rows[j] && run[i].state.rows[j][x].Scheduled?
          ensures Covered(job.schedule.value, run[i].state.rows[j], job.createdAt.value, x)
        {
          assert Covered(job.schedule.value, run[i].state.rows[j], low, x);
        }
      }
    } else {
      assert Whole(run[v], j, job.createdAt.value) ==> Covered(job.schedule.value, map[], job.createdAt.value, low);
    }
  }

  /** Ordinary ticks never look back: a slot missed at or before the cursor stays missing. */
  lemma OrdinaryTickNeverLooksBack(jobs: map<JobId, Job>, settings: Settings, s: State, env: Env, j: JobId,
                                   r: JobResult, x: int)
    requires j in jobs && j in s.rows && JobStep(jobs, settings, s, env, j, r)
    requires jobs[j].schedule.Some? && ValidSchedule(jobs[j].schedule.value)
    requires s.lastTick.Some? && !s.deferred && x <= s.lastTick.value
    ensures x in r.rows ==> x in s.rows[j]
  {
    var job := jobs[j];
    var latest :| IsLatest(s.rows[j], latest) &&
                  r == JobRun(job, s.lastTick, s.deferred, env.now, settings.tickInterval, Cap(settings.maxFires),
                              env.lookupFails(j), latest, s.rows[j], x => env.insert(j, x));
    var start := WindowStart(job, s.lastTick, s.deferred, env.now, settings.tickInterval, env.lookupFails(j), latest);
    CatchUpAddsOnlyDueSlots(job.schedule.value, start, env.now, Cap(settings.maxFires), s.rows[j],
                            x => env.insert(j, x), r);
  }

  /** From point v to point i every tick is ordinary, the cursor stays at or past x, and nobody triggers j at x. */
  ghost predicate OrdinaryBetween(run: seq<World>, v: nat, i: nat, j: JobId, x: int)
    requires v <= i < |run|
  {
    forall k | v <= k < i ::
      && run[k].state.lastTick.Some? && !run[k].state.deferred && x <= run[k].state.lastTick.value
      && !Triggers(run[k], run[k + 1], j, x)
  }

  lemma StepKeepsMissing(settings: Settings, w: World, w': World, j: JobId, x: int)
    requires Inv(w) && WorldStep(settings, w, w') && j in w.jobs && w.jobs[j].schedule.Some? && x !in w.state.rows[j]
    requires w.state.lastTick.Some? && !w.state.deferred && x <= w.state.lastTick.value && !Triggers(w, w', j, x)
    ensures j in w'.state.rows && x !in w'.state.rows[j]
  {
    assert JobInv(w.jobs[j], w.lows[j], w.state.rows[j], w.state.lastTick);
    if Ticks(settings, w, w') {
      var env, results :| TickStep(w.jobs, settings, w.state, w'.state, env, results);
      if j in results {
        OrdinaryTickNeverLooksBack(w.jobs, settings, w.state, env, j, results[j], x);
      }
    }
  }

  ghost predicate Lacks(w: World, j: JobId, x: int) {
    j in w.jobs && w.jobs[j].schedule.Some? && j in w.state.rows && x !in w.state.rows[j]
  }

  lemma RunStepKeepsMissing(settings: Settings, run: seq<World>, v: nat, n: nat, i: nat, j: JobId, x: int)
    requires Behavior(settings, run) && v < i <= n < |run| && Lacks(run[i - 1], j, x)
    requires OrdinaryBetween(run, v, n, j, x)
    ensures Lacks(run[i], j, x)
  {
    BehaviorKeepsInv(settings, run, i - 1);
    JobsStay(settings, run, i - 1, i, j);
    assert StepAt(settings, run, i - 1);
    StepKeepsMissing(settings, run[i - 1], run[i], j, x);
  }

  /** A slot that was missing when the cursor passed it is lost to every number of ordinary ticks. */
  lemma {:induction false} LateSlotStaysMissing(settings: Settings, run: seq<World>, v: nat, n: nat, i: nat, j: JobId,
                                                x: int)
    requires Behavior(settings, run) && v <= i <= n < |run| && Lacks(run[v], j, x) && OrdinaryBetween(run, v, n, j, x)
    ensures Lacks(run[i], j, x)
  {
    if v < i {
      LateSlotStaysMissing(settings, run, v, n, i - 1, j, x);
      RunStepKeepsMissing(settings, run, v, n, i, j, x);
    }
  }

  // ---------- A run that loses a slot ----------

  /** Two slots, at minute 1 and at minute 3. */
  function TwoSlots(): Next {
    (t: int) => if t < MINUTE then Some(MINUTE) else if t < 3 * MINUTE then Some(3 * MINUTE) else None
  }

  lemma TwoSlotsIsValid()
    ensures ValidSchedule(TwoSlots()) && IsSlot(TwoSlots(), MINUTE)
  {
    var next := TwoSlots();
    assert MINUTE % MINUTE == 0 && (3 * MINUTE) % MINUTE == 0;
    assert forall t: int :: next(t).Some? ==> next(t).value == MINUTE || next(t).value == 3 * MINUTE;
  }

  /** Nothing fails. */
  function CleanEnv(now: int): Env {
    Env(now, _ => false, _ => false, (_, _) => Stored)
  }

  function LateJob(created: int): Job {
    Job(Some(created), Some(TwoSlots()))
  }

  function LateWorld(created: int, minute: int, rows: Rows): World {
    World(map[1 := LateJob(created)], map[1 := Low(LateJob(created), Some(2 * MINUTE))],
          State(Some(minute * MINUTE), false, map[1 := rows]))
  }

  /**
    A tick at minute 2 without jobs, a job that becomes visible only then, and a
    tick at minute 3 that stores slot 3 and not slot 1.
   */
  function LateRun(created: int): seq<World> {
    [World(map[], map[], State(None, false, map[])), World(map[], map[], State(Some(2 * MINUTE), false, map[])),
     LateWorld(created, 2, map[]), LateWorld(created, 3, map[3 * MINUTE := Scheduled])]
  }

  lemma EmptyTick(settings: Settings, created: int)
    ensures WorldStep(settings, LateRun(created)[0], LateRun(created)[1])
  {
    var results: map<JobId, JobResult> := map[];
    assert TickStep(map[], settings, State(None, false, map[]), State(Some(2 * MINUTE), false, map[]),
                    CleanEnv(2 * MINUTE), results);
    assert Ticks(settings, LateRun(created)[0], LateRun(created)[1]);
  }

  lemma LateCreation(settings: Settings, created: int)
    ensures WorldStep(settings, LateRun(created)[1], LateRun(created)[2])
  {
    TwoSlotsIsValid();
    var w, job := LateRun(created)[1], LateJob(created);
    var low := Low(job, w.state.lastTick);
    assert w.jobs[1 := job] == map[1 := job] && w.lows[1 := low] == map[1 := low];
    assert Creates(w, LateRun(created)[2], 1, job);
  }

  lemma LateCatchUp(left: nat, insert: int -> Insert)
    requires left > 0 && insert(3 * MINUTE).Stored?
    ensures CatchUp(TwoSlots(), 2 * MINUTE, 3 * MINUTE, left, map[], insert)
            == JobResult(map[3 * MINUTE := Scheduled], Some(3 * MINUTE), false, false)
  {
    var rows := WithRow(map[], 3 * MINUTE);
    assert CatchUp(TwoSlots(), 3 * MINUTE, 3 * MINUTE, left - 1, rows, insert)
        == JobResult(rows, Some(3 * MINUTE), false, false);
  }

  lemma LateTick(settings: Settings, created: int)
    requires created <= 2 * MINUTE || created > 3 * MINUTE
    ensures WorldStep(settings, LateRun(created)[2], LateRun(created)[3])
  {
    var env := CleanEnv(3 * MINUTE);
    var w, w' := LateWorld(created, 2, map[]), LateWorld(created, 3, map[3 * MINUTE := Scheduled]);
    var r := JobResult(map[3 * MINUTE := Scheduled], Some(3 * MINUTE), false, false);
    LateCatchUp(Cap(settings.maxFires), x => env.insert(1, x));
    assert IsLatest(w.state.rows[1], None);
    assert JobStep(w.jobs, settings, w.state, env, 1, r);
    assert TickStep(w.jobs, settings, w.state, w'.state, env, map[1 := r]);
    assert Ticks(settings, w, w');
  }

  lemma LateRunIsABehavior(settings: Settings, created: int)
    requires created <= 2 * MINUTE || created > 3 * MINUTE
    ensures Behavior(settings, LateRun(created))
  {
    EmptyTick(settings, created);
    LateCreation(settings, created);
    LateTick(settings, created);
  }

  /** A job that becomes visible late can lose a slot: minute 1 has no row although the cursor is past it. */
  lemma LateJobLosesASlot(settings: Settings)
    ensures Behavior(settings, LateRun(0))
    ensures IsSlot(TwoSlots(), MINUTE) && LateRun(0)[3].state.lastTick == Some(3 * MINUTE)
    ensures MINUTE !in LateRun(0)[3].state.rows[1] && !Whole(LateRun(0)[3], 1, 0)
  {
    TwoSlotsIsValid();
    LateRunIsABehavior(settings, 0);
  }

  // ---------- Catch-up converges ----------

  /** Every scheduled row lies at or before the cursor. */
  ghost predicate Frontier(rows: Rows, cursor: int) {
    forall x | x in rows && rows[x].Scheduled? :: x <= cursor
  }

  /** A deferred or first tick with a working lookup resumes at or past the latest scheduled row. */
  lemma ResumesAtFrontier(job: Job, rows: Rows, lastTick: Option<int>, deferred: bool, now: int, tickInterval: int,
                          latest: Option<int>)
    requires IsLatest(rows, latest) && (lastTick.None? || deferred)
    ensures Frontier(rows, WindowStart(job, lastTick, deferred, now, tickInterval, false, latest))
  {
  }

  /** The first n slots after `lo` up to `hi`. */
  function FirstSlots(next: Next, lo: int, hi: int, n: nat): set<int>
    decreases n
  {
    if n == 0 || next(lo).None? || next(lo).value > hi then {}
    else {next(lo).value} + FirstSlots(next, next(lo).value, hi, n - 1)
  }

  lemma SlotsCount(next: Next, lo: int, hi: int)
    requires ValidSchedule(next)
    ensures |Slots(next, lo, hi)| ==
            if next(lo).Some? && next(lo).value <= hi then 1 + |Slots(next, next(lo).value, hi)| else 0
  {
    SlotsAfterNext(next, lo, hi);
    if next(lo).Some? && next(lo).value <= hi {
      assert next(lo).value !in Slots(next, next(lo).value, hi);
    } else {
      assert |Slots(next, lo, hi)| == 0;
    }
  }

  lemma {:induction false} FirstSlotsAreSlots(next: Next, lo: int, hi: int, n: nat)
    requires ValidSchedule(next)
    ensures FirstSlots(next, lo, hi, n) <= Slots(next, lo, hi)
    decreases n
  {
    SlotsAfterNext(next, lo, hi);
    if n > 0 && next(lo).Some? && next(lo).value <= hi {
      FirstSlotsAreSlots(next, next(lo).value, hi, n - 1);
    }
  }

  lemma NotAmongFirstSlots(next: Next, lo: int, hi: int, n: nat)
    requires ValidSchedule(next)
    ensures lo !in FirstSlots(next, lo, hi, n)
  {
    FirstSlotsAreSlots(next, lo, hi, n);
  }

  /** There are min(n, all) of them. */
  lemma {:induction false} FirstSlotsCount(next: Next, lo: int, hi: int, n: nat)
    requires ValidSchedule(next)
    ensures |FirstSlots(next, lo, hi, n)| == (if |Slots(next, lo, hi)| <= n then |Slots(next, lo, hi)| else n)
    decreases n
  {
    SlotsCount(next, lo, hi);
    if n > 0 && next(lo).Some? && next(lo).value <= hi {
      var x := next(lo).value;
      var rest := FirstSlots(next, x, hi, n - 1);
      FirstSlotsCount(next, x, hi, n - 1);
      NotAmongFirstSlots(next, x, hi, n - 1);
      OneMore(x, rest);
    }
  }

  /** No other slot comes before one of them. */
  lemma {:induction false} FirstSlotsComeFirst(next: Next, lo: int, hi: int, n: nat, x: int, y: int)
    requires ValidSchedule(next) && x in FirstSlots(next, lo, hi, n)
    requires y in Slots(next, lo, hi) && y !in FirstSlots(next, lo, hi, n)
    ensures x < y
    decreases n
  {
    SlotsAfterNext(next, lo, hi);
    if x != next(lo).value {
      FirstSlotsComeFirst(next, next(lo).value, hi, n - 1, x, y);
    }
  }

  /** With a working store the first `left` due slots get rows, and nothing else changes. */
  lemma {:induction false} CatchUpStores(next: Next, cursor: int, now: int, left: nat, rows: Rows,
                                         insert: int -> Insert, r: JobResult)
    requires forall x :: insert(x).Stored?
    requires r == CatchUp(next, cursor, now, left, rows, insert)
    ensures r.rows.Keys == rows.Keys + FirstSlots(next, cursor, now, left) && !r.failed && r.cursor.Some?
    decreases left
  {
    if next(cursor).Some? && next(cursor).value <= now && left > 0 {
      var x := next(cursor).value;
      assert insert(x).Stored?;
      assert WithRow(rows, x).Keys == rows.Keys + {x};
      CatchUpStores(next, x, now, left - 1, WithRow(rows, x), insert, r);
    }
  }

  /** It is capped exactly if more were due. */
  lemma {:induction false} CappedIffMoreDue(next: Next, cursor: int, now: int, left: nat, rows: Rows,
                                            insert: int -> Insert, r: JobResult)
    requires ValidSchedule(next) && forall x :: insert(x).Stored?
    requires r == CatchUp(next, cursor, now, left, rows, insert)
    ensures r.capped <==> |Slots(next, cursor, now)| > left
    decreases left
  {
    SlotsCount(next, cursor, now);
    if next(cursor).Some? && next(cursor).value <= now && left > 0 {
      var x := next(cursor).value;
      assert insert(x).Stored?;
      CappedIffMoreDue(next, x, now, left - 1, WithRow(rows, x), insert, r);
    }
  }

  lemma {:induction false} CatchUpAddsOnlyDueSlots(next: Next, cursor: int, now: int, left: nat, rows: Rows,
                                                   insert: int -> Insert, r: JobResult)
    requires ValidSchedule(next) && r == CatchUp(next, cursor, now, left, rows, insert)
    ensures forall x | x in r.rows && x !in rows :: cursor < x <= now && IsSlot(next, x)
    decreases left
  {
    NextIsTheNextSlot(next, cursor);
    if next(cursor).Some? && next(cursor).value <= now && left > 0 && insert(next(cursor).value).Stored? {
      var due := next(cursor).value;
      CatchUpAddsOnlyDueSlots(next, due, now, left - 1, WithRow(rows, due), insert, r);
    }
  }

  /** Where a job resumes in this tick; `latest` is what the last-scheduled query answers. */
  function Start(job: Job, settings: Settings, s: State, env: Env, latest: Option<int>): int {
    WindowStart(job, s.lastTick, s.deferred, env.now, settings.tickInterval, false, latest)
  }

  lemma LatestIsLast(rows: Rows, latest: Option<int>, x: int)
    requires IsLatest(rows, latest) && x in rows && rows[x].Scheduled?
    ensures latest.Some? && x <= latest.value
  {
  }

  lemma LatestIsUnique(rows: Rows, a: Option<int>, b: Option<int>)
    requires IsLatest(rows, a) && IsLatest(rows, b)
    ensures a == b
  {
    if a.Some? {
      LatestIsLast(rows, b, a.value);
    }
    if b.Some? {
      LatestIsLast(rows, a, b.value);
    }
  }

  /**
    In a deferred or first tick with a working store, wherever other jobs hold
    the shared cursor: a job resumes past all of its scheduled rows with nothing
    missing before that point, the first `cap` slots due from there get the rows
    they lack, nothing else changes, and the job holds the cursor back exactly
    if more than `cap` slots were due.
   */
  lemma CatchUpConverges(jobs: map<JobId, Job>, settings: Settings, s: State, env: Env, j: JobId, r: JobResult,
                         low: int, latest: Option<int>)
    requires j in jobs && j in s.rows && JobInv(jobs[j], low, s.rows[j], s.lastTick)
    requires JobStep(jobs, settings, s, env, j, r) && IsLatest(s.rows[j], latest)
    requires s.lastTick.None? || s.deferred
    requires !env.lookupFails(j) && forall x :: env.insert(j, x).Stored?
    requires jobs[j].schedule.Some? && jobs[j].createdAt.Some?
    ensures var next, cap := jobs[j].schedule.value, Cap(settings.maxFires);
            var start := Start(jobs[j], settings, s, env, latest);
            var first := FirstSlots(next, start, env.now, cap);
            && Frontier(s.rows[j], start) && Covered(next, s.rows[j], low, start)
            && r.rows.Keys == s.rows[j].Keys + first
            && (forall x | x in s.rows[j] :: r.rows[x] == s.rows[j][x])
            && (HoldsBack(r) <==> |Slots(next, start, env.now)| > cap)
  {
    var job := jobs[j];
    var rows, next := s.rows[j], job.schedule.value;
    var latest' :| IsLatest(rows, latest') &&
                   r == JobRun(job, s.lastTick, s.deferred, env.now, settings.tickInterval, Cap(settings.maxFires),
                               env.lookupFails(j), latest', rows, x => env.insert(j, x));
    LatestIsUnique(rows, latest, latest');
    var start := Start(job, settings, s, env, latest);
    ResumesAtFrontier(job, rows, s.lastTick, s.deferred, env.now, settings.tickInterval, latest);
    WindowStartIsCovered(job, low, rows, s.lastTick, s.deferred, env.now, settings.tickInterval, false, latest);
    CatchUpStores(next, start, env.now, Cap(settings.maxFires), rows, x => env.insert(j, x), r);
    CappedIffMoreDue(next, start, env.now, Cap(settings.maxFires), rows, x => env.insert(j, x), r);
    CatchUpKeepsRows(next, start, env.now, Cap(settings.maxFires), rows, x => env.insert(j, x), r);
  }

  /** Gains of a catch-up that processes `first` of `all` due slots. */
  lemma GainArithmetic(rows: set<int>, all: set<int>, first: set<int>, cap: nat)
    requires first <= all && |first| == (if |all| <= cap then |all| else cap)
    ensures |rows + first| == |rows| + |first - rows|
    ensures |all - (rows + first)| == |all - rows| - |first - rows|
    ensures |first - rows| == (if |all - rows| <= cap then |all - rows| else cap)
            <==> first !! rows || all <= rows + first
  {
    Partition(first, rows);
    assert first + rows == rows + first;
    Partition(all - rows, first);
    assert (all - rows) - first == all - (rows + first) && (all - rows) * first == first - rows;
    SubsetSize(first, all);
    SubsetSize(all - (rows + first), all - first);
    EmptyMeetAndRest(first, rows);
    EmptyMeetAndRest(all, rows + first);
  }

  /**
    What is added is min(cap, missing) exactly if none of the first `cap` due
    slots has a row yet, or no slot past them is missing. Only manual rows can
    be in the way.
   */
  ghost predicate Gains(next: Next, start: int, now: int, cap: nat, rows: Rows, rows': Rows) {
    var all, first := Slots(next, start, now), FirstSlots(next, start, now, cap);
    var missing, added := |all - rows.Keys|, |rows'| - |rows|;
    && |all - rows'.Keys| == missing - added
    && (added == (if missing <= cap then missing else cap) <==> first !! rows.Keys || all <= rows.Keys + first)
    && (forall x | x in first && x in rows :: rows[x].Manual?)
  }

  lemma StoringGains(next: Next, start: int, now: int, cap: nat, rows: Rows, rows': Rows)
    requires ValidSchedule(next) && Frontier(rows, start) && rows'.Keys == rows.Keys + FirstSlots(next, start, now, cap)
    ensures Gains(next, start, now, cap, rows, rows')
  {
    FirstSlotsAreSlots(next, start, now, cap);
    FirstSlotsCount(next, start, now, cap);
    GainArithmetic(rows.Keys, Slots(next, start, now), FirstSlots(next, start, now, cap), cap);
    assert |rows| == |rows.Keys| && |rows'| == |rows'.Keys|;
  }

  /**
    Such a tick adds exactly min(cap, missing) rows if and only if no manual row
    lies on one of the first `cap` due slots, or no slot past them is missing.
    The missing slots always shrink by what is added.
   */
  lemma CatchUpGains(jobs: map<JobId, Job>, settings: Settings, s: State, env: Env, j: JobId, r: JobResult,
                     low: int, latest: Option<int>)
    requires j in jobs && j in s.rows && JobInv(jobs[j], low, s.rows[j], s.lastTick)
    requires JobStep(jobs, settings, s, env, j, r) && IsLatest(s.rows[j], latest)
    requires s.lastTick.None? || s.deferred
    requires !env.lookupFails(j) && forall x :: env.insert(j, x).Stored?
    requires jobs[j].schedule.Some? && jobs[j].createdAt.Some?
    ensures Gains(jobs[j].schedule.value, Start(jobs[j], settings, s, env, latest), env.now, Cap(settings.maxFires),
                  s.rows[j], r.rows)
  {
    CatchUpConverges(jobs, settings, s, env, j, r, low, latest);
    StoringGains(jobs[j].schedule.value, Start(jobs[j], settings, s, env, latest), env.now, Cap(settings.maxFires),
                 s.rows[j], r.rows);
  }

  /** With a cap of one, a manual row on the first due slot keeps the second one from its row. */
  lemma ManualRowUsesUpTheCap(insert: int -> Insert, r: JobResult)
    requires forall x :: insert(x).Stored?
    requires r == CatchUp(TwoSlots(), 0, 3 * MINUTE, 1, map[MINUTE := Manual], insert)
    ensures r == JobResult(map[MINUTE := Manual], Some(MINUTE), true, false)
    ensures IsSlot(TwoSlots(), 3 * MINUTE) && 3 * MINUTE !in r.rows
  {
    var rows: Rows := map[MINUTE := Manual];
    assert insert(MINUTE).Stored? && WithRow(rows, MINUTE) == rows;
    assert CatchUp(TwoSlots(), MINUTE, 3 * MINUTE, 0, rows, insert) == JobResult(rows, Some(MINUTE), true, false);
  }
}
