/**
  Exactly what one run of the migration runner does, in terms of the tracked
  prefix, the objects present and the release: which migrations it records as
  baselined, which it executes, and how it ends.
 */
module MigrateRuns {
  import opened Options
  import opened Migrate
  import opened MigrateSafety

  /** Objects exist that the runner did not create. */
  ghost predicate HandMade(db: Db) {
    AnyBaselined(db) || (db.recorded == map[] && Probe(db, 1))
  }

  /** A present migration among k..n lies behind a missing one. */
  ghost predicate Holes(db: Db, all: seq<Migration>, k: nat, n: nat)
    requires k <= n <= |all|
  {
    exists i, j | k <= i < j < n :: !Probe(db, all[i].version) && Probe(db, all[j].version)
  }

  /** Among k..n a migration for an operator is missing. */
  ghost predicate NeedsOperator(db: Db, all: seq<Migration>, k: nat, n: nat)
    requires k <= n <= |all|
  {
    exists i | k <= i < n :: all[i].manual && !Probe(db, all[i].version)
  }

  /** From db to db' the migrations a..b were recorded as baselined, and b..c executed in order. */
  ghost predicate Moves(all: seq<Migration>, db: Db, db': Db, a: nat, b: nat, c: nat)
    requires a <= b <= c <= |all|
  {
    && |db'.executed| == |db.executed| + c - b && db.executed <= db'.executed
    && (forall i | b <= i < c ::
          db'.executed[|db.executed| + i - b] == Executed(all[i].version, all[i].manual, AnyBaselined(db) || a < b))
    && (AnyBaselined(db') <==> AnyBaselined(db) || a < b)
    && TracksPrefix(all, db', c)
    && (forall v | v in db.recorded :: v in db'.recorded && db'.recorded[v] == db.recorded[v])
    && (forall i | a <= i < c :: all[i].version in db'.recorded && (db'.recorded[all[i].version] <==> i < b))
    && db.present <= db'.present && (forall i | b <= i < c :: all[i].version in db'.present)
    && (forall v | v in db'.present && v !in db.present :: v in db'.recorded && !db'.recorded[v])
  }

  // ---------- The phases ----------

  lemma HolesSpoilThePrefix(db: Db, all: seq<Migration>, k: nat, n: nat)
    requires k <= n <= |all|
    ensures PresentPrefix(db, all[k..n]).None? <==> Holes(db, all, k, n)
  {
    var ms := all[k..n];
    assert forall i | k <= i < n :: all[i] == ms[i - k];
    var first := Leading(db, ms);
    if PresentPrefix(db, ms).None? {
      var j :| first <= j < |ms| && Probe(db, ms[j].version);
      assert !Probe(db, all[k + first].version) && Probe(db, all[k + j].version);
    }
  }

  lemma RecordPresentIsExact(db: Db, all: seq<Migration>, k: nat, n: nat, budget: nat, p: Phase)
    requires k <= n <= |all| && p == RecordPresent(db, all[k..n], budget)
    ensures p.outcome == Some(Inconsistent) <==> Holes(db, all, k, n)
    ensures p.outcome.Some? ==> p.count == 0 && p.db == db && (p.outcome.value.Inconsistent? || budget == 0)
    ensures p.outcome.None? ==> p.budget >= budget - 1 && p.db == Baselined(db, all[k..k + p.count])
    ensures p.outcome.None? ==> forall i | k <= i < n :: Probe(db, all[i].version) <==> i < k + p.count
  {
    HolesSpoilThePrefix(db, all, k, n);
    var ms := all[k..n];
    var prefix := PresentPrefix(db, ms);
    if prefix.Some? {
      PresentPrefixIsExact(db, ms, prefix.value);
      assert forall i | k <= i < n :: all[i] == ms[i - k];
    }
    assert Baselined(db, ms[..0]) == db;
    SliceOfSlice(all, k, n, p.count);
  }

  lemma BaselinedMoves(all: seq<Migration>, db: Db, a: nat, b: nat)
    requires Shipped(all) && TracksPrefix(all, db, a) && a <= b <= |all|
    ensures Moves(all, db, Baselined(db, all[a..b]), a, b, b)
  {
    BaselineTracks(all, db.recorded, a, b);
    BaselineFlags(all, db.recorded, a, b);
    var db' := Baselined(db, all[a..b]);
    forall i | a <= i < b
      ensures all[i].version in db'.recorded && db'.recorded[all[i].version]
    {
      TrackedIndex(all, b, i);
    }
    if AnyBaselined(db') && a == b {
      assert db' == db;
    }
    if a < b {
      assert db'.recorded[all[a].version];
    }
  }

  lemma NothingMoves(all: seq<Migration>, db: Db, k: nat)
    requires Shipped(all) && TracksPrefix(all, db, k)
    ensures Moves(all, db, db, k, k, k)
  {
    BaselinedMoves(all, db, k, k);
    assert Baselined(db, all[k..k]) == db;
  }

  lemma {:induction false} BaselineFlags(all: seq<Migration>, recorded: map<nat, bool>, a: nat, b: nat)
    requires Shipped(all) && a <= b <= |all|
    ensures forall i | a <= i < b ::
              all[i].version in WithBaselined(recorded, all[a..b]) && WithBaselined(recorded, all[a..b])[all[i].version]
  {
    if a < b {
      BaselineFlags(all, recorded, a, b - 1);
      assert all[a..b][..b - 1 - a] == all[a..b - 1];
    }
  }

  lemma AppliedMoves(all: seq<Migration>, db: Db, a: nat)
    requires Shipped(all) && TracksPrefix(all, db, a) && a < |all|
    ensures Moves(all, db, Applied(db, all[a]), a, a, a + 1)
  {
    ApplyTracks(all, db, a);
  }

  lemma MovesCompose(all: seq<Migration>, db: Db, mid: Db, db': Db, a: nat, b: nat, c: nat, d: nat)
    requires Shipped(all) && a <= b <= c <= d <= |all| && TracksPrefix(all, db, a)
    requires Moves(all, db, mid, a, b, c) && Moves(all, mid, db', c, c, d)
    ensures Moves(all, db, db', a, b, d)
  {
    forall i | b <= i < d
      ensures db'.executed[|db.executed| + i - b]
              == Executed(all[i].version, all[i].manual, AnyBaselined(db) || a < b)
    {
      if i < c {
        assert db'.executed[|db.executed| + i - b] == mid.executed[|db.executed| + i - b];
      } else {
        assert |db.executed| + i - b == |mid.executed| + i - c;
      }
    }
  }

  /** Pending migrations are executed in order until the transactions run out. */
  lemma {:induction false} ApplyAllMoves(all: seq<Migration>, db: Db, a: nat, n: nat, budget: nat) returns (c: nat)
    requires Shipped(all) && TracksPrefix(all, db, a) && a <= n <= |all|
    ensures c == (if n - a <= budget then n else a + budget)
    ensures Moves(all, db, ApplyAll(db, all[a..n], budget).0, a, a, c)
    ensures ApplyAll(db, all[a..n], budget).1 <==> n - a <= budget
    decreases n - a
  {
    c := a;
    if a < n && budget > 0 {
      assert all[a..n][0] == all[a] && all[a..n][1..] == all[a + 1..n];
      AppliedMoves(all, db, a);
      c := ApplyAllMoves(all, Applied(db, all[a]), a + 1, n, budget - 1);
      StepThenMoves(all, db, Applied(db, all[a]), ApplyAll(db, all[a..n], budget).0, a, c);
    }
  }

  lemma StepThenMoves(all: seq<Migration>, db: Db, mid: Db, db': Db, a: nat, c: nat)
    requires Shipped(all) && a < c <= |all| && TracksPrefix(all, db, a)
    requires Moves(all, db, mid, a, a, a + 1) && Moves(all, mid, db', a + 1, a + 1, c)
    ensures Moves(all, db, db', a, a, c)
  {
    MovesCompose(all, db, mid, db', a, a, a + 1, c);
  }

  // ---------- The whole run ----------

  /**
    A run over the release all[..n] with the first k tracked records k..b and
    executes b..c, where on a hand-made database what is recorded was present
    and nothing present is executed.
   */
  ghost predicate Ends(all: seq<Migration>, db: Db, k: nat, n: nat, b: nat, c: nat, outcome: Outcome)
    requires k <= b <= c <= |all| && n <= |all|
  {
    && (n <= k ==> b == c == k) && (k <= n ==> c <= n)
    && (forall i | k <= i < b :: HandMade(db) && Probe(db, all[i].version))
    && (b < c && HandMade(db) ==> forall i | b <= i < n :: !Probe(db, all[i].version) && !all[i].manual)
    && (outcome.Done? ==> n <= c && outcome.applied == all[b..c])
    && (outcome.ManualRequired? ==> HandMade(db) && b == c)
    && (outcome.Inconsistent? ==> HandMade(db) && b == c == k)
  }

  lemma ApplyPhaseEnds(all: seq<Migration>, db: Db, k: nat, n: nat, budget: nat) returns (c: nat)
    requires Shipped(all) && TracksPrefix(all, db, k) && k <= n <= |all|
    ensures k <= c <= n && Moves(all, db, ApplyPhase(db, all[k..n], budget).0, k, k, c)
    ensures ApplyPhase(db, all[k..n], budget).1 == if n - k <= budget then Done(all[k..n]) else Interrupted
    ensures n - k <= budget ==> c == n
  {
    c := ApplyAllMoves(all, db, k, n, budget);
  }

  /** After the present ones were recorded. */
  lemma RestEnds(all: seq<Migration>, db: Db, k: nat, b: nat, n: nat, phase: Phase, db': Db, outcome: Outcome)
    returns (c: nat)
    requires Shipped(all) && TracksPrefix(all, db, k) && k <= b <= n <= |all| && HandMade(db)
    requires phase.outcome.None? && phase.db == Baselined(db, all[k..b])
    requires forall i | k <= i < n :: Probe(db, all[i].version) <==> i < b
    requires (db', outcome) == RestPhase(phase, all[b..n])
    ensures b <= c <= n && Moves(all, db, db', k, b, c) && Ends(all, db, k, n, b, c, outcome)
    ensures outcome.ManualRequired? <==> NeedsOperator(db, all, k, n)
    ensures outcome.Interrupted? ==> phase.budget < n - b
    ensures !outcome.Inconsistent?
  {
    c := b;
    BaselinedMoves(all, db, k, b);
    if m :| m in all[b..n] && m.manual {
      var i :| b <= i < n && all[i] == m;
      assert all[i].manual && !Probe(db, all[i].version);
    } else {
      assert forall i | b <= i < n :: all[i] in all[b..n];
      c := ApplyPhaseEnds(all, phase.db, b, n, phase.budget);
      MovesCompose(all, db, phase.db, db', k, b, b, c);
    }
  }

  /** The part of a run after a hand-made database was recognised. */
  lemma HandMadeRest(all: seq<Migration>, db: Db, k: nat, n: nat, budget: nat, phase: Phase, db': Db, outcome: Outcome)
    returns (b: nat, c: nat)
    requires Shipped(all) && TracksPrefix(all, db, k) && k <= n <= |all| && HandMade(db)
    requires phase == RecordPresent(db, all[k..n], budget)
    requires (db', outcome) == RestPhase(phase, all[k..n][phase.count..])
    ensures k <= b <= c <= n && Moves(all, db, db', k, b, c) && Ends(all, db, k, n, b, c, outcome)
    ensures outcome.Inconsistent? <==> Holes(db, all, k, n)
    ensures phase.outcome.None? ==> (outcome.ManualRequired? <==> NeedsOperator(db, all, k, n))
    ensures outcome.Interrupted? ==> budget <= n - k
  {
    RecordPresentIsExact(db, all, k, n, budget, phase);
    b := k + phase.count;
    c := b;
    if phase.outcome.None? {
      SliceOfSlice(all, k, n, phase.count);
      c := RestEnds(all, db, k, b, n, phase, db', outcome);
      assert !Holes(db, all, k, n);
    } else {
      assert (db', outcome) == (db, phase.outcome.value);
      NothingMoves(all, db, k);
    }
  }

  /** Nothing goes wrong on the way. */
  predicate Clean(faults: Faults, n: nat) {
    !faults.firstProbes && !faults.secondProbes && faults.budget > n
  }

  /** How a clean run ends depends on what is present and what needs an operator. */
  ghost predicate CleanEnd(all: seq<Migration>, db: Db, k: nat, n: nat, outcome: Outcome)
    requires k <= n <= |all|
  {
    && (outcome.Inconsistent? <==> HandMade(db) && Holes(db, all, k, n))
    && (outcome.ManualRequired? <==> HandMade(db) && !Holes(db, all, k, n) && NeedsOperator(db, all, k, n))
    && !outcome.Interrupted?
  }

  /** With some migrations tracked, a run goes straight to what is pending. */
  lemma TrackedRun(all: seq<Migration>, db: Db, k: nat, n: nat, faults: Faults, db': Db, outcome: Outcome)
    returns (b: nat, c: nat)
    requires Shipped(all) && TracksPrefix(all, db, k) && k <= n <= |all|
    requires HandMade(db) ==> AnyBaselined(db) || k == n
    requires (db', outcome) == PendingPhase(db, all[k..n], faults, faults.budget)
    ensures k <= b <= c <= n && Moves(all, db, db', k, b, c) && Ends(all, db, k, n, b, c, outcome)
    ensures Clean(faults, n) ==> CleanEnd(all, db, k, n, outcome)
  {
    b, c := k, k;
    if !AnyBaselined(db) {
      c := ApplyPhaseEnds(all, db, k, n, faults.budget);
    } else if faults.secondProbes {
      NothingMoves(all, db, k);
    } else {
      var phase := RecordPresent(db, all[k..n], faults.budget);
      RecordPresentIsExact(db, all, k, n, faults.budget, phase);
      b, c := HandMadeRest(all, db, k, n, faults.budget, phase, db', outcome);
    }
  }

  /** The second round of probes finds nothing more on a database that was just recorded. */
  lemma NothingMorePresent(all: seq<Migration>, db: Db, b: nat, n: nat, budget: nat)
    requires b <= n <= |all| && forall i | b <= i < n :: !Probe(db, all[i].version)
    ensures RecordPresent(db, all[b..n], budget) == Phase(db, budget, 0, None)
  {
    assert PresentPrefix(db, all[b..n]) == Some(0) by {
      PresentPrefixIsExact(db, all[b..n], 0);
    }
  }

  /** With none tracked but the jobs table there, the present ones are recorded first. */
  lemma UntrackedRun(all: seq<Migration>, db: Db, n: nat, faults: Faults, phase: Phase, db': Db, outcome: Outcome)
    returns (b: nat, c: nat)
    requires Shipped(all) && TracksPrefix(all, db, 0) && 0 < n <= |all| && db.recorded == map[] && Probe(db, 1)
    requires phase == RecordPresent(db, all[..n], faults.budget) && phase.outcome.None?
    requires (db', outcome) == PendingPhase(phase.db, all[phase.count..n], faults, phase.budget)
    ensures b <= c <= n && Moves(all, db, db', 0, b, c) && Ends(all, db, 0, n, b, c, outcome)
    ensures Clean(faults, n) ==> CleanEnd(all, db, 0, n, outcome)
  {
    assert all[..n] == all[0..n];
    RecordPresentIsExact(db, all, 0, n, faults.budget, phase);
    b := phase.count;
    c := b;
    assert Probe(db, all[0].version);
    BaselinedMoves(all, db, 0, b);
    if !faults.secondProbes {
      NothingMorePresent(all, phase.db, b, n, phase.budget);
      assert all[b..n][0..] == all[b..n];
      c := RestEnds(all, db, 0, b, n, phase, db', outcome);
    }
  }

  lemma FirstRun(all: seq<Migration>, db: Db, n: nat, faults: Faults, db': Db, outcome: Outcome)
    returns (b: nat, c: nat)
    requires Shipped(all) && TracksPrefix(all, db, 0) && 0 < n <= |all| && db.recorded == map[] && Probe(db, 1)
    requires !faults.firstProbes && (db', outcome) == RunStep(db, all[..n], faults)
    ensures b <= c <= n && Moves(all, db, db', 0, b, c) && Ends(all, db, 0, n, b, c, outcome)
    ensures Clean(faults, n) ==> CleanEnd(all, db, 0, n, outcome)
  {
    var phase := RecordPresent(db, all[..n], faults.budget);
    assert all[..n] == all[0..n];
    RecordPresentIsExact(db, all, 0, n, faults.budget, phase);
    if phase.outcome.Some? {
      b, c := 0, 0;
      NothingMoves(all, db, 0);
    } else {
      BaselinedMoves(all, db, 0, phase.count);
      PendingIsTheRest(all, phase.db, phase.count, n);
      b, c := UntrackedRun(all, db, n, faults, phase, db', outcome);
    }
  }

  /**
    Every run with the first k migrations tracked, whatever fails: it records
    k..b as baselined and executes b..c. On a hand-made database the recorded
    ones were present and no present one is executed; elsewhere none is recorded.
    A run in which nothing fails ends as what is present demands.
   */
  lemma RunIsExact(all: seq<Migration>, db: Db, k: nat, n: nat, faults: Faults, db': Db, outcome: Outcome)
    returns (b: nat, c: nat)
    requires Shipped(all) && TracksPrefix(all, db, k) && n <= |all| && (db', outcome) == RunStep(db, all[..n], faults)
    ensures k <= b <= c <= |all| && Moves(all, db, db', k, b, c) && Ends(all, db, k, n, b, c, outcome)
    ensures Clean(faults, n) && k <= n ==> CleanEnd(all, db, k, n, outcome)
  {
    b, c := k, k;
    EmptyTracksNothing(all, db, k);
    if db.recorded == map[] && faults.firstProbes {
      NothingMoves(all, db, k);
    } else if db.recorded != map[] || !Probe(db, 1) || n == 0 {
      assert BaselinePhase(db, all[..n], faults) == Phase(db, faults.budget, 0, None);
      PendingIsTheRest(all, db, k, n);
      b, c := TrackedRun(all, db, k, if k <= n then n else k, faults, db', outcome);
    } else {
      b, c := FirstRun(all, db, n, faults, db', outcome);
    }
  }

  /** After any history, a run on a hand-made database executes nothing that was present and has a probe. */
  lemma PresentIsNeverExecuted(all: seq<Migration>, db: Db, events: seq<Event>, n: nat, faults: Faults)
    requires Shipped(all) && db.recorded == map[] && db.executed == [] && n <= |all|
    requires var before := History(all, db, events);
             AnyBaselined(before) || (before.recorded == map[] && 1 in before.present)
    ensures var before := History(all, db, events);
            var executed := RunStep(before, all[..n], faults).0.executed;
            && before.executed <= executed
            && forall i | |before.executed| <= i < |executed| ::
                 && !executed[i].manual
                 && (executed[i].version in before.present ==> executed[i].version > 12)
  {
    var before := History(all, db, events);
    var (after, outcome) := RunStep(before, all[..n], faults);
    var k := HistoryKeeps(all, db, events);
    var b, c := RunIsExact(all, before, k, n, faults, after, outcome);
    assert HandMade(before);
    forall i | |before.executed| <= i < |after.executed|
      ensures !Probe(before, after.executed[i].version) && !after.executed[i].manual && after.executed[i].version >= 1
    {
      var m := all[b + i - |before.executed|];
      assert after.executed[i].version == m.version && m.version >= 1;
    }
  }
}
