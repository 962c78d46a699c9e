/** Safety of the migration runner over every history of runs and operator actions. */
module MigrateSafety {
  import opened Options
  import opened Migrate

  /** The shipped list: versions strictly increase, starting at 1. Releases only append to it. */
  ghost predicate Shipped(all: seq<Migration>) {
    && all != [] && all[0].version == 1
    && forall i, j | 0 <= i < j < |all| :: all[i].version < all[j].version
  }

  /** The versions of the first k migrations. */
  function Tracked(all: seq<Migration>, k: nat): set<nat>
    requires k <= |all|
  {
    if k == 0 then {} else Tracked(all, k - 1) + {all[k - 1].version}
  }

  /** The tracking table holds exactly the first k migrations. */
  ghost predicate TracksPrefix(all: seq<Migration>, db: Db, k: nat) {
    k <= |all| && db.recorded.Keys == Tracked(all, k)
  }

  /**
    Runner executions: each version at most once, tracked and not baselined,
    and never a manual one while a baselined row exists.
   */
  ghost predicate ExecutionsInv(db: Db) {
    && (forall i, j | 0 <= i < j < |db.executed| :: db.executed[i].version != db.executed[j].version)
    && (forall i | 0 <= i < |db.executed| :: ExecutedSoundly(db, db.executed[i]))
  }

  predicate ExecutedSoundly(db: Db, e: Executed) {
    e.version in db.recorded && !db.recorded[e.version] && (e.onBaselined ==> !e.manual)
  }

  ghost predicate Inv(all: seq<Migration>, db: Db, k: nat) {
    TracksPrefix(all, db, k) && ExecutionsInv(db)
  }

  // ---------- Tracking stays a prefix ----------

  lemma {:induction false} TrackedIndex(all: seq<Migration>, k: nat, i: nat)
    requires Shipped(all) && k <= |all| && i < |all|
    ensures all[i].version in Tracked(all, k) <==> i < k
  {
    if k > 0 {
      TrackedIndex(all, k - 1, i);
    }
  }

  lemma {:induction false} TrackedCount(all: seq<Migration>, k: nat)
    requires Shipped(all) && k <= |all|
    ensures |Tracked(all, k)| == k
  {
    if k > 0 {
      TrackedCount(all, k - 1);
      TrackedIndex(all, k - 1, k - 1);
    }
  }

  lemma EmptyTracksNothing(all: seq<Migration>, db: Db, k: nat)
    requires Shipped(all) && TracksPrefix(all, db, k)
    ensures |db.recorded| == k && (db.recorded == map[] <==> k == 0)
  {
    TrackedCount(all, k);
    assert |db.recorded| == |db.recorded.Keys|;
  }

  /** With a prefix tracked, what is pending of a shorter or longer list is just the rest of it. */
  lemma {:induction false} PendingIsTheRest(all: seq<Migration>, db: Db, k: nat, n: nat)
    requires Shipped(all) && TracksPrefix(all, db, k) && n <= |all|
    ensures Pending(db, all[..n]) == all[k..if k <= n then n else k]
  {
    if n > 0 {
      PendingIsTheRest(all, db, k, n - 1);
      TrackedIndex(all, k, n - 1);
      var rest := Pending(db, all[..n - 1]);
      assert Pending(db, all[..n]) == (if n - 1 < k then rest else rest + [all[n - 1]]) by {
        assert all[..n][..n - 1] == all[..n - 1];
      }
      if k < n {
        assert all[k..n] == all[k..n - 1] + [all[n - 1]];
      }
    }
  }

  lemma {:induction false} BaselineTracks(all: seq<Migration>, recorded: map<nat, bool>, k: nat, n: nat)
    requires Shipped(all) && k <= n <= |all| && recorded.Keys == Tracked(all, k)
    ensures WithBaselined(recorded, all[k..n]).Keys == Tracked(all, n)
    ensures forall v | v in recorded ::
              v in WithBaselined(recorded, all[k..n]) && WithBaselined(recorded, all[k..n])[v] == recorded[v]
  {
    if k < n {
      BaselineTracks(all, recorded, k, n - 1);
      assert all[k..n][..n - 1 - k] == all[k..n - 1];
      TrackedIndex(all, k, n - 1);
    }
  }

  lemma BaselineKeeps(all: seq<Migration>, db: Db, k: nat, n: nat)
    requires Shipped(all) && Inv(all, db, k) && k <= n <= |all|
    ensures Inv(all, Baselined(db, all[k..n]), n)
  {
    BaselineTracks(all, db.recorded, k, n);
    var db' := Baselined(db, all[k..n]);
    forall i | 0 <= i < |db'.executed|
      ensures ExecutedSoundly(db', db'.executed[i])
    {
      assert ExecutedSoundly(db, db.executed[i]);
    }
  }

  lemma ApplyTracks(all: seq<Migration>, db: Db, k: nat)
    requires Shipped(all) && TracksPrefix(all, db, k) && k < |all|
    ensures TracksPrefix(all, Applied(db, all[k]), k + 1) && all[k].version !in db.recorded
    ensures AnyBaselined(Applied(db, all[k])) <==> AnyBaselined(db)
  {
    TrackedIndex(all, k, k);
    var db' := Applied(db, all[k]);
    assert forall v | v in db.recorded :: v in db'.recorded && db'.recorded[v] == db.recorded[v];
  }

  lemma ApplyKeeps(all: seq<Migration>, db: Db, k: nat)
    requires Shipped(all) && Inv(all, db, k) && k < |all|
    requires AnyBaselined(db) ==> !all[k].manual
    ensures Inv(all, Applied(db, all[k]), k + 1)
    ensures AnyBaselined(Applied(db, all[k])) <==> AnyBaselined(db)
  {
    ApplyTracks(all, db, k);
    var db' := Applied(db, all[k]);
    forall i | 0 <= i < |db'.executed|
      ensures ExecutedSoundly(db', db'.executed[i])
      ensures i < |db.executed| ==> db'.executed[i].version != all[k].version
    {
      if i < |db.executed| {
        assert ExecutedSoundly(db, db.executed[i]);
      }
    }
  }

  lemma {:induction false} ApplyAllKeeps(all: seq<Migration>, db: Db, k: nat, n: nat, budget: nat) returns (k': nat)
    requires Shipped(all) && Inv(all, db, k) && k <= n <= |all|
    requires AnyBaselined(db) ==> forall m | m in all[k..n] :: !m.manual
    ensures var (db', ok) := ApplyAll(db, all[k..n], budget);
            k <= k' <= n && Inv(all, db', k') && (ok <==> k' == n)
    decreases n - k
  {
    k' := k;
    if k < n && budget > 0 {
      assert all[k..n][0] == all[k] && all[k..n][1..] == all[k + 1..n];
      ApplyKeeps(all, db, k);
      assert forall m | m in all[k + 1..n] :: m in all[k..n];
      k' := ApplyAllKeeps(all, Applied(db, all[k]), k + 1, n, budget - 1);
    }
  }

  lemma SliceOfSlice(all: seq<Migration>, k: nat, n: nat, count: nat)
    requires k + count <= n <= |all|
    ensures all[k..n][..count] == all[k..k + count] && all[k..n][count..] == all[k + count..n]
  {
  }

  /** Baselining any leading part of what is pending. */
  lemma RecordPresentKeeps(all: seq<Migration>, db: Db, k: nat, n: nat, phase: Phase)
    requires Shipped(all) && Inv(all, db, k) && k <= n <= |all|
    requires k + phase.count <= n && phase.db == Baselined(db, all[k..n][..phase.count])
    ensures Inv(all, phase.db, k + phase.count) && phase.db.executed == db.executed
  {
    SliceOfSlice(all, k, n, phase.count);
    BaselineKeeps(all, db, k, k + phase.count);
  }

  lemma ApplyPhaseKeeps(all: seq<Migration>, db: Db, k: nat, n: nat, budget: nat) returns (k': nat)
    requires Shipped(all) && Inv(all, db, k) && k <= n <= |all|
    requires AnyBaselined(db) ==> forall m | m in all[k..n] :: !m.manual
    ensures var (db', outcome) := ApplyPhase(db, all[k..n], budget);
            k <= k' <= n && Inv(all, db', k') && (outcome.Done? <==> k' == n) && !outcome.ManualRequired?
  {
    k' := ApplyAllKeeps(all, db, k, n, budget);
  }

  lemma RestPhaseKeeps(all: seq<Migration>, phase: Phase, k: nat, n: nat) returns (k': nat)
    requires Shipped(all) && Inv(all, phase.db, k) && k <= n <= |all|
    requires phase.outcome.Some? ==> !phase.outcome.value.Done?
    ensures var (db', outcome) := RestPhase(phase, all[k..n]);
            && Inv(all, db', k') && k <= k' && (outcome.Done? ==> k' == n)
            && (outcome.ManualRequired? ==> db'.executed == phase.db.executed)
  {
    k' := k;
    if phase.outcome.None? && !(exists m | m in all[k..n] :: m.manual) {
      k' := ApplyPhaseKeeps(all, phase.db, k, n, phase.budget);
    }
  }

  lemma PendingPhaseKeeps(all: seq<Migration>, db: Db, k: nat, n: nat, faults: Faults, budget: nat) returns (k': nat)
    requires Shipped(all) && Inv(all, db, k) && k <= n <= |all|
    ensures var (db', outcome) := PendingPhase(db, all[k..n], faults, budget);
            && Inv(all, db', k') && k <= k' && (outcome.Done? ==> k' == n)
            && (outcome.ManualRequired? ==> db'.executed == db.executed)
  {
    k' := k;
    if !AnyBaselined(db) {
      k' := ApplyPhaseKeeps(all, db, k, n, budget);
    } else if !faults.secondProbes {
      var phase := RecordPresent(db, all[k..n], budget);
      RecordPresentKeeps(all, db, k, n, phase);
      SliceOfSlice(all, k, n, phase.count);
      k' := RestPhaseKeeps(all, phase, k + phase.count, n);
    }
  }

  lemma BaselinePhaseKeeps(all: seq<Migration>, db: Db, k: nat, n: nat, faults: Faults, phase: Phase)
    requires Shipped(all) && Inv(all, db, k) && n <= |all|
    requires phase == BaselinePhase(db, all[..n], faults)
    ensures Inv(all, phase.db, k + phase.count) && phase.db.executed == db.executed
    ensures phase.outcome.Some? ==> !phase.outcome.value.Done? && !phase.outcome.value.ManualRequired?
  {
    EmptyTracksNothing(all, db, k);
    if db.recorded == map[] && !faults.firstProbes && Probe(db, 1) {
      assert all[0..n] == all[..n];
      RecordPresentKeeps(all, db, 0, n, phase);
    }
  }

  /** One run, however it ends, keeps the tracked prefix growing and the executions sound. */
  lemma RunKeeps(all: seq<Migration>, db: Db, k: nat, n: nat, faults: Faults) returns (k': nat)
    requires Shipped(all) && Inv(all, db, k) && n <= |all|
    ensures var (db', outcome) := RunStep(db, all[..n], faults);
            && Inv(all, db', k') && k <= k'
            && (outcome.Done? ==> n <= k')
            && (outcome.ManualRequired? ==> db'.executed == db.executed)
  {
    var phase := BaselinePhase(db, all[..n], faults);
    BaselinePhaseKeeps(all, db, k, n, faults, phase);
    k' := k + phase.count;
    if phase.outcome.None? {
      PendingIsTheRest(all, phase.db, k', n);
      k' := PendingPhaseKeeps(all, phase.db, k', if k' <= n then n else k', faults, phase.budget);
    }
  }

  // ---------- Histories ----------

  /** A run of the release that ships the first n migrations, or an operator changing the schema by hand. */
  datatype Event = Release(n: nat, faults: Faults) | Operator(present: set<nat>)

  function After(all: seq<Migration>, db: Db, event: Event): Db {
    match event
    case Release(n, faults) => if n <= |all| then RunStep(db, all[..n], faults).0 else db
    case Operator(present) => db.(present := present)
  }

  function History(all: seq<Migration>, db: Db, events: seq<Event>): Db {
    if events == [] then db else After(all, History(all, db, events[..|events| - 1]), events[|events| - 1])
  }

  lemma {:induction false} HistoryKeeps(all: seq<Migration>, db: Db, events: seq<Event>) returns (k: nat)
    requires Shipped(all) && db.recorded == map[] && db.executed == []
    ensures Inv(all, History(all, db, events), k)
  {
    if events == [] {
      k := 0;
      assert db.recorded.Keys == {};
    } else {
      var before := History(all, db, events[..|events| - 1]);
      k := HistoryKeeps(all, db, events[..|events| - 1]);
      match events[|events| - 1]
      case Release(n, faults) =>
        if n <= |all| {
          k := RunKeeps(all, before, k, n, faults);
        }
      case Operator(_) =>
    }
  }

  /**
    After any history, from a database without tracking rows: the tracked
    versions are a prefix of the shipped list, each version was executed to
    commit at most once, and no manual migration was executed while a baselined
    row existed.
   */
  lemma MigrationsStaySound(all: seq<Migration>, db: Db, events: seq<Event>)
    requires Shipped(all) && db.recorded == map[] && db.executed == []
    ensures var db' := History(all, db, events);
            && TracksPrefix(all, db', |db'.recorded|)
            && (forall i, j | 0 <= i < j < |db'.executed| :: db'.executed[i].version != db'.executed[j].version)
            && (forall e | e in db'.executed ::
                  e.version in db'.recorded && !db'.recorded[e.version] && (e.onBaselined ==> !e.manual))
  {
    var k := HistoryKeeps(all, db, events);
    EmptyTracksNothing(all, History(all, db, events), k);
  }

  /** A refusal comes before anything is applied. */
  lemma RefusalAppliesNothing(all: seq<Migration>, db: Db, events: seq<Event>, n: nat, faults: Faults)
    requires Shipped(all) && db.recorded == map[] && db.executed == [] && n <= |all|
    ensures var db' := History(all, db, events);
            var (after, outcome) := RunStep(db', all[..n], faults);
            outcome.ManualRequired? ==> after.executed == db'.executed
  {
    var k := HistoryKeeps(all, db, events);
    var k' := RunKeeps(all, History(all, db, events), k, n, faults);
  }

  /** With nothing pending, a run leaves the database as it is. */
  lemma NothingPendingNothingDone(db: Db, ms: seq<Migration>, faults: Faults)
    requires Pending(db, ms) == [] && (db.recorded == map[] ==> ms == [])
    ensures RunStep(db, ms, faults).0 == db
    ensures !faults.firstProbes && !faults.secondProbes ==> RunStep(db, ms, faults).1 == Done([])
  {
    assert BaselinePhase(db, ms, faults).db == db;
    assert RecordPresent(db, [], faults.budget) == Phase(db, faults.budget, 0, None);
    assert ApplyPhase(db, [], faults.budget) == (db, Done([]));
  }

  /** After a successful run, another run of the same release changes nothing. */
  lemma SuccessIsStable(all: seq<Migration>, db: Db, events: seq<Event>, n: nat, faults: Faults, again: Faults)
    requires Shipped(all) && db.recorded == map[] && db.executed == [] && n <= |all|
    requires RunStep(History(all, db, events), all[..n], faults).1.Done?
    ensures var db' := RunStep(History(all, db, events), all[..n], faults).0;
            && RunStep(db', all[..n], again).0 == db'
            && (!again.firstProbes && !again.secondProbes ==> RunStep(db', all[..n], again).1 == Done([]))
  {
    var k := HistoryKeeps(all, db, events);
    var k' := RunKeeps(all, History(all, db, events), k, n, faults);
    var db' := RunStep(History(all, db, events), all[..n], faults).0;
    PendingIsTheRest(all, db', k', n);
    EmptyTracksNothing(all, db', k');
    NothingPendingNothingDone(db', all[..n], again);
  }
}
