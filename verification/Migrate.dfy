/**
  The migration runner of internal/migrate/run.go over any sequence of runs,
  failures, crashes and hand-applied migrations. Every run holds the migration
  advisory lock, so runs follow one another.
 */
module Migrate {
  import opened Options

  datatype Migration = Migration(version: nat, manual: bool)

  /** A committed execution by the runner, and whether a baselined row existed at that moment. */
  datatype Executed = Executed(version: nat, manual: bool, onBaselined: bool)

  /** `recorded` maps tracked versions to their baselined flag; `present` are the versions whose objects exist. */
  datatype Db = Db(recorded: map<nat, bool>, present: set<nat>, executed: seq<Executed>)

  const LAST_PROBED := 12

  /** A version without a probe counts as absent. */
  predicate Probe(db: Db, version: nat) {
    1 <= version <= LAST_PROBED && version in db.present
  }

  predicate AnyBaselined(db: Db) {
    exists v | v in db.recorded :: db.recorded[v]
  }

  // ---------- What one run does ----------

  /** The length of the leading run of present migrations. */
  function Leading(db: Db, ms: seq<Migration>): (k: nat)
    ensures k <= |ms| && (forall i | 0 <= i < k :: Probe(db, ms[i].version)) && (k < |ms| ==> !Probe(db, ms[k].version))
  {
    if ms == [] || !Probe(db, ms[0].version) then 0 else 1 + Leading(db, ms[1..])
  }

  /** presentPrefix: None is ErrInconsistentSchema, a present migration behind a missing one. */
  function PresentPrefix(db: Db, ms: seq<Migration>): Option<nat> {
    var k := Leading(db, ms);
    if exists i | k <= i < |ms| :: Probe(db, ms[i].version) then None else Some(k)
  }

  /** The prefix is k exactly when the present migrations are the first k. */
  lemma PresentPrefixIsExact(db: Db, ms: seq<Migration>, k: nat)
    requires k <= |ms|
    ensures PresentPrefix(db, ms) == Some(k) <==> forall i | 0 <= i < |ms| :: Probe(db, ms[i].version) <==> i < k
  {
    var n := Leading(db, ms);
    if k < n {
      assert Probe(db, ms[k].version);
    }
  }

  function Pending(db: Db, ms: seq<Migration>): seq<Migration> {
    if ms == [] then []
    else if ms[|ms| - 1].version in db.recorded then Pending(db, ms[..|ms| - 1])
    else Pending(db, ms[..|ms| - 1]) + [ms[|ms| - 1]]
  }

  /** The tracking rows with every given migration recorded as baselined. */
  function WithBaselined(recorded: map<nat, bool>, ms: seq<Migration>): map<nat, bool> {
    if ms == [] then recorded else WithBaselined(recorded, ms[..|ms| - 1])[ms[|ms| - 1].version := true]
  }

  function Baselined(db: Db, ms: seq<Migration>): Db {
    db.(recorded := WithBaselined(db.recorded, ms))
  }

  function Applied(db: Db, m: Migration): Db {
    Db(db.recorded[m.version := false], db.present + {m.version},
       db.executed + [Executed(m.version, m.manual, AnyBaselined(db))])
  }

  /** Apply in order until the run dies; `budget` is the number of transactions that still commit. */
  function ApplyAll(db: Db, pending: seq<Migration>, budget: nat): (Db, bool)
    decreases |pending|
  {
    if pending == [] then (db, true)
    else if budget == 0 then (db, false)
    else ApplyAll(Applied(db, pending[0]), pending[1..], budget - 1)
  }

  datatype Outcome = Done(applied: seq<Migration>) | ManualRequired | Inconsistent | Interrupted

  /** Where a run may fail: at either round of probes, or once its transactions run out. */
  datatype Faults = Faults(firstProbes: bool, secondProbes: bool, budget: nat)

  /** Part of a run: the database and transactions left, how many migrations were baselined, and how it ended. */
  datatype Phase = Phase(db: Db, budget: nat, count: nat, outcome: Option<Outcome>)

  /** Records the present prefix of `ms` as baselined, in one transaction if there is any. */
  function RecordPresent(db: Db, ms: seq<Migration>, budget: nat): (p: Phase)
    ensures p.count <= |ms| && p.db == Baselined(db, ms[..p.count])
    ensures p.outcome.Some? ==> p.outcome.value.Inconsistent? || p.outcome.value.Interrupted?
  {
    var prefix := PresentPrefix(db, ms);
    if prefix.None? then Phase(db, budget, 0, Some(Inconsistent))
    else if prefix.value == 0 then Phase(db, budget, 0, None)
    else if budget == 0 then Phase(db, 0, 0, Some(Interrupted))
    else Phase(Baselined(db, ms[..prefix.value]), budget - 1, prefix.value, None)
  }

  /** Only a database without tracking rows but with the jobs table is baselined. */
  function BaselinePhase(db: Db, ms: seq<Migration>, faults: Faults): Phase {
    if db.recorded != map[] then Phase(db, faults.budget, 0, None)
    else if faults.firstProbes then Phase(db, faults.budget, 0, Some(Interrupted))
    else if !Probe(db, 1) then Phase(db, faults.budget, 0, None)
    else RecordPresent(db, ms, faults.budget)
  }

  function ApplyPhase(db: Db, pending: seq<Migration>, budget: nat): (Db, Outcome) {
    var (db', ok) := ApplyAll(db, pending, budget);
    (db', if ok then Done(pending) else Interrupted)
  }

  /** A baselined database applies what is left only if nothing in it needs an operator. */
  function RestPhase(phase: Phase, rest: seq<Migration>): (Db, Outcome) {
    if phase.outcome.Some? then (phase.db, phase.outcome.value)
    else if exists m | m in rest :: m.manual then (phase.db, ManualRequired)
    else ApplyPhase(phase.db, rest, phase.budget)
  }

  /** From the pending list to the end of the run. */
  function PendingPhase(db: Db, pending: seq<Migration>, faults: Faults, budget: nat): (Db, Outcome) {
    if !AnyBaselined(db) then ApplyPhase(db, pending, budget)
    else if faults.secondProbes then (db, Interrupted)
    else
      var phase := RecordPresent(db, pending, budget);
      RestPhase(phase, pending[phase.count..])
  }

  function RunStep(db: Db, ms: seq<Migration>, faults: Faults): (Db, Outcome) {
    var phase := BaselinePhase(db, ms, faults);
    if phase.outcome.Some? then (phase.db, phase.outcome.value)
    else PendingPhase(phase.db, Pending(phase.db, ms), faults, phase.budget)
  }

  // ---------- The runner ----------

  /** The scan of presentPrefix, with k still |ms| until the first absent migration. */
  method ScanPresent(db: Db, ms: seq<Migration>) returns (prefix: Option<nat>)
    ensures prefix == PresentPrefix(db, ms)
  {
    var k := |ms|;
    var i := 0;
    while i < |ms|
      invariant 0 <= i <= |ms|
      invariant k == if Leading(db, ms) < i then Leading(db, ms) else |ms|
      invariant k < |ms| ==> forall j | k <= j < i :: !Probe(db, ms[j].version)
    {
      if !Probe(db, ms[i].version) {
        if k == |ms| {
          k := i;
        }
      } else if k != |ms| {
        return None;
      }
      i := i + 1;
    }
    prefix := Some(k);
  }

  method CollectPending(db: Db, ms: seq<Migration>) returns (pending: seq<Migration>)
    ensures pending == Pending(db, ms)
  {
    pending := [];
    var i := 0;
    while i < |ms|
      invariant 0 <= i <= |ms| && pending == Pending(db, ms[..i])
    {
      assert ms[..i + 1][..i] == ms[..i];
      if ms[i].version !in db.recorded {
        pending := pending + [ms[i]];
      }
      i := i + 1;
    }
    assert ms[..i] == ms;
  }

  class Database {
    var db: Db

    method ApplyPending(pending: seq<Migration>, budget: nat) returns (ok: bool)
      modifies this
      ensures (db, ok) == ApplyAll(old(db), pending, budget)
    {
      var i := 0;
      while i < |pending|
        invariant 0 <= i <= |pending| && i <= budget
        invariant ApplyAll(old(db), pending, budget) == ApplyAll(db, pending[i..], budget - i)
      {
        if i == budget {
          return false;
        }
        db := Applied(db, pending[i]);
        assert pending[i..][1..] == pending[i + 1..];
        i := i + 1;
      }
      ok := true;
    }

    /** One transaction that inserts every row; only its commit is visible. */
    method RecordBaselined(ms: seq<Migration>)
      modifies this
      ensures db == Baselined(old(db), ms)
    {
      var rows := db.recorded;
      var i := 0;
      while i < |ms|
        invariant 0 <= i <= |ms| && rows == WithBaselined(db.recorded, ms[..i]) && db == old(db)
      {
        assert ms[..i + 1][..i] == ms[..i];
        rows := rows[ms[i].version := true];
        i := i + 1;
      }
      assert ms[..i] == ms;
      db := db.(recorded := rows);
    }

    /** presentPrefix followed by recordBaselined. */
    method RecordDetected(ms: seq<Migration>, budget: nat) returns (k: nat, budget': nat, outcome: Option<Outcome>)
      modifies this
      ensures Phase(db, budget', k, outcome) == RecordPresent(old(db), ms, budget)
    {
      k, budget', outcome := 0, budget, None;
      var present := ScanPresent(db, ms);
      if present.None? {
        outcome := Some(Inconsistent);
        return;
      }
      if present.value == 0 {
        return;
      }
      if budget == 0 {
        outcome := Some(Interrupted);
        return;
      }
      RecordBaselined(ms[..present.value]);
      k, budget' := present.value, budget - 1;
    }

    method Baseline(ms: seq<Migration>, faults: Faults) returns (k: nat, budget: nat, outcome: Option<Outcome>)
      modifies this
      ensures Phase(db, budget, k, outcome) == BaselinePhase(old(db), ms, faults)
    {
      k, budget, outcome := 0, faults.budget, None;
      if db.recorded == map[] {
        if faults.firstProbes {
          outcome := Some(Interrupted);
        } else if Probe(db, 1) {
          k, budget, outcome := RecordDetected(ms, budget);
        }
      }
    }

    method FinishPending(pending: seq<Migration>, faults: Faults, budget: nat) returns (outcome: Outcome)
      modifies this
      ensures (db, outcome) == PendingPhase(old(db), pending, faults, budget)
    {
      var rest, left := pending, budget;
      if AnyBaselined(db) {
        if faults.secondProbes {
          return Interrupted;
        }
        var k, left', failed := RecordDetected(pending, budget);
        if failed.Some? {
          return failed.value;
        }
        rest, left := pending[k..], left';
        if exists m | m in rest :: m.manual {
          return ManualRequired;
        }
      }
      var ok := ApplyPending(rest, left);
      outcome := if ok then Done(rest) else Interrupted;
    }

    method RunMigrations(ms: seq<Migration>, faults: Faults) returns (outcome: Outcome)
      modifies this
      ensures (db, outcome) == RunStep(old(db), ms, faults)
    {
      var k, budget, failed := Baseline(ms, faults);
      if failed.Some? {
        return failed.value;
      }
      var pending := CollectPending(db, ms);
      outcome := FinishPending(pending, faults, budget);
    }
  }
}
