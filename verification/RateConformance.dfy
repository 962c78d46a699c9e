/**
  The limiters decide by the request history alone: a request passes exactly if,
  counted from every earlier request on, the key stays within one second's worth
  of requests plus what it regained since.
 */
module RateConformance {
  import opened Options
  import opened RateLimit

  lemma GainIsPositive(rate: nat, elapsed: real)
    requires elapsed >= 0.0
    ensures elapsed * rate as real >= 0.0
  {
  }

  /** A level after an admission or none, and a gain since, never above what a full bucket holds. */
  function Grown(rate: nat, level: real, admitted: bool, gain: real): real {
    var grown := level - (if admitted then 1.0 else 0.0) + gain;
    if grown > rate as real then rate as real else grown
  }

  /** A level gains `rate` for each second until it is full. */
  lemma LevelRegains(rate: nat, buckets: map<Key, Bucket>, k: Key, now: real, later: real, gain: real)
    requires Inv(rate, buckets, now) && now <= later && gain == (later - now) * rate as real
    ensures Level(rate, buckets, k, later) == Grown(rate, Level(rate, buckets, k, now), false, gain)
  {
    var r := rate as real;
    GainIsPositive(rate, later - now);
    if k in buckets {
      var b := buckets[k];
      assert (later - b.lastSeen) * r == (now - b.lastSeen) * r + (later - now) * r;
    }
  }

  /** What is left for key k at request j, counting from request i on. */
  function Budget(rate: nat, rs: seq<Request>, answers: seq<bool>, k: Key, i: nat, j: nat): real
    requires i <= j < |rs| == |answers|
  {
    rate as real + (rs[j].now - rs[i].now) * rate as real - Admitted(rs[i..j], answers[i..j], k) as real
  }

  lemma {:induction false} AdmittedSnoc(rs: seq<Request>, answers: seq<bool>, k: Key, i: nat, j: nat)
    requires i <= j < |rs| == |answers|
    ensures Admitted(rs[i..j + 1], answers[i..j + 1], k)
            == Admitted(rs[i..j], answers[i..j], k) + if rs[j].key == k && answers[j] then 1 else 0
    decreases j - i
  {
    if i < j {
      AdmittedSnoc(rs, answers, k, i + 1, j);
      assert rs[i..j + 1][1..] == rs[i + 1..j + 1] && answers[i..j + 1][1..] == answers[i + 1..j + 1];
      assert rs[i..j][1..] == rs[i + 1..j] && answers[i..j][1..] == answers[i + 1..j];
    } else {
      assert rs[i..j + 1][1..] == [] && answers[i..j + 1][1..] == [];
    }
  }

  /** From one request to the next a budget changes by the refill and the admission in between. */
  lemma BudgetStep(rate: nat, rs: seq<Request>, answers: seq<bool>, k: Key, i: nat, j: nat)
    requires i <= j < |rs| - 1 && |rs| == |answers|
    ensures Budget(rate, rs, answers, k, i, j + 1)
            == Budget(rate, rs, answers, k, i, j) + (rs[j + 1].now - rs[j].now) * rate as real
               - if rs[j].key == k && answers[j] then 1.0 else 0.0
  {
    AdmittedSnoc(rs, answers, k, i, j);
    var r := rate as real;
    assert (rs[j + 1].now - rs[i].now) * r == (rs[j].now - rs[i].now) * r + (rs[j + 1].now - rs[j].now) * r;
  }

  lemma BudgetHere(rate: nat, rs: seq<Request>, answers: seq<bool>, k: Key, j: nat)
    requires j < |rs| == |answers|
    ensures Budget(rate, rs, answers, k, j, j) == rate as real
  {
    assert (rs[j].now - rs[j].now) * rate as real == 0.0;
  }

  function Before(rate: nat, cap: Option<nat>, cleanup: real, rs: seq<Request>, j: nat): Limiter
    requires j <= |rs|
  {
    After(rate, cap, Limiter(map[], cleanup), rs[..j])
  }

  lemma BeforeStep(rate: nat, cap: Option<nat>, cleanup: real, rs: seq<Request>, j: nat)
    requires j < |rs|
    ensures (Before(rate, cap, cleanup, rs, j + 1), Answers(rate, cap, Limiter(map[], cleanup), rs)[j])
            == AllowStep(rate, cap, Before(rate, cap, cleanup, rs, j), rs[j])
  {
    var l := Limiter(map[], cleanup);
    var before := Before(rate, cap, cleanup, rs, j);
    WindowAnswers(rate, cap, l, rs, j, j + 1);
    assert Answers(rate, cap, l, rs)[j] == Answers(rate, cap, l, rs)[j..j + 1][0];
    assert rs[j..j + 1] == [rs[j]] && [rs[j]][1..] == [];
    assert rs[..j + 1] == rs[..j] + [rs[j]];
    AnswersSplit(rate, cap, l, rs[..j], [rs[j]]);
    var step := AllowStep(rate, cap, before, rs[j]);
    assert After(rate, cap, before, [rs[j]]) == After(rate, cap, step.0, []) == step.0;
  }

  /** The budgets at request j. */
  function Budgets(rate: nat, rs: seq<Request>, answers: seq<bool>, k: Key, j: nat): (b: seq<real>)
    requires j < |rs| == |answers|
    ensures |b| == j + 1 && forall i | 0 <= i <= j :: b[i] == Budget(rate, rs, answers, k, i, j)
  {
    seq(j + 1, i requires 0 <= i <= j => Budget(rate, rs, answers, k, i, j))
  }

  ghost predicate IsLeast(level: real, b: seq<real>) {
    (forall i | 0 <= i < |b| :: level <= b[i]) && exists i | 0 <= i < |b| :: level == b[i]
  }

  /** What a second's worth of refill makes of the time between requests j and j + 1. */
  function Gain(rate: nat, rs: seq<Request>, j: nat): real
    requires j < |rs| - 1
  {
    (rs[j + 1].now - rs[j].now) * rate as real
  }

  /** The level before the next request, from the level before this one. */
  lemma LevelStep(rate: nat, cap: Option<nat>, l: Limiter, r: Request, k: Key, later: real, l': Limiter, ok: bool,
                  gain: real)
    requires rate >= 1 && Inv(rate, l.buckets, r.now) && r.now <= later && (l', ok) == AllowStep(rate, cap, l, r)
    requires gain == (later - r.now) * rate as real
    ensures Level(rate, l'.buckets, k, later) == Grown(rate, Level(rate, l.buckets, k, r.now), r.key == k && ok, gain)
  {
    var before, mid := Level(rate, l.buckets, k, r.now), Level(rate, l'.buckets, k, r.now);
    assert Inv(rate, l'.buckets, r.now) && mid == before - (if r.key == k && ok then 1.0 else 0.0) by {
      AllowMeansLevel(rate, cap, l, r, k);
    }
    assert Level(rate, l'.buckets, k, later) == Grown(rate, mid, false, gain) by {
      LevelRegains(rate, l'.buckets, k, r.now, later, gain);
    }
  }

  lemma LeastStep(rate: nat, b: seq<real>, b': seq<real>, level: real, admitted: bool, gain: real)
    requires IsLeast(level, b) && |b'| == |b| + 1 && b'[|b|] == rate as real
    requires forall i | 0 <= i < |b| :: b'[i] == b[i] + gain - if admitted then 1.0 else 0.0
    ensures IsLeast(Grown(rate, level, admitted, gain), b')
  {
    var i :| 0 <= i < |b| && level == b[i];
    var level' := Grown(rate, level, admitted, gain);
    assert level' == b'[i] || level' == b'[|b|];
  }

  lemma BudgetsStep(rate: nat, rs: seq<Request>, answers: seq<bool>, k: Key, j: nat, level: real)
    requires j < |rs| - 1 && |rs| == |answers| && IsLeast(level, Budgets(rate, rs, answers, k, j))
    ensures IsLeast(Grown(rate, level, rs[j].key == k && answers[j], Gain(rate, rs, j)),
                    Budgets(rate, rs, answers, k, j + 1))
  {
    var b, b' := Budgets(rate, rs, answers, k, j), Budgets(rate, rs, answers, k, j + 1);
    var admitted := rs[j].key == k && answers[j];
    BudgetHere(rate, rs, answers, k, j + 1);
    forall i | 0 <= i <= j
      ensures b'[i] == b[i] + Gain(rate, rs, j) - if admitted then 1.0 else 0.0
    {
      BudgetStep(rate, rs, answers, k, i, j);
    }
    LeastStep(rate, b, b', level, admitted, Gain(rate, rs, j));
  }

  /** Levels of key k before each request: full at first, then one step after another. */
  ghost predicate LevelsOf(rate: nat, rs: seq<Request>, answers: seq<bool>, k: Key, levels: seq<real>) {
    && |levels| == |rs| == |answers| && (rs != [] ==> levels[0] == rate as real)
    && forall j | 0 <= j < |rs| - 1 ::
         levels[j + 1] == Grown(rate, levels[j], rs[j].key == k && answers[j], Gain(rate, rs, j))
  }

  lemma {:induction false} LevelIsTheLeastBudget(rate: nat, rs: seq<Request>, answers: seq<bool>, k: Key,
                                                 levels: seq<real>, j: nat)
    requires LevelsOf(rate, rs, answers, k, levels) && j < |rs|
    ensures IsLeast(levels[j], Budgets(rate, rs, answers, k, j))
  {
    if j == 0 {
      BudgetHere(rate, rs, answers, k, 0);
      assert levels[0] == Budgets(rate, rs, answers, k, 0)[0];
    } else {
      LevelIsTheLeastBudget(rate, rs, answers, k, levels, j - 1);
      BudgetsStep(rate, rs, answers, k, j - 1, levels[j - 1]);
    }
  }

  lemma LevelAt(rate: nat, cap: Option<nat>, cleanup: real, rs: seq<Request>, k: Key, j: nat, l: Limiter, l': Limiter)
    requires rate >= 1 && j < |rs| - 1 && Monotone(rs[0].now, rs)
    requires l == Before(rate, cap, cleanup, rs, j) && l' == Before(rate, cap, cleanup, rs, j + 1)
    ensures Level(rate, l'.buckets, k, rs[j + 1].now)
            == Grown(rate, Level(rate, l.buckets, k, rs[j].now),
                     rs[j].key == k && Answers(rate, cap, Limiter(map[], cleanup), rs)[j], Gain(rate, rs, j))
  {
    BeforeStep(rate, cap, cleanup, rs, j);
    ReachableInv(rate, cap, cleanup, rs, j);
    LevelStep(rate, cap, l, rs[j], k, rs[j + 1].now, l', Answers(rate, cap, Limiter(map[], cleanup), rs)[j],
              Gain(rate, rs, j));
  }

  /** In every request sequence the limiter's levels follow these steps. */
  lemma LimiterLevels(rate: nat, cap: Option<nat>, cleanup: real, rs: seq<Request>, k: Key) returns (levels: seq<real>)
    requires rate >= 1 && rs != [] && Monotone(rs[0].now, rs)
    ensures LevelsOf(rate, rs, Answers(rate, cap, Limiter(map[], cleanup), rs), k, levels)
    ensures forall j | 0 <= j < |rs| ::
              levels[j] == Level(rate, Before(rate, cap, cleanup, rs, j).buckets, k, rs[j].now)
  {
    levels := seq(|rs|, j requires 0 <= j < |rs| =>
                    Level(rate, Before(rate, cap, cleanup, rs, j).buckets, k, rs[j].now));
    var answers := Answers(rate, cap, Limiter(map[], cleanup), rs);
    assert Before(rate, cap, cleanup, rs, 0).buckets == map[];
    forall j | 0 <= j < |rs| - 1
      ensures levels[j + 1] == Grown(rate, levels[j], rs[j].key == k && answers[j], Gain(rate, rs, j))
    {
      LevelAt(rate, cap, cleanup, rs, k, j, Before(rate, cap, cleanup, rs, j), Before(rate, cap, cleanup, rs, j + 1));
    }
  }

  /** From request i on, request j still fits into one second's worth of requests and the refill since. */
  predicate Fits(rate: nat, rs: seq<Request>, answers: seq<bool>, i: nat, j: nat)
    requires i <= j < |rs| == |answers|
  {
    Admitted(rs[i..j], answers[i..j], rs[j].key) as real + 1.0 <= rate as real + (rs[j].now - rs[i].now) * rate as real
  }

  /**
    The exact law of a limiter: a request is allowed if and only if it fits from
    every earlier request on, and a key without a bucket finds room.
   */
  lemma AllowedIffItFits(rate: nat, cap: Option<nat>, cleanup: real, rs: seq<Request>, j: nat)
    requires rate >= 1 && j < |rs| && Monotone(rs[0].now, rs)
    ensures var answers := Answers(rate, cap, Limiter(map[], cleanup), rs);
            answers[j] <==>
              && (forall i | 0 <= i <= j :: Fits(rate, rs, answers, i, j))
              && Room(Cleaned(Before(rate, cap, cleanup, rs, j), rs[j].now).buckets, cap, rs[j].key)
  {
    var answers := Answers(rate, cap, Limiter(map[], cleanup), rs);
    var before := Before(rate, cap, cleanup, rs, j);
    var k := rs[j].key;
    var levels := LimiterLevels(rate, cap, cleanup, rs, k);
    LevelIsTheLeastBudget(rate, rs, answers, k, levels, j);
    BeforeStep(rate, cap, cleanup, rs, j);
    ReachableInv(rate, cap, cleanup, rs, j);
    AllowMeansLevel(rate, cap, before, rs[j], k);
    FitsIsBudget(rate, rs, answers, j);
  }

  lemma FitsIsBudget(rate: nat, rs: seq<Request>, answers: seq<bool>, j: nat)
    requires j < |rs| == |answers|
    ensures forall i | 0 <= i <= j ::
              Fits(rate, rs, answers, i, j) <==> Budget(rate, rs, answers, rs[j].key, i, j) >= 1.0
  {
  }

  // ---------- A client within its rate ----------

  function Asked(rs: seq<Request>, k: Key): nat {
    if rs == [] then 0 else (if rs[0].key == k then 1 else 0) + Asked(rs[1..], k)
  }

  lemma {:induction false} AdmittedWereAsked(rs: seq<Request>, answers: seq<bool>, k: Key)
    requires |rs| == |answers|
    ensures Admitted(rs, answers, k) <= Asked(rs, k)
  {
    if rs != [] {
      AdmittedWereAsked(rs[1..], answers[1..], k);
    }
  }

  /** A namespace that never asks for more than its rate allows is never refused, whatever the others ask for. */
  lemma WithinRateIsNeverRefused(rate: nat, cleanup: real, rs: seq<Request>, k: Key, j: nat)
    requires rate >= 1 && j < |rs| && Monotone(rs[0].now, rs) && rs[j].key == k
    requires forall i | 0 <= i <= j ::
               Asked(rs[i..j], k) as real + 1.0 <= rate as real + (rs[j].now - rs[i].now) * rate as real
    ensures Answers(rate, None, Limiter(map[], cleanup), rs)[j]
  {
    var answers := Answers(rate, None, Limiter(map[], cleanup), rs);
    AllowedIffItFits(rate, None, cleanup, rs, j);
    forall i | 0 <= i <= j
      ensures Fits(rate, rs, answers, i, j)
    {
      AdmittedWereAsked(rs[i..j], answers[i..j], k);
    }
  }
}
