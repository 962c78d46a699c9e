/**
  The end of admin sessions: a deleted session never comes back and serves no
  request that had not loaded it before, and a refused request stays refused,
  whatever else goes on.
 */
module SessionEnd {
  import opened Options
  import opened Sessions

  /** The token was handed out, and its session is gone. */
  predicate Barred(s: State, token: Token) {
    token in s.issued && token !in s.sessions
  }

  predicate LetIn(r: Request) {
    r.phase.Loaded? || r.phase.Served?
  }

  /** Among the requests of the token only those that had got in before are in. */
  ghost predicate NobodyNew(s: State, s': State, token: Token) {
    forall i | 0 <= i < |s'.requests| && s'.requests[i].token == token && LetIn(s'.requests[i]) ::
      i < |s.requests| && s.requests[i].token == token && LetIn(s.requests[i])
  }

  lemma StepLetsNobodyIn(cfg: Config, s: State, step: Step, token: Token)
    requires Barred(s, token)
    ensures Barred(Next(cfg, s, step), token) && NobodyNew(s, Next(cfg, s, step), token)
  {
  }

  lemma {:induction false} BarredForGood(cfg: Config, s: State, steps: seq<Step>, token: Token)
    requires Barred(s, token)
    ensures Barred(Run(cfg, s, steps), token) && NobodyNew(s, Run(cfg, s, steps), token)
  {
    if steps != [] {
      var before := Run(cfg, s, steps[..|steps| - 1]);
      BarredForGood(cfg, s, steps[..|steps| - 1], token);
      StepLetsNobodyIn(cfg, before, steps[|steps| - 1], token);
    }
  }

  lemma {:induction false} RunAppend(cfg: Config, s: State, a: seq<Step>, b: seq<Step>)
    ensures Run(cfg, s, a + b) == Run(cfg, Run(cfg, s, a), b)
  {
    if b == [] {
      assert a + b == a;
    } else {
      assert (a + b)[..|a + b| - 1] == a + b[..|b| - 1];
      RunAppend(cfg, s, a, b[..|b| - 1]);
    }
  }

  /**
    After a logout, or the deletion of a session whose identity no longer holds,
    the token has no session in any continuation, and serves only requests that
    had loaded the session by then.
   */
  lemma LogoutIsFinal(cfg: Config, now: int, steps: seq<Step>, more: seq<Step>, token: Token)
    requires token in Run(cfg, Init(now), steps).issued
    ensures var before := Run(cfg, Init(now), steps);
            var after := Run(cfg, Init(now), steps + [Delete(token)] + more);
            token !in after.sessions && NobodyNew(before, after, token)
  {
    var s := Run(cfg, Init(now), steps);
    Snoc(cfg, Init(now), steps, Delete(token));
    RunAppend(cfg, Init(now), steps + [Delete(token)], more);
    BarredForGood(cfg, Next(cfg, s, Delete(token)), more, token);
  }

  lemma {:induction false} RefusedForGood(cfg: Config, s: State, steps: seq<Step>, i: nat)
    requires i < |s.requests| && s.requests[i].phase.Refused?
    ensures i < |Run(cfg, s, steps).requests| && Run(cfg, s, steps).requests[i] == s.requests[i]
  {
    if steps != [] {
      RefusedForGood(cfg, s, steps[..|steps| - 1], i);
    }
  }

  /** A request that meets a failing store, key or identity check is refused for good, and moves no session. */
  lemma FailureRefuses(cfg: Config, now: int, steps: seq<Step>, more: seq<Step>, i: nat)
    requires i < |Run(cfg, Init(now), steps).requests| && !Run(cfg, Init(now), steps).requests[i].phase.Served?
    ensures var after := Run(cfg, Init(now), steps + [Fail(i)] + more);
            i < |after.requests| && after.requests[i].phase.Refused?
    ensures Run(cfg, Init(now), steps + [Fail(i)]).sessions == Run(cfg, Init(now), steps).sessions
  {
    var s := Run(cfg, Init(now), steps);
    Snoc(cfg, Init(now), steps, Fail(i));
    RunAppend(cfg, Init(now), steps + [Fail(i)], more);
    RefusedForGood(cfg, Next(cfg, s, Fail(i)), more, i);
  }
}
