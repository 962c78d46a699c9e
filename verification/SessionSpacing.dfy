/**
  How closely overlapping requests of one session must follow each other so that
  none is turned away before the absolute deadline.
 */
module SessionSpacing {
  import opened Options
  import opened Sessions

  /** The clock reading of the last request of `token` among the first n, or its login. */
  function Reading(rs: seq<Request>, token: Token, n: nat, login: int): int
    requires n <= |rs|
  {
    if n == 0 then login else if rs[n - 1].token == token then rs[n - 1].now else Reading(rs, token, n - 1, login)
  }

  predicate Unfinished(r: Request) {
    r.phase.Begun? || r.phase.Loaded?
  }

  /** Served, or sure to be without a refresh. */
  predicate Settled(cfg: Config, r: Request) {
    r.phase.Served? || (r.phase.Loaded? && !Due(cfg, r.phase.session, r.now))
  }

  function LoginOf(cfg: Config, s: State, token: Token): int
    requires token in s.issued
  {
    s.issued[token] - cfg.absolute
  }

  // ---------- What is asked of a run ----------

  /** Requests finish within `lag` of their clock reading. */
  ghost predicate Timely(s: State, token: Token, lag: int) {
    forall i | 0 <= i < |s.requests| && s.requests[i].token == token && Unfinished(s.requests[i]) ::
      s.now <= s.requests[i].now + lag
  }

  /** Requests come after the login, each within `gap` of the one before; nothing fails and nobody logs out. */
  predicate Undisturbed(cfg: Config, s: State, step: Step, token: Token, gap: int) {
    match step
    case Begin(t) =>
      t == token ==>
        token in s.issued && s.now <= Reading(s.requests, token, |s.requests|, LoginOf(cfg, s, token)) + gap
    case Fail(i) => i < |s.requests| ==> s.requests[i].token != token
    case Delete(t) => t != token
    case _ => true
  }

  ghost predicate SpacedRun(cfg: Config, now: int, steps: seq<Step>, token: Token, lag: int, gap: int) {
    steps == [] ||
    (var before := Run(cfg, Init(now), steps[..|steps| - 1]);
     && SpacedRun(cfg, now, steps[..|steps| - 1], token, lag, gap)
     && Undisturbed(cfg, before, steps[|steps| - 1], token, gap)
     && Timely(Run(cfg, Init(now), steps), token, lag))
  }

  /** Spacing and lag together fit into half of the idle time. */
  predicate Fits(cfg: Config, lag: int, gap: int) {
    ValidConfig(cfg) && 0 <= lag && 0 < gap && lag + gap <= cfg.idle / 2
  }

  /** Request i of the session was refused although it was over before the absolute deadline. */
  predicate TurnedAway(s: State, token: Token, i: nat, lag: int) {
    && i < |s.requests| && s.requests[i].token == token && s.requests[i].phase.Refused?
    && token in s.issued && s.requests[i].now + lag < s.issued[token]
  }

  // ---------- The invariant ----------

  predicate SpacedRequests(rs: seq<Request>, token: Token, login: int, gap: int) {
    forall i | 0 <= i < |rs| && rs[i].token == token ::
      Reading(rs, token, i, login) <= rs[i].now <= Reading(rs, token, i, login) + gap
  }

  /** The idle deadline lies more than half the idle time past the login and every settled request. */
  predicate Ahead(cfg: Config, s: State, token: Token)
    requires token in s.issued && token in s.sessions
  {
    var limit := s.sessions[token].lastSeen + cfg.idle;
    && limit > LoginOf(cfg, s, token) + cfg.idle / 2
    && forall i | 0 <= i < |s.requests| && s.requests[i].token == token && Settled(cfg, s.requests[i]) ::
         limit > s.requests[i].now + cfg.idle / 2
  }

  /** A session is gone only when its user has left or its absolute deadline is near. */
  predicate Gone(cfg: Config, s: State, token: Token, lag: int, gap: int)
    requires token in s.issued
  {
    && (forall i | 0 <= i < |s.requests| && s.requests[i].token == token && Unfinished(s.requests[i]) ::
          s.requests[i].now + lag >= s.issued[token])
    && (|| s.now > Reading(s.requests, token, |s.requests|, LoginOf(cfg, s, token)) + gap
        || s.now + lag >= s.issued[token])
  }

  predicate NoneRefused(s: State, token: Token, lag: int)
    requires token in s.issued
  {
    forall i | 0 <= i < |s.requests| && s.requests[i].token == token && s.requests[i].phase.Refused? ::
      s.requests[i].now + lag >= s.issued[token]
  }

  predicate InThePast(s: State, token: Token) {
    forall i | 0 <= i < |s.requests| && s.requests[i].token == token :: s.requests[i].now <= s.now
  }

  ghost predicate SpacingInv(cfg: Config, s: State, token: Token, lag: int, gap: int) {
    if token !in s.issued then
      token !in s.sessions && forall i | 0 <= i < |s.requests| :: s.requests[i].token != token
    else
      && LoginOf(cfg, s, token) <= s.now && InThePast(s, token)
      && SpacedRequests(s.requests, token, LoginOf(cfg, s, token), gap)
      && NoneRefused(s, token, lag)
      && (token in s.sessions ==> Ahead(cfg, s, token))
      && (token !in s.sessions ==> Gone(cfg, s, token, lag, gap))
  }

  // ---------- A request at work protects its session ----------

  /**
    Of the first n requests, either one is still at work, and then the idle
    deadline is in the future, or the deadline is well past the last of them;
    unless the absolute deadline is near.
   */
  lemma {:induction false} DeadlineFollows(cfg: Config, s: State, token: Token, lag: int, gap: int, n: nat)
    requires Fits(cfg, lag, gap) && SpacingInv(cfg, s, token, lag, gap) && Timely(s, token, lag)
    requires token in s.issued && token in s.sessions && n <= |s.requests|
    ensures var limit := s.sessions[token].lastSeen + cfg.idle;
            var last := Reading(s.requests, token, n, LoginOf(cfg, s, token));
            limit > s.now || last + lag >= s.issued[token] || limit > last + cfg.idle / 2
  {
    if n > 0 {
      DeadlineFollows(cfg, s, token, lag, gap, n - 1);
      var r := s.requests[n - 1];
      if r.token == token {
        assert Unfinished(r) || r.phase.Refused? || Settled(cfg, r);
      }
    }
  }

  /** While a request is at work the idle deadline is in the future, unless the absolute one is near. */
  lemma AtWorkIsProtected(cfg: Config, s: State, token: Token, lag: int, gap: int, i: nat)
    requires Fits(cfg, lag, gap) && SpacingInv(cfg, s, token, lag, gap) && Timely(s, token, lag)
    requires token in s.issued && token in s.sessions
    requires i < |s.requests| && s.requests[i].token == token && Unfinished(s.requests[i])
    ensures s.sessions[token].lastSeen + cfg.idle > s.now || s.requests[i].now + lag >= s.issued[token]
  {
    DeadlineFollows(cfg, s, token, lag, gap, i);
  }

  /** A request at work before the absolute deadline finds its row usable. */
  lemma AtWorkIsUsable(cfg: Config, s: State, token: Token, lag: int, gap: int, i: nat)
    requires Fits(cfg, lag, gap) && SpacingInv(cfg, s, token, lag, gap) && Timely(s, token, lag) && Inv(cfg, s)
    requires i < |s.requests| && s.requests[i].token == token && Unfinished(s.requests[i]) && token in s.issued
    requires s.requests[i].now + lag < s.issued[token]
    ensures token in s.sessions && Usable(s.sessions[token], s.requests[i].now)
  {
    AtWorkIsProtected(cfg, s, token, lag, gap, i);
    assert Issued(cfg, s.issued, token, s.sessions[token]);
  }

  // ---------- Every step keeps it ----------

  lemma {:induction false} ReadingStays(a: seq<Request>, b: seq<Request>, token: Token, n: nat, login: int)
    requires n <= |a| && n <= |b| && forall i | 0 <= i < n :: b[i].token == a[i].token && b[i].now == a[i].now
    ensures Reading(b, token, n, login) == Reading(a, token, n, login)
  {
    if n > 0 {
      ReadingStays(a, b, token, n - 1, login);
    }
  }

  /** The same requests, in whatever phase. */
  predicate SameRequests(a: seq<Request>, b: seq<Request>) {
    |b| == |a| && forall i | 0 <= i < |a| :: b[i].token == a[i].token && b[i].now == a[i].now
  }

  lemma SpacingStays(a: seq<Request>, b: seq<Request>, token: Token, login: int, gap: int)
    requires SameRequests(a, b) && SpacedRequests(a, token, login, gap)
    ensures SpacedRequests(b, token, login, gap) && Reading(b, token, |b|, login) == Reading(a, token, |a|, login)
  {
    ReadingStays(a, b, token, |a|, login);
    forall i | 0 <= i < |b| && b[i].token == token
      ensures Reading(b, token, i, login) <= b[i].now <= Reading(b, token, i, login) + gap
    {
      ReadingStays(a, b, token, i, login);
    }
  }

  /** A step that leaves the session and the phases of its requests alone. */
  lemma ElsewhereKeeps(cfg: Config, s: State, s': State, token: Token, lag: int, gap: int)
    requires SpacingInv(cfg, s, token, lag, gap) && SameRequests(s.requests, s'.requests) && s.now <= s'.now
    requires forall i | 0 <= i < |s.requests| && s.requests[i].token == token :: s'.requests[i] == s.requests[i]
    requires token in s'.sessions <==> token in s.sessions
    requires token in s.sessions ==> s'.sessions[token] == s.sessions[token]
    requires token in s'.issued <==> token in s.issued
    requires token in s.issued ==> s'.issued[token] == s.issued[token]
    ensures SpacingInv(cfg, s', token, lag, gap)
  {
    if token in s.issued {
      SpacingStays(s.requests, s'.requests, token, LoginOf(cfg, s, token), gap);
    }
  }

  lemma OwnLoginKeeps(cfg: Config, s: State, token: Token, lag: int, gap: int)
    requires Fits(cfg, lag, gap) && SpacingInv(cfg, s, token, lag, gap) && token !in s.issued
    ensures SpacingInv(cfg, LoginStep(cfg, s, token), token, lag, gap)
  {
  }

  /** The cleanup of another login drops the session only when it may be gone. */
  lemma CleanupKeeps(cfg: Config, s: State, other: Token, token: Token, lag: int, gap: int)
    requires Fits(cfg, lag, gap) && SpacingInv(cfg, s, token, lag, gap) && Timely(s, token, lag) && Inv(cfg, s)
    requires other != token && token in s.issued && token in s.sessions && !Usable(s.sessions[token], s.now)
    ensures SpacingInv(cfg, LoginStep(cfg, s, other), token, lag, gap)
  {
    var s' := LoginStep(cfg, s, other);
    assert Issued(cfg, s.issued, token, s.sessions[token]);
    forall i | 0 <= i < |s.requests| && s.requests[i].token == token && Unfinished(s.requests[i])
      ensures s.requests[i].now + lag >= s.issued[token]
    {
      AtWorkIsProtected(cfg, s, token, lag, gap, i);
    }
    DeadlineFollows(cfg, s, token, lag, gap, |s.requests|);
    ReadingIsPast(cfg, s, token, |s.requests|);
  }

  lemma BeginKeeps(cfg: Config, s: State, token: Token, lag: int, gap: int)
    requires Fits(cfg, lag, gap) && SpacingInv(cfg, s, token, lag, gap)
    requires Undisturbed(cfg, s, Begin(token), token, gap)
    ensures SpacingInv(cfg, Next(cfg, s, Begin(token)), token, lag, gap)
  {
    var s' := Next(cfg, s, Begin(token));
    var login := LoginOf(cfg, s, token);
    ReadingStays(s.requests, s'.requests, token, |s.requests|, login);
    ReadingIsPast(cfg, s, token, |s.requests|);
    forall i | 0 <= i < |s'.requests| && s'.requests[i].token == token
      ensures Reading(s'.requests, token, i, login) <= s'.requests[i].now
      ensures s'.requests[i].now <= Reading(s'.requests, token, i, login) + gap
    {
      ReadingStays(s.requests, s'.requests, token, i, login);
    }
  }

  lemma {:induction false} ReadingIsPast(cfg: Config, s: State, token: Token, n: nat)
    requires token in s.issued && LoginOf(cfg, s, token) <= s.now && InThePast(s, token) && n <= |s.requests|
    ensures Reading(s.requests, token, n, LoginOf(cfg, s, token)) <= s.now
  {
    if n > 0 {
      ReadingIsPast(cfg, s, token, n - 1);
    }
  }

  lemma OtherBeginKeeps(cfg: Config, s: State, other: Token, token: Token, lag: int, gap: int)
    requires SpacingInv(cfg, s, token, lag, gap) && other != token
    ensures SpacingInv(cfg, Next(cfg, s, Begin(other)), token, lag, gap)
  {
    var s' := Next(cfg, s, Begin(other));
    if token in s.issued {
      var login := LoginOf(cfg, s, token);
      ReadingStays(s.requests, s'.requests, token, |s.requests|, login);
      forall i | 0 <= i < |s'.requests| && s'.requests[i].token == token
        ensures Reading(s'.requests, token, i, login) <= s'.requests[i].now
        ensures s'.requests[i].now <= Reading(s'.requests, token, i, login) + gap
      {
        ReadingStays(s.requests, s'.requests, token, i, login);
      }
    }
  }

  /** A refresh that lands within `lag` of its clock reading keeps the deadline ahead. */
  lemma RefreshStaysAhead(cfg: Config, s: State, token: Token, lag: int, gap: int, i: nat, s': State)
    requires Fits(cfg, lag, gap) && SpacingInv(cfg, s, token, lag, gap) && Timely(s, token, lag)
    requires i < |s.requests| && s.requests[i].token == token && Unfinished(s.requests[i]) && token in s.issued
    requires SameRequests(s.requests, s'.requests) && s'.issued == s.issued
    requires token in s'.sessions && s'.sessions[token].lastSeen == s.requests[i].now
    ensures Ahead(cfg, s', token)
  {
  }

  /** One request moves on, and the session stays as it is or ahead. */
  lemma PhaseKeeps(cfg: Config, s: State, s': State, token: Token, lag: int, gap: int, i: nat)
    requires SpacingInv(cfg, s, token, lag, gap) && token in s.issued
    requires i < |s.requests| && s.requests[i].token == token && Unfinished(s.requests[i])
    requires SameRequests(s.requests, s'.requests) && s'.issued == s.issued && s'.now == s.now
    requires forall d | 0 <= d < |s.requests| && d != i :: s'.requests[d] == s.requests[d]
    requires s'.requests[i].phase.Refused? ==> s.requests[i].now + lag >= s.issued[token]
    requires token in s'.sessions <==> token in s.sessions
    requires token in s'.sessions ==> Ahead(cfg, s', token)
    ensures SpacingInv(cfg, s', token, lag, gap)
  {
    SpacingStays(s.requests, s'.requests, token, LoginOf(cfg, s, token), gap);
  }

  lemma LoadKeeps(cfg: Config, s: State, token: Token, lag: int, gap: int, i: nat)
    requires Fits(cfg, lag, gap) && SpacingInv(cfg, s, token, lag, gap) && Timely(s, token, lag) && Inv(cfg, s)
    requires i < |s.requests| && s.requests[i].token == token && s.requests[i].phase.Begun?
    ensures SpacingInv(cfg, LoadStep(s, i), token, lag, gap)
  {
    var s' := LoadStep(s, i);
    if s'.requests[i].phase.Refused? && s.requests[i].now + lag < s.issued[token] {
      AtWorkIsUsable(cfg, s, token, lag, gap, i);
    }
    if token in s.sessions {
      assert Issued(cfg, s.issued, token, s.sessions[token]);
    }
    PhaseKeeps(cfg, s, s', token, lag, gap, i);
  }

  lemma FinishKeepsSpacing(cfg: Config, s: State, token: Token, lag: int, gap: int, i: nat, loaded: Session)
    requires Fits(cfg, lag, gap) && SpacingInv(cfg, s, token, lag, gap) && Timely(s, token, lag) && Inv(cfg, s)
    requires i < |s.requests| && s.requests[i].token == token && s.requests[i].phase == Loaded(loaded)
    ensures SpacingInv(cfg, FinishStep(cfg, s, i, loaded), token, lag, gap)
  {
    var s' := FinishStep(cfg, s, i, loaded);
    if s'.requests[i].phase.Refused? && s.requests[i].now + lag < s.issued[token] {
      AtWorkIsUsable(cfg, s, token, lag, gap, i);
    }
    if s'.sessions != s.sessions {
      RefreshStaysAhead(cfg, s, token, lag, gap, i, s');
    }
    PhaseKeeps(cfg, s, s', token, lag, gap, i);
  }

  lemma StepKeepsSpacing(cfg: Config, s: State, step: Step, token: Token, lag: int, gap: int)
    requires Fits(cfg, lag, gap) && SpacingInv(cfg, s, token, lag, gap) && Timely(s, token, lag) && Inv(cfg, s)
    requires Undisturbed(cfg, s, step, token, gap)
    ensures SpacingInv(cfg, Next(cfg, s, step), token, lag, gap)
  {
    var s' := Next(cfg, s, step);
    match step
    case Begin(t) =>
      if t == token { BeginKeeps(cfg, s, token, lag, gap); } else { OtherBeginKeeps(cfg, s, t, token, lag, gap); }
    case Load(i) =>
      if i < |s.requests| && s.requests[i].phase.Begun? && s.requests[i].token == token {
        LoadKeeps(cfg, s, token, lag, gap, i);
      } else {
        ElsewhereKeeps(cfg, s, s', token, lag, gap);
      }
    case Finish(i) =>
      if i < |s.requests| && s.requests[i].phase.Loaded? && s.requests[i].token == token {
        FinishKeepsSpacing(cfg, s, token, lag, gap, i, s.requests[i].phase.session);
      } else {
        ElsewhereKeeps(cfg, s, s', token, lag, gap);
      }
    case Login(t) => LoginKeepsSpacing(cfg, s, t, token, lag, gap);
    case _ => ElsewhereKeeps(cfg, s, s', token, lag, gap);
  }

  lemma LoginKeepsSpacing(cfg: Config, s: State, t: Token, token: Token, lag: int, gap: int)
    requires Fits(cfg, lag, gap) && SpacingInv(cfg, s, token, lag, gap) && Timely(s, token, lag) && Inv(cfg, s)
    ensures SpacingInv(cfg, Next(cfg, s, Login(t)), token, lag, gap)
  {
    if t in s.issued {
      ElsewhereKeeps(cfg, s, s, token, lag, gap);
    } else if t == token {
      OwnLoginKeeps(cfg, s, token, lag, gap);
    } else if token in s.issued && token in s.sessions && !Usable(s.sessions[token], s.now) {
      CleanupKeeps(cfg, s, t, token, lag, gap);
    } else {
      ElsewhereKeeps(cfg, s, LoginStep(cfg, s, t), token, lag, gap);
    }
  }

  // ---------- Every run ----------

  lemma {:induction false} RunKeepsSpacing(cfg: Config, now: int, steps: seq<Step>, token: Token, lag: int, gap: int)
    requires Fits(cfg, lag, gap) && SpacedRun(cfg, now, steps, token, lag, gap)
    ensures SpacingInv(cfg, Run(cfg, Init(now), steps), token, lag, gap)
    ensures Timely(Run(cfg, Init(now), steps), token, lag)
  {
    if steps != [] {
      RunKeepsSpacing(cfg, now, steps[..|steps| - 1], token, lag, gap);
      RunKeeps(cfg, now, steps[..|steps| - 1]);
      StepKeepsSpacing(cfg, Run(cfg, Init(now), steps[..|steps| - 1]), steps[|steps| - 1], token, lag, gap);
    }
  }

  /**
    However the requests of a session overlap: if each finishes within `lag` of
    its clock reading, each follows the one before within `gap`, and both fit
    into half of the idle time, then none is refused before the absolute
    deadline.
   */
  lemma SpacedRequestsAreServed(cfg: Config, now: int, steps: seq<Step>, token: Token, lag: int, gap: int, i: nat)
    requires Fits(cfg, lag, gap) && SpacedRun(cfg, now, steps, token, lag, gap)
    ensures !TurnedAway(Run(cfg, Init(now), steps), token, i, lag)
  {
    RunKeepsSpacing(cfg, now, steps, token, lag, gap);
  }

  // ---------- The bound is exact ----------

  lemma SpacedAppend(cfg: Config, steps: seq<Step>, step: Step, lag: int, gap: int)
    requires SpacedRun(cfg, 0, steps, 0, lag, gap)
    requires Undisturbed(cfg, Run(cfg, Init(0), steps), step, 0, gap)
    requires Timely(Next(cfg, Run(cfg, Init(0), steps), step), 0, lag)
    ensures Run(cfg, Init(0), steps + [step]) == Next(cfg, Run(cfg, Init(0), steps), step)
    ensures SpacedRun(cfg, 0, steps + [step], 0, lag, gap)
  {
    assert (steps + [step])[..|steps|] == steps;
  }

  /** All requests are of session 0, whose row is still as the login at time 0 left it. */
  ghost predicate Untouched(cfg: Config, s: State) {
    && s.sessions == map[0 := Started(cfg, 0)] && s.issued == map[0 := cfg.absolute] && s.now >= 0
    && forall i | 0 <= i < |s.requests| :: s.requests[i].token == 0
  }

  /** The steps of a request that comes `d` later and loads its row. */
  function Arrival(steps: seq<Step>, d: nat, i: nat): seq<Step> {
    steps + [Tick(d)] + [Begin(0)] + [Load(i)]
  }

  function LastReading(s: State): int {
    Reading(s.requests, 0, |s.requests|, 0)
  }

  lemma TickArrives(cfg: Config, steps: seq<Step>, d: nat, lag: int, gap: int, s: State)
    requires SpacedRun(cfg, 0, steps, 0, lag, gap) && s == Run(cfg, Init(0), steps)
    requires forall i | 0 <= i < |s.requests| && Unfinished(s.requests[i]) :: s.now + d <= s.requests[i].now + lag
    ensures SpacedRun(cfg, 0, steps + [Tick(d)], 0, lag, gap)
    ensures Run(cfg, Init(0), steps + [Tick(d)]) == s.(now := s.now + d)
  {
    SpacedAppend(cfg, steps, Tick(d), lag, gap);
  }

  lemma BeginArrives(cfg: Config, steps: seq<Step>, lag: int, gap: int, s: State)
    requires SpacedRun(cfg, 0, steps, 0, lag, gap) && s == Run(cfg, Init(0), steps) && Untouched(cfg, s) && 0 <= lag
    requires s.now <= LastReading(s) + gap && Timely(s, 0, lag)
    ensures SpacedRun(cfg, 0, steps + [Begin(0)], 0, lag, gap)
    ensures Run(cfg, Init(0), steps + [Begin(0)]) == s.(requests := s.requests + [Request(0, s.now, Begun)])
  {
    SpacedAppend(cfg, steps, Begin(0), lag, gap);
  }

  lemma LoadArrives(cfg: Config, steps: seq<Step>, i: nat, lag: int, gap: int, s: State)
    requires SpacedRun(cfg, 0, steps, 0, lag, gap) && s == Run(cfg, Init(0), steps) && Untouched(cfg, s)
    requires i < |s.requests| && s.requests[i].phase.Begun? && Timely(s, 0, lag)
    ensures SpacedRun(cfg, 0, steps + [Load(i)], 0, lag, gap)
    ensures Run(cfg, Init(0), steps + [Load(i)])
            == To(s, i, if Usable(Started(cfg, 0), s.requests[i].now) then Loaded(Started(cfg, 0)) else Refused)
  {
    SpacedAppend(cfg, steps, Load(i), lag, gap);
  }

  /** The request of an arrival at time `now`. */
  function Arrived(cfg: Config, now: int): Request {
    Request(0, now, if Usable(Started(cfg, 0), now) then Loaded(Started(cfg, 0)) else Refused)
  }

  lemma Arrives(cfg: Config, steps: seq<Step>, d: nat, lag: int, gap: int, s: State)
    requires SpacedRun(cfg, 0, steps, 0, lag, gap) && s == Run(cfg, Init(0), steps) && Untouched(cfg, s) && 0 <= lag
    requires s.now + d <= LastReading(s) + gap
    requires forall i | 0 <= i < |s.requests| && Unfinished(s.requests[i]) :: s.now + d <= s.requests[i].now + lag
    ensures SpacedRun(cfg, 0, Arrival(steps, d, |s.requests|), 0, lag, gap)
    ensures Run(cfg, Init(0), Arrival(steps, d, |s.requests|))
            == s.(now := s.now + d, requests := s.requests + [Arrived(cfg, s.now + d)])
  {
    var a := s.(now := s.now + d);
    TickArrives(cfg, steps, d, lag, gap, s);
    BeginArrives(cfg, steps + [Tick(d)], lag, gap, a);
    LoadArrives(cfg, steps + [Tick(d)] + [Begin(0)], |s.requests|, lag, gap,
                a.(requests := s.requests + [Request(0, a.now, Begun)]));
  }

  /** Login at 0, then a request at each of the times 1 to n, each served without a refresh. */
  function Warm(n: nat): seq<Step> {
    if n == 0 then [Login(0)] else Arrival(Warm(n - 1), 1, n - 1) + [Finish(n - 1)]
  }

  ghost predicate Warmed(cfg: Config, s: State, n: nat) {
    && Untouched(cfg, s) && s.now == n && |s.requests| == n && LastReading(s) == n
    && forall i | 0 <= i < n :: s.requests[i].phase.Served?
  }

  /** The last request is served without a refresh. */
  lemma WarmFinish(cfg: Config, steps: seq<Step>, n: nat, lag: int, gap: int, s: State)
    requires ValidConfig(cfg) && 0 <= lag && 0 < n < cfg.idle - cfg.idle / 2
    requires SpacedRun(cfg, 0, steps, 0, lag, gap) && s == Run(cfg, Init(0), steps) && Untouched(cfg, s) && s.now == n
    requires |s.requests| == n && s.requests[n - 1] == Request(0, n, Loaded(Started(cfg, 0)))
    requires forall i | 0 <= i < n - 1 :: s.requests[i].phase.Served?
    ensures SpacedRun(cfg, 0, steps + [Finish(n - 1)], 0, lag, gap)
    ensures Warmed(cfg, Run(cfg, Init(0), steps + [Finish(n - 1)]), n)
  {
    var s' := Next(cfg, s, Finish(n - 1));
    assert s' == To(s, n - 1, Served(Started(cfg, 0)));
    SpacedAppend(cfg, steps, Finish(n - 1), lag, gap);
  }

  lemma WarmStart(cfg: Config, lag: int, gap: int)
    requires ValidConfig(cfg)
    ensures SpacedRun(cfg, 0, [Login(0)], 0, lag, gap) && Warmed(cfg, Run(cfg, Init(0), [Login(0)]), 0)
  {
    SpacedAppend(cfg, [], Login(0), lag, gap);
    assert [] + [Login(0)] == [Login(0)];
  }

  lemma WarmRound(cfg: Config, steps: seq<Step>, n: nat, lag: int, gap: int)
    requires ValidConfig(cfg) && 0 <= lag && 0 < gap && 0 < n < cfg.idle - cfg.idle / 2
    requires SpacedRun(cfg, 0, steps, 0, lag, gap) && Warmed(cfg, Run(cfg, Init(0), steps), n - 1)
    ensures SpacedRun(cfg, 0, Arrival(steps, 1, n - 1) + [Finish(n - 1)], 0, lag, gap)
    ensures Warmed(cfg, Run(cfg, Init(0), Arrival(steps, 1, n - 1) + [Finish(n - 1)]), n)
  {
    var s := Run(cfg, Init(0), steps);
    Arrives(cfg, steps, 1, lag, gap, s);
    WarmFinish(cfg, Arrival(steps, 1, n - 1), n, lag, gap, s.(now := n, requests := s.requests + [Arrived(cfg, n)]));
  }

  lemma {:induction false} WarmIsSpaced(cfg: Config, n: nat, lag: int, gap: int)
    requires ValidConfig(cfg) && 0 <= lag && 0 < gap && n < cfg.idle - cfg.idle / 2
    ensures SpacedRun(cfg, 0, Warm(n), 0, lag, gap) && Warmed(cfg, Run(cfg, Init(0), Warm(n)), n)
  {
    if n == 0 {
      WarmStart(cfg, lag, gap);
    } else {
      WarmIsSpaced(cfg, n - 1, lag, gap);
      WarmRound(cfg, Warm(n - 1), n, lag, gap);
    }
  }

  /** Then a request after a pause of `d`, and m more, one time unit apart, none of which has finished. */
  function Waiting(n: nat, d: nat, m: nat): seq<Step> {
    if m == 0 then Arrival(Warm(n), d, n) else Arrival(Waiting(n, d, m - 1), 1, n + m)
  }

  ghost predicate Awaited(cfg: Config, s: State, n: nat, d: nat, m: nat) {
    && Untouched(cfg, s) && s.now == n + d + m && |s.requests| == n + m + 1 && LastReading(s) == s.now
    && s.requests[n + m].now == s.now && (s.requests[n + m].phase.Refused? <==> s.now >= cfg.idle)
    && forall i | 0 <= i <= n + m && Unfinished(s.requests[i]) :: n + d <= s.requests[i].now
  }

  lemma OneMoreAwaited(cfg: Config, s: State, s': State, n: nat, d: nat, m: nat)
    requires Untouched(cfg, s) && |s.requests| == n + m && n + d + m < cfg.absolute
    requires s' == s.(now := n + d + m, requests := s.requests + [Arrived(cfg, n + d + m)])
    requires forall i | 0 <= i < n + m && Unfinished(s.requests[i]) :: n + d <= s.requests[i].now
    ensures Awaited(cfg, s', n, d, m)
  {
  }

  lemma WaitingRound(cfg: Config, steps: seq<Step>, n: nat, d: nat, m: nat, lag: int, gap: int)
    requires ValidConfig(cfg) && 0 < gap && 0 < m <= lag && n + d + m < cfg.absolute
    requires SpacedRun(cfg, 0, steps, 0, lag, gap) && Awaited(cfg, Run(cfg, Init(0), steps), n, d, m - 1)
    ensures SpacedRun(cfg, 0, Arrival(steps, 1, n + m), 0, lag, gap)
    ensures Awaited(cfg, Run(cfg, Init(0), Arrival(steps, 1, n + m)), n, d, m)
  {
    var s := Run(cfg, Init(0), steps);
    Arrives(cfg, steps, 1, lag, gap, s);
    OneMoreAwaited(cfg, s, Run(cfg, Init(0), Arrival(steps, 1, n + m)), n, d, m);
  }

  lemma WaitingStart(cfg: Config, steps: seq<Step>, n: nat, d: nat, lag: int, gap: int)
    requires ValidConfig(cfg) && 0 <= lag && d <= gap && n + d < cfg.absolute
    requires SpacedRun(cfg, 0, steps, 0, lag, gap) && Warmed(cfg, Run(cfg, Init(0), steps), n)
    ensures SpacedRun(cfg, 0, Arrival(steps, d, n), 0, lag, gap)
    ensures Awaited(cfg, Run(cfg, Init(0), Arrival(steps, d, n)), n, d, 0)
  {
    var s := Run(cfg, Init(0), steps);
    Arrives(cfg, steps, d, lag, gap, s);
    OneMoreAwaited(cfg, s, Run(cfg, Init(0), Arrival(steps, d, n)), n, d, 0);
  }

  lemma {:induction false} WaitingIsSpaced(cfg: Config, n: nat, d: nat, m: nat, lag: int, gap: int)
    requires ValidConfig(cfg) && 0 <= lag && 0 < gap && n < cfg.idle - cfg.idle / 2
    requires d <= gap && m <= lag && n + d + m < cfg.absolute
    ensures SpacedRun(cfg, 0, Waiting(n, d, m), 0, lag, gap)
    ensures Awaited(cfg, Run(cfg, Init(0), Waiting(n, d, m)), n, d, m)
  {
    if m == 0 {
      WarmIsSpaced(cfg, n, lag, gap);
      WaitingStart(cfg, Warm(n), n, d, lag, gap);
    } else {
      WaitingIsSpaced(cfg, n, d, m - 1, lag, gap);
      WaitingRound(cfg, Waiting(n, d, m - 1), n, d, m, lag, gap);
    }
  }

  lemma LastIsTurnedAway(cfg: Config, s: State, n: nat, d: nat, m: nat, lag: int)
    requires Awaited(cfg, s, n, d, m) && n + d + m == cfg.idle && cfg.idle + lag < cfg.absolute
    ensures TurnedAway(s, 0, n + m, lag)
  {
  }

  /**
    The bound is exact. Whenever lag and gap together exceed half of the idle
    time, there is a run that keeps to both in which a request is refused
    although the absolute deadline is far: with requests just half the idle time
    apart, any lag at all is enough.
   */
  lemma WiderSpacingIsRefused(cfg: Config, lag: int, gap: int) returns (steps: seq<Step>, i: nat)
    requires ValidConfig(cfg) && 0 <= lag && 0 < gap && cfg.idle / 2 < lag + gap && cfg.idle + lag < cfg.absolute
    ensures SpacedRun(cfg, 0, steps, 0, lag, gap) && TurnedAway(Run(cfg, Init(0), steps), 0, i, lag)
  {
    var half := cfg.idle / 2;
    var n := cfg.idle - half - 1;
    var m := if lag <= half then lag else half;
    var d := half + 1 - m;
    steps, i := Waiting(n, d, m), n + m;
    WaitingIsSpaced(cfg, n, d, m, lag, gap);
    LastIsTurnedAway(cfg, Run(cfg, Init(0), steps), n, d, m, lag);
  }
}
