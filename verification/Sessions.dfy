/**
  Admin sessions (internal/webadmin/auth.go and the session statements of
  internal/store/postgres/queries.go): an idle deadline that requests push
  forward, and an absolute deadline that nothing moves. Requests of one session
  may overlap: each takes its own clock reading, loads the row, and refreshes it
  later. Times and durations are nanoseconds.
 */
module Sessions {
  import opened Options

  type Token = nat

  datatype Config = Config(idle: int, absolute: int)

  /** What the configuration validator demands. */
  predicate ValidConfig(cfg: Config) {
    0 < cfg.idle <= cfg.absolute
  }

  datatype Session = Session(lastSeen: int, expires: int, absolute: int)

  function Min(a: int, b: int): int {
    if a < b then a else b
  }

  // ---------- The statements ----------

  function Started(cfg: Config, now: int): Session {
    Session(now, now + cfg.idle, now + cfg.absolute)
  }

  predicate Usable(s: Session, now: int) {
    s.expires > now && s.absolute > now
  }

  /** Less than half of the idle time is left. */
  predicate Due(cfg: Config, s: Session, now: int) {
    s.expires - now <= cfg.idle / 2
  }

  function Proposed(cfg: Config, s: Session, now: int): int {
    if s.absolute < now + cfg.idle then s.absolute else now + cfg.idle
  }

  function Refreshed(s: Session, now: int, expires: int): Session {
    s.(lastSeen := now, expires := Min(expires, s.absolute))
  }

  /** The row after an accepted request. */
  function AfterRequest(cfg: Config, s: Session, now: int): Session {
    if Due(cfg, s, now) then Refreshed(s, now, Proposed(cfg, s, now)) else s
  }

  /** An insert first deletes the sessions that no request could use any more. */
  function Inserted(sessions: map<Token, Session>, token: Token, s: Session, now: int): map<Token, Session> {
    (map t | t in sessions && Usable(sessions[t], now) :: sessions[t])[token := s]
  }

  lemma CleanupDropsOnlyTheDead(sessions: map<Token, Session>, token: Token, s: Session, now: int, t: Token, later: int)
    requires now <= later && t != token
    ensures t in sessions && Usable(sessions[t], later)
            <==> t in Inserted(sessions, token, s, now) && Usable(Inserted(sessions, token, s, now)[t], later)
  {
  }

  // ---------- One request at a time ----------

  datatype Outcome = Accepted(session: Session) | Unauthenticated | StoreError

  /** What a request meets: whether the key and the identity still hold, and which store calls work. */
  datatype Env = Env(keyEnabled: bool, identityHolds: bool, loadWorks: bool, deleteWorks: bool, refreshWorks: bool)

  /** Every row's idle deadline is its last login or refresh plus the idle time, cut at the absolute deadline. */
  predicate RowInv(cfg: Config, s: Session) {
    s.expires == Min(s.lastSeen + cfg.idle, s.absolute)
  }

  class SessionManager {
    const cfg: Config
    var sessions: map<Token, Session>

    ghost predicate Valid()
      reads this
    {
      ValidConfig(cfg) && forall t | t in sessions :: RowInv(cfg, sessions[t])
    }

    constructor (cfg: Config)
      requires ValidConfig(cfg)
      ensures Valid() && this.cfg == cfg && sessions == map[]
    {
      this.cfg := cfg;
      sessions := map[];
    }

    /**
      A login replaces the session of the request, if it carries one. Deleting and
      inserting are two statements: a failed delete changes nothing, and a failed
      insert leaves the old session deleted.
     */
    method StartSession(previous: Option<Token>, token: Token, now: int, deleteWorks: bool, insertWorks: bool)
      returns (ok: bool)
      requires Valid()
      modifies this
      ensures Valid()
      ensures ok <==> (previous.Some? ==> deleteWorks) && insertWorks
      ensures ok ==> token in sessions && sessions[token] == Started(cfg, now)
      ensures ok ==> forall t | t != token ::
                t in sessions <==> t in old(sessions) && Usable(old(sessions)[t], now) && previous != Some(t)
      ensures !ok ==> forall t ::
                t in sessions <==> t in old(sessions) && (deleteWorks ==> previous != Some(t))
      ensures forall t | t in sessions && !(ok && t == token) :: sessions[t] == old(sessions)[t]
    {
      if previous.Some? {
        if !deleteWorks {
          return false;
        }
        sessions := sessions - {previous.value};
      }
      if !insertWorks {
        return false;
      }
      sessions := Inserted(sessions, token, Started(cfg, now), now);
      return true;
    }

    /**
      A request is accepted exactly when its session is usable, key and identity
      hold and the store works as far as it is needed. Its session's deadline
      then never moves back and never passes the absolute one, and no other
      session changes.
     */
    method Authenticate(token: Token, now: int, e: Env) returns (r: Outcome)
      requires Valid()
      modifies this
      ensures Valid()
      ensures r.Accepted? <==>
                && token in old(sessions) && Usable(old(sessions)[token], now)
                && e.keyEnabled && e.identityHolds && e.loadWorks
                && (Due(cfg, old(sessions)[token], now) ==> e.refreshWorks)
      ensures r.Accepted? ==>
                && token in sessions && r.session == sessions[token]
                && sessions[token] == AfterRequest(cfg, old(sessions)[token], now)
                && old(sessions)[token].expires <= sessions[token].expires <= sessions[token].absolute
      ensures forall t | t != token :: t in sessions <==> t in old(sessions)
      ensures forall t | t != token && t in sessions :: sessions[t] == old(sessions)[t]
    {
      if !e.loadWorks {
        return StoreError;
      }
      if token !in sessions || !Usable(sessions[token], now) || !e.keyEnabled {
        return Unauthenticated;
      }
      var s := sessions[token];
      if !e.identityHolds {
        if !e.deleteWorks {
          return StoreError;
        }
        sessions := sessions - {token};
        return Unauthenticated;
      }
      if s.expires - now <= cfg.idle / 2 {
        var expires := now + cfg.idle;
        if s.absolute < expires {
          expires := s.absolute;
        }
        if !e.refreshWorks {
          return Unauthenticated;
        }
        sessions := sessions[token := Refreshed(s, now, expires)];
        s := s.(lastSeen := now, expires := expires);
      }
      return Accepted(s);
    }
  }

  // ---------- Sequences of requests ----------

  /** Every request of the sequence finds the session usable. */
  predicate AllAccepted(cfg: Config, s: Session, times: seq<int>)
    decreases |times|
  {
    times == [] || (Usable(s, times[0]) && AllAccepted(cfg, AfterRequest(cfg, s, times[0]), times[1..]))
  }

  /** From `last` on, times never go back and are at most `gap` apart. */
  predicate Spaced(last: int, times: seq<int>, gap: int)
    decreases |times|
  {
    times == [] || (last <= times[0] <= last + gap && Spaced(times[0], times[1..], gap))
  }

  /** More than half of the idle time was left at `now`, or only the absolute deadline counts. */
  predicate Alive(cfg: Config, s: Session, now: int) {
    s.expires == s.absolute || s.expires - now > cfg.idle / 2
  }

  lemma RequestKeepsAlive(cfg: Config, s: Session, now: int)
    requires ValidConfig(cfg) && RowInv(cfg, s) && Usable(s, now)
    ensures var s' := AfterRequest(cfg, s, now);
            && RowInv(cfg, s') && Alive(cfg, s', now) && s'.absolute == s.absolute
            && s.expires <= s'.expires <= s'.absolute && now - s.lastSeen < cfg.idle
  {
  }

  lemma {:induction false} SpacedRequestsStayAccepted(cfg: Config, s: Session, last: int, times: seq<int>)
    requires ValidConfig(cfg) && RowInv(cfg, s) && Alive(cfg, s, last)
    requires Spaced(last, times, cfg.idle / 2) && forall t | t in times :: t < s.absolute
    ensures AllAccepted(cfg, s, times)
    decreases |times|
  {
    if times != [] {
      assert times[0] in times && forall t | t in times[1..] :: t in times;
      RequestKeepsAlive(cfg, s, times[0]);
      SpacedRequestsStayAccepted(cfg, AfterRequest(cfg, s, times[0]), times[0], times[1..]);
    }
  }

  /** From login on, requests at most half the idle time apart are all accepted until the absolute deadline. */
  lemma SpacedRequestsAreAccepted(cfg: Config, login: int, times: seq<int>)
    requires ValidConfig(cfg) && Spaced(login, times, cfg.idle / 2)
    requires forall t | t in times :: t < login + cfg.absolute
    ensures AllAccepted(cfg, Started(cfg, login), times)
  {
    SpacedRequestsStayAccepted(cfg, Started(cfg, login), login, times);
  }

  // ---------- Overlapping requests ----------

  datatype Phase = Begun | Loaded(session: Session) | Served(session: Session) | Refused

  /** A request with the clock reading it works with. */
  datatype Request = Request(token: Token, now: int, phase: Phase)

  /** `issued` gives the absolute deadline of every token ever handed out; tokens are random and never repeat. */
  datatype State = State(now: int, sessions: map<Token, Session>, issued: map<Token, int>, requests: seq<Request>)

  datatype Step =
    | Tick(d: nat)
    | Login(token: Token)
    | Begin(token: Token)
    | Load(i: nat)
    | Finish(i: nat)
    | Fail(i: nat)
    | Delete(token: Token)

  function To(s: State, i: nat, phase: Phase): State
    requires i < |s.requests|
  {
    s.(requests := s.requests[i := s.requests[i].(phase := phase)])
  }

  function LoginStep(cfg: Config, s: State, token: Token): State {
    s.(sessions := Inserted(s.sessions, token, Started(cfg, s.now), s.now),
       issued := s.issued[token := s.now + cfg.absolute])
  }

  function LoadStep(s: State, i: nat): State
    requires i < |s.requests|
  {
    var r := s.requests[i];
    if r.token in s.sessions && Usable(s.sessions[r.token], r.now) then To(s, i, Loaded(s.sessions[r.token]))
    else To(s, i, Refused)
  }

  /** A session that is due is refreshed if its row is still usable; the row may have moved on since the load. */
  function FinishStep(cfg: Config, s: State, i: nat, loaded: Session): State
    requires i < |s.requests|
  {
    var r := s.requests[i];
    if !Due(cfg, loaded, r.now) then To(s, i, Served(loaded))
    else if r.token !in s.sessions || !Usable(s.sessions[r.token], r.now) then To(s, i, Refused)
    else
      var row := Refreshed(s.sessions[r.token], r.now, Proposed(cfg, loaded, r.now));
      To(s.(sessions := s.sessions[r.token := row]), i, Served(loaded))
  }

  /** A step that is not enabled changes nothing; Fail stands for a failing store, key or identity check. */
  function Next(cfg: Config, s: State, step: Step): State {
    match step
    case Tick(d) => s.(now := s.now + d)
    case Login(token) => if token in s.issued then s else LoginStep(cfg, s, token)
    case Begin(token) => s.(requests := s.requests + [Request(token, s.now, Begun)])
    case Load(i) => if i < |s.requests| && s.requests[i].phase.Begun? then LoadStep(s, i) else s
    case Finish(i) =>
      if i < |s.requests| && s.requests[i].phase.Loaded? then FinishStep(cfg, s, i, s.requests[i].phase.session) else s
    case Fail(i) => if i < |s.requests| && !s.requests[i].phase.Served? then To(s, i, Refused) else s
    case Delete(token) => s.(sessions := s.sessions - {token})
  }

  function Run(cfg: Config, s: State, steps: seq<Step>): State {
    if steps == [] then s else Next(cfg, Run(cfg, s, steps[..|steps| - 1]), steps[|steps| - 1])
  }

  function Init(now: int): State {
    State(now, map[], map[], [])
  }

  predicate Issued(cfg: Config, issued: map<Token, int>, t: Token, s: Session) {
    RowInv(cfg, s) && t in issued && s.absolute == issued[t]
  }

  predicate RequestInv(cfg: Config, issued: map<Token, int>, r: Request) {
    match r.phase
    case Loaded(s) => Usable(s, r.now) && Issued(cfg, issued, r.token, s)
    case Served(s) => Usable(s, r.now) && Issued(cfg, issued, r.token, s)
    case Begun => true
    case Refused => true
  }

  ghost predicate Inv(cfg: Config, s: State) {
    && (forall t | t in s.sessions :: Issued(cfg, s.issued, t, s.sessions[t]))
    && (forall i | 0 <= i < |s.requests| :: RequestInv(cfg, s.issued, s.requests[i]))
  }

  lemma LoginKeeps(cfg: Config, s: State, token: Token)
    requires ValidConfig(cfg) && Inv(cfg, s) && token !in s.issued
    ensures Inv(cfg, LoginStep(cfg, s, token))
  {
    var s' := LoginStep(cfg, s, token);
    forall i | 0 <= i < |s'.requests|
      ensures RequestInv(cfg, s'.issued, s'.requests[i])
    {
      assert RequestInv(cfg, s.issued, s.requests[i]);
    }
  }

  /** Whatever it loaded, a refresh ties the row's deadline to its own clock reading. */
  lemma FinishKeeps(cfg: Config, s: State, i: nat, loaded: Session)
    requires Inv(cfg, s) && i < |s.requests| && s.requests[i].phase == Loaded(loaded)
    ensures Inv(cfg, FinishStep(cfg, s, i, loaded))
  {
    assert RequestInv(cfg, s.issued, s.requests[i]);
    var r := s.requests[i];
    if r.token in s.sessions {
      assert Issued(cfg, s.issued, r.token, s.sessions[r.token]);
      assert Issued(cfg, s.issued, r.token, Refreshed(s.sessions[r.token], r.now, Proposed(cfg, loaded, r.now)));
    }
  }

  lemma NextKeeps(cfg: Config, s: State, step: Step)
    requires ValidConfig(cfg) && Inv(cfg, s)
    ensures Inv(cfg, Next(cfg, s, step))
  {
    match step
    case Tick(_) =>
    case Login(token) => if token !in s.issued { LoginKeeps(cfg, s, token); }
    case Begin(_) =>
    case Load(_) =>
    case Finish(i) =>
      if i < |s.requests| && s.requests[i].phase.Loaded? {
        FinishKeeps(cfg, s, i, s.requests[i].phase.session);
      }
    case Fail(_) =>
    case Delete(_) =>
  }

  lemma {:induction false} RunKeeps(cfg: Config, now: int, steps: seq<Step>)
    requires ValidConfig(cfg)
    ensures Inv(cfg, Run(cfg, Init(now), steps))
  {
    if steps != [] {
      RunKeeps(cfg, now, steps[..|steps| - 1]);
      NextKeeps(cfg, Run(cfg, Init(now), steps[..|steps| - 1]), steps[|steps| - 1]);
    }
  }

  /**
    However requests overlap, a deadline is the last login or refresh plus the idle
    time and never passes the absolute one.
   */
  lemma DeadlinesHold(cfg: Config, now: int, steps: seq<Step>, t: Token)
    requires ValidConfig(cfg)
    ensures var s := Run(cfg, Init(now), steps);
            t in s.sessions ==>
              && t in s.issued && s.sessions[t].absolute == s.issued[t]
              && s.sessions[t].expires == Min(s.sessions[t].lastSeen + cfg.idle, s.issued[t])
  {
    RunKeeps(cfg, now, steps);
  }

  /**
    A request is served only within the idle time of the login or refresh it saw, and
    before the token's absolute deadline.
   */
  lemma ServedWithinIdle(cfg: Config, now: int, steps: seq<Step>, i: nat)
    requires ValidConfig(cfg)
    ensures var s := Run(cfg, Init(now), steps);
            i < |s.requests| && s.requests[i].phase.Served? ==>
              var r := s.requests[i];
              && r.now - r.phase.session.lastSeen < cfg.idle
              && r.token in s.issued && r.now < s.issued[r.token]
  {
    RunKeeps(cfg, now, steps);
    var s := Run(cfg, Init(now), steps);
    if i < |s.requests| {
      assert RequestInv(cfg, s.issued, s.requests[i]);
    }
  }

  /** Finishing request i refreshes its row. */
  predicate RefreshesNow(cfg: Config, s: State, i: nat) {
    && i < |s.requests| && s.requests[i].phase.Loaded? && s.requests[i].token in s.sessions
    && Usable(s.sessions[s.requests[i].token], s.requests[i].now)
    && Due(cfg, s.requests[i].phase.session, s.requests[i].now)
  }

  /**
    A refresh moves a deadline back exactly when a request with a later clock
    reading refreshed the row first and the absolute deadline is not near.
   */
  lemma RefreshMovesBackIff(cfg: Config, now: int, steps: seq<Step>, i: nat)
    requires ValidConfig(cfg)
    ensures var s := Run(cfg, Init(now), steps);
            RefreshesNow(cfg, s, i) ==>
              var r, row := s.requests[i], s.sessions[s.requests[i].token];
              var s' := Next(cfg, s, Finish(i));
              && r.token in s'.sessions
              && (s'.sessions[r.token].expires < row.expires <==>
                    r.now < row.lastSeen && r.now + cfg.idle < row.absolute)
  {
    RunKeeps(cfg, now, steps);
    var s := Run(cfg, Init(now), steps);
    if i < |s.requests| && s.requests[i].phase.Loaded? && s.requests[i].token in s.sessions {
      assert RequestInv(cfg, s.issued, s.requests[i]);
      assert Issued(cfg, s.issued, s.requests[i].token, s.sessions[s.requests[i].token]);
    }
  }

  lemma Snoc(cfg: Config, s: State, steps: seq<Step>, step: Step)
    ensures Run(cfg, s, steps + [step]) == Next(cfg, Run(cfg, s, steps), step)
  {
    assert (steps + [step])[..|steps|] == steps;
  }

  const SHORT := Config(10, 100)

  /** A row of such a session that was last refreshed at `lastSeen`. */
  function RowAt(lastSeen: int): Session {
    Session(lastSeen, lastSeen + 10, 100)
  }

  /** The session of token 0 and its requests. */
  function Visited(now: int, requests: seq<Request>): State {
    State(now, map[0 := RowAt(0)], map[0 := 100], requests)
  }

  function FirstSteps(): seq<Step> {
    [Login(0)] + [Tick(5)] + [Begin(0)] + [Load(0)]
  }

  lemma FirstLoaded()
    ensures Run(SHORT, Init(0), FirstSteps()) == Visited(5, [Request(0, 5, Loaded(RowAt(0)))])
  {
    Snoc(SHORT, Init(0), [], Login(0));
    assert [] + [Login(0)] == [Login(0)];
    assert Next(SHORT, Init(0), Login(0)) == Visited(0, []);
    Snoc(SHORT, Init(0), [Login(0)], Tick(5));
    Snoc(SHORT, Init(0), [Login(0)] + [Tick(5)], Begin(0));
    Snoc(SHORT, Init(0), [Login(0)] + [Tick(5)] + [Begin(0)], Load(0));
  }

  /** Half of the idle time is gone, and two requests have both loaded the row. */
  function OverlapSteps(): seq<Step> {
    FirstSteps() + [Tick(1)] + [Begin(0)] + [Load(1)]
  }

  lemma BothLoaded()
    ensures Run(SHORT, Init(0), OverlapSteps())
            == Visited(6, [Request(0, 5, Loaded(RowAt(0))), Request(0, 6, Loaded(RowAt(0)))])
  {
    FirstLoaded();
    Snoc(SHORT, Init(0), FirstSteps(), Tick(1));
    Snoc(SHORT, Init(0), FirstSteps() + [Tick(1)], Begin(0));
    Snoc(SHORT, Init(0), FirstSteps() + [Tick(1)] + [Begin(0)], Load(1));
  }

  /** Two overlapping requests of one session can move its deadline back: the earlier one lands last. */
  lemma OverlapCanMoveBack()
    ensures var s := Run(SHORT, Init(0), OverlapSteps() + [Finish(1)]);
            var s' := Run(SHORT, Init(0), OverlapSteps() + [Finish(1)] + [Finish(0)]);
            0 in s.sessions && s.sessions[0].expires == 16 && 0 in s'.sessions && s'.sessions[0].expires == 15
  {
    BothLoaded();
    Snoc(SHORT, Init(0), OverlapSteps(), Finish(1));
    Snoc(SHORT, Init(0), OverlapSteps() + [Finish(1)], Finish(0));
    assert Run(SHORT, Init(0), OverlapSteps() + [Finish(1)]).sessions[0] == RowAt(6);
  }
}
