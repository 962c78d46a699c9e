/**
  What callers of the API key cache can count on: an unexpired key is served at
  once, a waiter outlives a cancelled leader by one retry and otherwise gets the
  leader's reply, it may give up without disturbing anyone, and no call is ever
  stuck.
 */
module KeyCacheProgress {
  import opened Options
  import opened KeyCache
  import opened KeyCacheSafety

  lemma Snoc(s: State, steps: seq<Step>, step: Step)
    ensures Run(s, steps + [step]) == Next(Run(s, steps), step)
  {
    assert (steps + [step])[..|steps|] == steps;
  }

  lemma One(s: State, step: Step)
    ensures Run(s, [step]) == Next(s, step)
  {
    Snoc(s, [], step);
    assert [] + [step] == [step];
  }

  lemma {:induction false} RunAppend(s: State, a: seq<Step>, b: seq<Step>)
    ensures Run(s, a + b) == Run(Run(s, a), b)
  {
    if b == [] {
      assert a + b == a;
    } else {
      assert (a + b)[..|a + b| - 1] == a + b[..|b| - 1];
      RunAppend(s, a, b[..|b| - 1]);
    }
  }

  /** Only call c moved. */
  ghost predicate OthersStay(s: State, s': State, c: nat) {
    |s'.calls| == |s.calls| && forall d | 0 <= d < |s.calls| && d != c :: s'.calls[d] == s.calls[d]
  }

  // ---------- Hits ----------

  /** In every reachable state a call enters with a hit exactly if its key is cached and not expired. */
  lemma HitIffCached(now: int, steps: seq<Step>, c: nat)
    requires var s := Run(Init(now), steps); c < |s.calls| && s.calls[c].pc.Top?
    ensures var s := Run(Init(now), steps);
            var s' := Next(s, Enter(c));
            var h := s.calls[c].hash;
            && OthersStay(s, s', c)
            && (s'.calls[c].pc.ReturnedHit? <==> h in s.cache.keys && s.now < s.cache.keys[h].expires)
            && (s'.calls[c].pc.ReturnedHit? ==>
                  s'.calls[c].pc.entry == s.cache.keys[h] && s'.cache == s.cache)
            && (!s'.calls[c].pc.ReturnedHit? ==>
                  if h in s.cache.inflight then s'.calls[c].pc == Waiting(s.cache.inflight[h])
                  else s'.calls[c].pc.Leading? && h in s'.cache.inflight)
  {
    RunKeeps(now, steps);
  }

  /** A published enabled key is served to every later call of its hash until TTL after its lookup started. */
  lemma PublishedKeyIsServed(now: int, steps: seq<Step>, c: nat, canceled: bool, victim: Hash)
    requires var s := Run(Init(now), steps);
             && Enabled(s, Leave(c, canceled, victim)) && s.calls[c].pc.Read?
             && s.calls[c].pc.reply.Found? && s.calls[c].pc.reply.key.enabled
    ensures var s := Run(Init(now), steps);
            var s' := Next(s, Leave(c, canceled, victim));
            var (h, id) := (s.calls[c].hash, s.calls[c].pc.id);
            && h in s'.cache.keys && s'.cache.keys[h].key == s.calls[c].pc.reply.key
            && s'.cache.keys[h].expires == s'.cache.lookups[id].started + TTL && h !in s'.cache.inflight
  {
    RunKeeps(now, steps);
    var s := Run(Init(now), steps);
    assert CallInv(s.cache, c, s.calls[c]);
  }

  // ---------- Waiters ----------

  /**
    A woken waiter goes back for another try exactly if it is its first, its own
    caller is live, and the leader failed because its caller was cancelled;
    otherwise it returns the leader's reply. Nobody else is affected.
   */
  lemma WaiterRetriesOnce(now: int, steps: seq<Step>, c: nat, live: bool)
    requires var s := Run(Init(now), steps); Enabled(s, Wake(c, live))
    ensures var s := Run(Init(now), steps);
            var s' := Next(s, Wake(c, live));
            var l := s.cache.lookups[s.calls[c].pc.id];
            var retries := && s.calls[c].passes == 1 && live && l.callerCanceled
                           && l.reply.Some? && l.reply.value == Error(true);
            && OthersStay(s, s', c) && s'.cache == s.cache && l.hash == s.calls[c].hash
            && (s'.calls[c].pc.Top? <==> retries)
            && (!retries ==> s'.calls[c].pc == Returned(s.calls[c].pc.id, l.reply.value))
  {
    RunKeeps(now, steps);
    var s := Run(Init(now), steps);
    assert CallInv(s.cache, c, s.calls[c]);
  }

  /** A waiter may give up at any time, and nothing else changes. */
  lemma WaiterMayGiveUp(s: State, c: nat)
    requires c < |s.calls| && s.calls[c].pc.Waiting?
    ensures var s' := Next(s, GiveUp(c));
            OthersStay(s, s', c) && s'.calls[c].pc == GaveUp && s'.cache == s.cache && s'.now == s.now
  {
  }

  // ---------- No call is stuck ----------

  lemma AnyVictim(keys: map<Hash, Entry>, default: Hash) returns (victim: Hash)
    ensures |keys| >= MAX_ENTRIES ==> victim in keys
  {
    victim := default;
    if |keys| >= MAX_ENTRIES {
      assert |keys.Keys| == |keys|;
      victim :| victim in keys.Keys;
    }
  }

  /** Lookup id is published, and only its leader c moved. */
  ghost predicate Published(s: State, s': State, c: nat, id: nat) {
    && Inv(s') && OthersStay(s, s', c) && c < |s'.calls| && s'.calls[c].pc.Returned? && s'.calls[c].pc.id == id
    && id < |s'.cache.lookups| && s'.cache.lookups[id].reply.Some?
  }

  lemma ReaderPublishes(s: State, c: nat, id: nat) returns (steps: seq<Step>)
    requires Inv(s) && c < |s.calls| && s.calls[c].pc.Read? && s.calls[c].pc.id == id
    ensures Published(s, Run(s, steps), c, id)
  {
    assert CallInv(s.cache, c, s.calls[c]);
    var victim := AnyVictim(s.cache.keys, s.calls[c].hash);
    NextKeeps(s, Leave(c, false, victim));
    One(s, Leave(c, false, victim));
    steps := [Leave(c, false, victim)];
  }

  lemma ReadingPublishes(s: State, c: nat, id: nat, reply: Reply) returns (steps: seq<Step>)
    requires Inv(s) && c < |s.calls| && s.calls[c].pc.Reading? && s.calls[c].pc.id == id
    ensures Published(s, Run(s, steps), c, id)
  {
    NextKeeps(s, EndRead(c, reply));
    One(s, EndRead(c, reply));
    var rest := ReaderPublishes(Next(s, EndRead(c, reply)), c, id);
    RunAppend(s, [EndRead(c, reply)], rest);
    steps := [EndRead(c, reply)] + rest;
  }

  lemma LeaderPublishes(s: State, c: nat, id: nat, reply: Reply) returns (steps: seq<Step>)
    requires Inv(s) && c < |s.calls| && Leads(s.calls[c].pc, id)
    ensures Published(s, Run(s, steps), c, id)
  {
    if s.calls[c].pc.Read? {
      steps := ReaderPublishes(s, c, id);
    } else if s.calls[c].pc.Reading? {
      steps := ReadingPublishes(s, c, id, reply);
    } else {
      assert CallInv(s.cache, c, s.calls[c]);
      NextKeeps(s, BeginRead(c));
      One(s, BeginRead(c));
      var rest := ReadingPublishes(Next(s, BeginRead(c)), c, id, reply);
      RunAppend(s, [BeginRead(c)], rest);
      steps := [BeginRead(c)] + rest;
    }
  }

  predicate Answered(call: Call) {
    call.pc.Returned? || call.pc.ReturnedHit?
  }

  lemma WaiterIsAnswered(s: State, c: nat, reply: Reply) returns (steps: seq<Step>)
    requires Inv(s) && c < |s.calls| && s.calls[c].pc.Waiting?
    ensures c < |Run(s, steps).calls| && Answered(Run(s, steps).calls[c])
  {
    assert CallInv(s.cache, c, s.calls[c]);
    var id := s.calls[c].pc.id;
    steps := [];
    if s.cache.lookups[id].reply.None? {
      assert InflightInv(s, s.calls[c].hash, id);
      steps := LeaderPublishes(s, s.cache.lookups[id].caller, id, reply);
    }
    var published := Run(s, steps);
    assert published.calls[c] == s.calls[c];
    Snoc(s, steps, Wake(c, false));
    steps := steps + [Wake(c, false)];
  }

  lemma EnteredIsAnswered(s: State, c: nat, reply: Reply) returns (steps: seq<Step>)
    requires Inv(s) && c < |s.calls| && !s.calls[c].pc.Top? && !s.calls[c].pc.GaveUp?
    ensures c < |Run(s, steps).calls| && Answered(Run(s, steps).calls[c])
  {
    if s.calls[c].pc.Waiting? {
      steps := WaiterIsAnswered(s, c, reply);
    } else if Answered(s.calls[c]) {
      steps := [];
    } else {
      steps := LeaderPublishes(s, c, s.calls[c].pc.id, reply);
    }
  }

  lemma TopIsAnswered(s: State, c: nat, reply: Reply) returns (steps: seq<Step>)
    requires Inv(s) && c < |s.calls| && s.calls[c].pc.Top?
    ensures c < |Run(s, steps).calls| && Answered(Run(s, steps).calls[c])
  {
    NextKeeps(s, Enter(c));
    One(s, Enter(c));
    var entered := Next(s, Enter(c));
    assert entered == EnterStep(s, c);
    var rest := EnteredIsAnswered(entered, c, reply);
    RunAppend(s, [Enter(c)], rest);
    steps := [Enter(c)] + rest;
  }

  /** In every reachable state every call that has not given up can still be answered, whatever the repository says. */
  lemma NoCallIsStuck(now: int, steps: seq<Step>, c: nat, reply: Reply) returns (more: seq<Step>)
    requires c < |Run(Init(now), steps).calls| && !Run(Init(now), steps).calls[c].pc.GaveUp?
    ensures c < |Run(Init(now), steps + more).calls| && Answered(Run(Init(now), steps + more).calls[c])
  {
    RunKeeps(now, steps);
    var s := Run(Init(now), steps);
    if s.calls[c].pc.Top? {
      more := TopIsAnswered(s, c, reply);
    } else {
      more := EnteredIsAnswered(s, c, reply);
    }
    RunAppend(Init(now), steps, more);
  }
}
