/** What holds of the key cache in every interleaving of `get` calls. */
module KeyCacheSafety {
  import opened Options
  import opened KeyCache

  // ---------- Lookups only gain history ----------

  predicate Grown(a: Lookup, b: Lookup) {
    && b.hash == a.hash && b.caller == a.caller && b.started == a.started
    && (a.began.Some? ==> b.began == a.began) && (a.reply.Some? ==> b == a)
  }

  predicate Grow(a: seq<Lookup>, b: seq<Lookup>) {
    |a| <= |b| && forall i | 0 <= i < |a| :: Grown(a[i], b[i])
  }

  /** A call untouched by a step keeps its invariant if the lookup of its hash is still in flight or was published. */
  lemma OtherCallKeeps(a: Cache, b: Cache, c: nat, call: Call)
    requires CallInv(a, c, call) && Grow(a.lookups, b.lookups)
    requires call.hash in a.inflight ==>
               var id := a.inflight[call.hash];
               || (call.hash in b.inflight && b.inflight[call.hash] == id)
               || (!Leads(call.pc, id) && id < |b.lookups| && b.lookups[id].reply.Some?)
    requires call.pc.Leading? && call.pc.id < |a.lookups| ==> b.lookups[call.pc.id] == a.lookups[call.pc.id]
    ensures CallInv(b, c, call)
  {
    match call.pc
    case Leading(id) => assert Grown(a.lookups[id], b.lookups[id]);
    case Reading(id) => assert Grown(a.lookups[id], b.lookups[id]);
    case Read(id, _) => assert Grown(a.lookups[id], b.lookups[id]);
    case Waiting(id) => assert Grown(a.lookups[id], b.lookups[id]);
    case Returned(id, _) => assert Grown(a.lookups[id], b.lookups[id]);
    case ReturnedHit(e, _) => assert Grown(a.lookups[e.source], b.lookups[e.source]);
    case Top =>
    case GaveUp =>
  }

  lemma EntryKeeps(a: seq<Lookup>, b: seq<Lookup>, hash: Hash, e: Entry)
    requires EntryInv(a, hash, e) && Grow(a, b)
    ensures EntryInv(b, hash, e)
  {
    assert Grown(a[e.source], b[e.source]);
  }

  // ---------- Steps that leave the lookups alone ----------

  /** One call moves on without giving up a lookup it leads. */
  lemma MoveKeeps(s: State, c: nat, call: Call)
    requires Inv(s) && c < |s.calls| && CallInv(s.cache, c, call)
    requires s.calls[c].pc.Leading? || s.calls[c].pc.Reading? || s.calls[c].pc.Read? ==>
               Leads(call.pc, s.calls[c].pc.id)
    ensures Inv(s.(calls := s.calls[c := call]))
  {
    var s' := s.(calls := s.calls[c := call]);
    forall h | h in s'.cache.inflight
      ensures InflightInv(s', h, s'.cache.inflight[h])
    {
      assert InflightInv(s, h, s.cache.inflight[h]);
    }
  }

  lemma DropKeeps(s: State, keys: map<Hash, Entry>)
    requires Inv(s) && |keys| <= |s.cache.keys|
    requires forall h | h in keys :: h in s.cache.keys && keys[h] == s.cache.keys[h]
    ensures Inv(s.(cache := s.cache.(keys := keys)))
  {
    var s' := s.(cache := s.cache.(keys := keys));
    forall h | h in s'.cache.inflight
      ensures InflightInv(s', h, s'.cache.inflight[h])
    {
      assert InflightInv(s, h, s.cache.inflight[h]);
    }
    forall c | 0 <= c < |s'.calls|
      ensures CallInv(s'.cache, c, s'.calls[c])
    {
      OtherCallKeeps(s.cache, s'.cache, c, s.calls[c]);
    }
  }

  lemma RemovalShrinks(keys: map<Hash, Entry>, h: Hash)
    requires h in keys
    ensures |keys - {h}| == |keys| - 1
  {
    assert (keys - {h}).Keys == keys.Keys - {h};
    assert |(keys - {h}).Keys| == |keys - {h}| && |keys.Keys| == |keys|;
  }

  lemma ExpiryKeeps(s: State, hash: Hash)
    requires Inv(s)
    ensures Inv(s.(cache := s.cache.(keys := WithoutExpired(s.cache.keys, hash, s.now))))
  {
    if hash in s.cache.keys {
      RemovalShrinks(s.cache.keys, hash);
    }
    DropKeeps(s, WithoutExpired(s.cache.keys, hash, s.now));
  }

  // ---------- Entering ----------

  lemma LeadKeepsCache(s: State, l: Lookup, cache: Cache)
    requires CacheInv(s.cache) && l.hash !in s.cache.keys && l.began.None? && l.reply.None?
    requires cache == Cache(s.cache.keys, s.cache.inflight[l.hash := |s.cache.lookups|], s.cache.lookups + [l])
    ensures CacheInv(cache)
  {
    forall h | h in cache.keys
      ensures EntryInv(cache.lookups, h, cache.keys[h]) && h !in cache.inflight
    {
      EntryKeeps(s.cache.lookups, cache.lookups, h, s.cache.keys[h]);
    }
  }

  lemma LeadKeepsCalls(s: State, c: nat, l: Lookup, s': State)
    requires Inv(s) && c < |s.calls| && s.calls[c].pc.Top? && l == Lookup(s.calls[c].hash, c, s.now, None, None, false)
    requires l.hash !in s.cache.inflight
    requires s'.cache == Cache(s.cache.keys, s.cache.inflight[l.hash := |s.cache.lookups|], s.cache.lookups + [l])
    requires s'.calls == s.calls[c := s.calls[c].(passes := s.calls[c].passes + 1, pc := Leading(|s.cache.lookups|))]
    ensures CallsInv(s') && InflightsInv(s')
  {
    forall d | 0 <= d < |s'.calls|
      ensures CallInv(s'.cache, d, s'.calls[d])
    {
      assert CallInv(s.cache, d, s.calls[d]);
      if d != c {
        OtherCallKeeps(s.cache, s'.cache, d, s.calls[d]);
      }
    }
    forall h | h in s'.cache.inflight
      ensures InflightInv(s', h, s'.cache.inflight[h])
    {
      assert h != l.hash ==> InflightInv(s, h, s.cache.inflight[h]);
    }
  }

  lemma EnterKeeps(s: State, c: nat)
    requires Inv(s) && c < |s.calls| && s.calls[c].pc.Top?
    ensures Inv(EnterStep(s, c))
  {
    var hash := s.calls[c].hash;
    ExpiryKeeps(s, hash);
    var t := s.(cache := s.cache.(keys := WithoutExpired(s.cache.keys, hash, s.now)));
    if hash in t.cache.keys {
      MoveKeeps(t, c, EnterStep(s, c).calls[c]);
    } else if hash in t.cache.inflight {
      assert InflightInv(t, hash, t.cache.inflight[hash]);
      MoveKeeps(t, c, EnterStep(s, c).calls[c]);
    } else {
      var l := Lookup(hash, c, s.now, None, None, false);
      LeadKeepsCache(t, l, EnterStep(s, c).cache);
      LeadKeepsCalls(t, c, l, EnterStep(s, c));
    }
  }

  // ---------- Reading and leaving ----------

  /** While a call leads a lookup, the lookup is in flight, unpublished and its own. */
  lemma LeaderOwns(s: State, c: nat, id: nat)
    requires Inv(s) && c < |s.calls| && Leads(s.calls[c].pc, id)
    ensures LeaderInv(s.cache, c, s.calls[c], id) && s.cache.lookups[id].reply.None?
    ensures forall d | 0 <= d < |s.calls| && d != c :: !Leads(s.calls[d].pc, id)
  {
    assert CallInv(s.cache, c, s.calls[c]);
    assert InflightInv(s, s.calls[c].hash, id);
    forall d | 0 <= d < |s.calls| && d != c
      ensures !Leads(s.calls[d].pc, id)
    {
      assert CallInv(s.cache, d, s.calls[d]);
    }
  }

  lemma BeginReadKeeps(s: State, c: nat, id: nat)
    requires Inv(s) && c < |s.calls| && s.calls[c].pc == Leading(id) && id < |s.cache.lookups|
    ensures Inv(BeginReadStep(s, c, id))
  {
    LeaderOwns(s, c, id);
    var s' := BeginReadStep(s, c, id);
    assert s'.cache.lookups[id] == s.cache.lookups[id].(began := Some(s.now));
    assert Grow(s.cache.lookups, s'.cache.lookups);
    forall h | h in s'.cache.inflight
      ensures InflightInv(s', h, s'.cache.inflight[h])
    {
      assert InflightInv(s, h, s.cache.inflight[h]);
    }
    forall h | h in s'.cache.keys
      ensures EntryInv(s'.cache.lookups, h, s'.cache.keys[h])
    {
      EntryKeeps(s.cache.lookups, s'.cache.lookups, h, s.cache.keys[h]);
    }
    forall d | 0 <= d < |s'.calls|
      ensures CallInv(s'.cache, d, s'.calls[d])
    {
      if d != c {
        OtherCallKeeps(s.cache, s'.cache, d, s.calls[d]);
      }
    }
  }

  lemma StoreFits(cache: Cache, id: nat, reply: Reply, victim: Hash)
    requires |cache.keys| <= MAX_ENTRIES && id < |cache.lookups|
    requires reply.Found? && reply.key.enabled && |cache.keys| >= MAX_ENTRIES ==> victim in cache.keys
    ensures |Stored(cache, id, reply, victim)| <= MAX_ENTRIES
  {
    if reply.Found? && reply.key.enabled {
      if |cache.keys| >= MAX_ENTRIES {
        RemovalShrinks(cache.keys, victim);
      }
      assert |Stored(cache, id, reply, victim)| <= |Evicted(cache.keys, victim)| + 1;
    }
  }

  /** Storing keeps the table within its limit and its entries genuine. */
  lemma StoreKeeps(s: State, id: nat, reply: Reply, victim: Hash, lookups: seq<Lookup>)
    requires CacheInv(s.cache) && id < |s.cache.lookups| && Grow(s.cache.lookups, lookups)
    requires lookups[id].reply == Some(reply)
    requires reply.Found? && reply.key.enabled && |s.cache.keys| >= MAX_ENTRIES ==> victim in s.cache.keys
    ensures |Stored(s.cache, id, reply, victim)| <= MAX_ENTRIES
    ensures forall h | h in Stored(s.cache, id, reply, victim) ::
              && EntryInv(lookups, h, Stored(s.cache, id, reply, victim)[h])
              && (h == lookups[id].hash || h in s.cache.keys)
  {
    assert Grown(s.cache.lookups[id], lookups[id]);
    StoreFits(s.cache, id, reply, victim);
    forall h | h in Stored(s.cache, id, reply, victim)
      ensures EntryInv(lookups, h, Stored(s.cache, id, reply, victim)[h])
    {
      if h in s.cache.keys {
        EntryKeeps(s.cache.lookups, lookups, h, s.cache.keys[h]);
      }
    }
  }

  lemma LeaveKeepsCalls(s: State, c: nat, id: nat, s': State)
    requires Inv(s) && c < |s.calls| && Leads(s.calls[c].pc, id) && id < |s.cache.lookups|
    requires |s'.cache.lookups| == |s.cache.lookups|
    requires s'.cache.inflight == s.cache.inflight - {s.cache.lookups[id].hash}
    requires Grown(s.cache.lookups[id], s'.cache.lookups[id]) && s'.cache.lookups[id].reply.Some?
    requires forall i | 0 <= i < |s.cache.lookups| && i != id :: s'.cache.lookups[i] == s.cache.lookups[i]
    requires s'.calls == s.calls[c := s.calls[c].(pc := Returned(id, s'.cache.lookups[id].reply.value))]
    ensures CallsInv(s')
  {
    LeaderOwns(s, c, id);
    assert Grow(s.cache.lookups, s'.cache.lookups);
    forall d | 0 <= d < |s.calls|
      ensures CallInv(s'.cache, d, s'.calls[d])
    {
      assert CallInv(s.cache, d, s.calls[d]);
      if d != c {
        OtherCallKeeps(s.cache, s'.cache, d, s.calls[d]);
      }
    }
  }

  lemma LeaveKeepsInflights(s: State, c: nat, id: nat, s': State)
    requires Inv(s) && c < |s.calls| && Leads(s.calls[c].pc, id) && id < |s.cache.lookups|
    requires |s'.cache.lookups| == |s.cache.lookups|
    requires s'.cache.inflight == s.cache.inflight - {s.cache.lookups[id].hash}
    requires forall i | 0 <= i < |s.cache.lookups| && i != id :: s'.cache.lookups[i] == s.cache.lookups[i]
    requires |s'.calls| == |s.calls| && forall d | 0 <= d < |s.calls| && d != c :: s'.calls[d] == s.calls[d]
    ensures InflightsInv(s')
  {
    forall h | h in s'.cache.inflight
      ensures InflightInv(s', h, s'.cache.inflight[h])
    {
      assert InflightInv(s, h, s.cache.inflight[h]);
    }
  }

  lemma LeaveKeepsCache(s: State, id: nat, reply: Reply, canceled: bool, victim: Hash, cache: Cache)
    requires CacheInv(s.cache) && id < |s.cache.lookups| && s.cache.lookups[id].reply.None?
    requires ReadBegan(s.cache.lookups[id])
    requires reply.Found? && reply.key.enabled && |s.cache.keys| >= MAX_ENTRIES ==> victim in s.cache.keys
    requires cache == Publish(s.cache, id, reply, canceled, victim)
    ensures CacheInv(cache)
  {
    assert cache.lookups[id] == s.cache.lookups[id].(reply := Some(reply), callerCanceled := canceled);
    assert Grow(s.cache.lookups, cache.lookups);
    StoreKeeps(s, id, reply, victim, cache.lookups);
  }

  lemma LeaveKeeps(s: State, c: nat, id: nat, reply: Reply, canceled: bool, victim: Hash)
    requires Inv(s) && c < |s.calls| && s.calls[c].pc == Read(id, reply) && id < |s.cache.lookups|
    requires reply.Found? && reply.key.enabled && |s.cache.keys| >= MAX_ENTRIES ==> victim in s.cache.keys
    ensures Inv(LeaveStep(s, c, id, reply, canceled, victim))
  {
    LeaderOwns(s, c, id);
    var s' := LeaveStep(s, c, id, reply, canceled, victim);
    LeaveKeepsCache(s, id, reply, canceled, victim, s'.cache);
    LeaveKeepsCalls(s, c, id, s');
    LeaveKeepsInflights(s, c, id, s');
  }

  // ---------- Every run ----------

  lemma WakeKeeps(s: State, c: nat, id: nat, live: bool)
    requires Inv(s) && c < |s.calls| && s.calls[c].pc == Waiting(id) && id < |s.cache.lookups|
    requires s.cache.lookups[id].reply.Some?
    ensures Inv(WakeStep(s, c, id, live))
  {
    assert CallInv(s.cache, c, s.calls[c]);
    MoveKeeps(s, c, WakeStep(s, c, id, live).calls[c]);
  }

  lemma ArriveKeeps(s: State, hash: Hash)
    requires Inv(s)
    ensures Inv(s.(calls := s.calls + [Call(hash, 0, 0, Top)]))
  {
    var s' := s.(calls := s.calls + [Call(hash, 0, 0, Top)]);
    forall h | h in s'.cache.inflight
      ensures InflightInv(s', h, s'.cache.inflight[h])
    {
      assert InflightInv(s, h, s.cache.inflight[h]);
    }
  }

  lemma TickKeeps(s: State, d: nat)
    requires Inv(s)
    ensures Inv(s.(now := s.now + d))
  {
    var s' := s.(now := s.now + d);
    forall h | h in s'.cache.inflight
      ensures InflightInv(s', h, s'.cache.inflight[h])
    {
      assert InflightInv(s, h, s.cache.inflight[h]);
    }
  }

  lemma NextKeeps(s: State, step: Step)
    requires Inv(s)
    ensures Inv(Next(s, step))
  {
    if Enabled(s, step) {
      match step
      case Arrive(hash) => ArriveKeeps(s, hash);
      case Tick(d) => TickKeeps(s, d);
      case Enter(c) => EnterKeeps(s, c);
      case BeginRead(c) => BeginReadKeeps(s, c, s.calls[c].pc.id);
      case EndRead(c, reply) => MoveKeeps(s, c, s.calls[c].(pc := Read(s.calls[c].pc.id, reply)));
      case Leave(c, canceled, victim) => LeaveKeeps(s, c, s.calls[c].pc.id, s.calls[c].pc.reply, canceled, victim);
      case Wake(c, live) => WakeKeeps(s, c, s.calls[c].pc.id, live);
      case GiveUp(c) => MoveKeeps(s, c, s.calls[c].(pc := GaveUp));
    }
  }

  lemma {:induction false} RunKeeps(now: int, steps: seq<Step>)
    ensures Inv(Run(Init(now), steps))
  {
    if steps != [] {
      RunKeeps(now, steps[..|steps| - 1]);
      NextKeeps(Run(Init(now), steps[..|steps| - 1]), steps[|steps| - 1]);
    }
  }

  predicate ReadsHash(s: State, c: nat) {
    c < |s.calls| && s.calls[c].pc.Reading?
  }

  /** At most one repository read of a hash is in flight. */
  lemma OneReadPerHash(now: int, steps: seq<Step>, c: nat, d: nat)
    ensures var s := Run(Init(now), steps);
            ReadsHash(s, c) && ReadsHash(s, d) && s.calls[c].hash == s.calls[d].hash ==> c == d
  {
    RunKeeps(now, steps);
    var s := Run(Init(now), steps);
    if ReadsHash(s, c) && ReadsHash(s, d) && s.calls[c].hash == s.calls[d].hash {
      assert CallInv(s.cache, c, s.calls[c]) && CallInv(s.cache, d, s.calls[d]);
    }
  }

  /** The table never passes its limit and holds enabled keys only, none of whose hashes is being looked up. */
  lemma TableIsBoundedAndEnabled(now: int, steps: seq<Step>)
    ensures var s := Run(Init(now), steps);
            && |s.cache.keys| <= MAX_ENTRIES
            && forall h | h in s.cache.keys :: s.cache.keys[h].key.enabled && h !in s.cache.inflight
  {
    RunKeeps(now, steps);
  }

  /**
    A hit returns an enabled key that the repository returned for that very
    hash, by a read that began less than TTL before the hit.
   */
  lemma HitsAreFresh(now: int, steps: seq<Step>, c: nat)
    ensures var s := Run(Init(now), steps);
            c < |s.calls| && s.calls[c].pc.ReturnedHit? ==>
              var e := s.calls[c].pc.entry;
              && e.key.enabled && e.source < |s.cache.lookups|
              && s.cache.lookups[e.source].hash == s.calls[c].hash
              && s.cache.lookups[e.source].reply == Some(Found(e.key))
              && s.cache.lookups[e.source].began.Some?
              && s.calls[c].pc.at - s.cache.lookups[e.source].began.value < TTL
  {
    RunKeeps(now, steps);
    var s := Run(Init(now), steps);
    if c < |s.calls| && s.calls[c].pc.ReturnedHit? {
      assert CallInv(s.cache, c, s.calls[c]);
      assert LookupInv(s.cache.lookups[s.calls[c].pc.entry.source]);
    }
  }

  /** Any other reply came from a read of the call's own hash. */
  lemma RepliesAreGenuine(now: int, steps: seq<Step>, c: nat)
    ensures var s := Run(Init(now), steps);
            c < |s.calls| && s.calls[c].pc.Returned? ==>
              var id := s.calls[c].pc.id;
              && id < |s.cache.lookups| && s.cache.lookups[id].hash == s.calls[c].hash
              && s.cache.lookups[id].began.Some? && s.cache.lookups[id].reply == Some(s.calls[c].pc.reply)
  {
    RunKeeps(now, steps);
    var s := Run(Init(now), steps);
    if c < |s.calls| && s.calls[c].pc.Returned? {
      assert CallInv(s.cache, c, s.calls[c]);
      assert LookupInv(s.cache.lookups[s.calls[c].pc.id]);
    }
  }

  /** A call makes at most two passes, and what it waits for is published or has a leader at work. */
  lemma WaitersAreServed(now: int, steps: seq<Step>, c: nat)
    ensures var s := Run(Init(now), steps);
            c < |s.calls| ==>
              && s.calls[c].passes <= 2
              && (s.calls[c].pc.Waiting? ==>
                    var id := s.calls[c].pc.id;
                    && id < |s.cache.lookups|
                    && (s.cache.lookups[id].reply.Some?
                        || (&& s.cache.lookups[id].caller < |s.calls|
                            && Leads(s.calls[s.cache.lookups[id].caller].pc, id))))
  {
    RunKeeps(now, steps);
    var s := Run(Init(now), steps);
    if c < |s.calls| {
      assert CallInv(s.cache, c, s.calls[c]);
      if s.calls[c].pc.Waiting? && s.cache.lookups[s.calls[c].pc.id].reply.None? {
        assert InflightInv(s, s.calls[c].hash, s.calls[c].pc.id);
      }
    }
  }
}
