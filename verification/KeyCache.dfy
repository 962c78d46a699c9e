/**
  The API key cache of internal/api/key_cache.go: any number of concurrent `get`
  calls share a table of unexpired keys and a table of lookups in flight. Each
  critical section under the mutex is one step; the repository read, the wait
  and the clock are steps of their own.
 */
module KeyCache {
  import opened Options

  type Hash = string

  datatype ApiKey = ApiKey(id: nat, enabled: bool)

  /** What the repository returned; an error is a cancellation or deadline, or something else. */
  datatype Reply = Found(key: ApiKey) | Error(cancellation: bool)

  /** One repository lookup and its history. `reply` is set when its `done` channel closes. */
  datatype Lookup = Lookup(hash: Hash, caller: nat, started: int, began: Option<int>, reply: Option<Reply>,
                           callerCanceled: bool)

  /** A cached key; `source` is the lookup it came from. */
  datatype Entry = Entry(key: ApiKey, expires: int, source: nat)

  datatype Cache = Cache(keys: map<Hash, Entry>, inflight: map<Hash, nat>, lookups: seq<Lookup>)

  const TTL := 5_000_000_000
  const MAX_ENTRIES := 1024

  // ---------- The critical sections ----------

  datatype Admission = Hit(entry: Entry) | Join(id: nat) | Lead(id: nat)

  function WithoutExpired(keys: map<Hash, Entry>, hash: Hash, now: int): map<Hash, Entry> {
    if hash in keys && now >= keys[hash].expires then keys - {hash} else keys
  }

  /** The first critical section: a hit, a lookup to wait for, or a new lookup to make. */
  function Admit(c: Cache, hash: Hash, caller: nat, now: int): (Cache, Admission) {
    var keys := WithoutExpired(c.keys, hash, now);
    if hash in keys then (c.(keys := keys), Hit(keys[hash]))
    else if hash in c.inflight then (c.(keys := keys), Join(c.inflight[hash]))
    else
      var id := |c.lookups|;
      (Cache(keys, c.inflight[hash := id], c.lookups + [Lookup(hash, caller, now, None, None, false)]), Lead(id))
  }

  /** Room for one more: at the limit, one entry makes way. */
  function Evicted(keys: map<Hash, Entry>, victim: Hash): map<Hash, Entry> {
    if |keys| >= MAX_ENTRIES then keys - {victim} else keys
  }

  /** Only an enabled key is kept, until TTL after its lookup started. */
  function Stored(c: Cache, id: nat, reply: Reply, victim: Hash): map<Hash, Entry>
    requires id < |c.lookups|
  {
    if reply.Found? && reply.key.enabled then
      Evicted(c.keys, victim)[c.lookups[id].hash := Entry(reply.key, c.lookups[id].started + TTL, id)]
    else c.keys
  }

  /** The second critical section: store an enabled key, publish the reply, end the lookup. */
  function Publish(c: Cache, id: nat, reply: Reply, callerCanceled: bool, victim: Hash): Cache
    requires id < |c.lookups|
  {
    Cache(Stored(c, id, reply, victim), c.inflight - {c.lookups[id].hash},
          c.lookups[id := c.lookups[id].(reply := Some(reply), callerCanceled := callerCanceled)])
  }

  class ApiKeyCache {
    var keys: map<Hash, Entry>
    var inflight: map<Hash, nat>
    var lookups: seq<Lookup>

    constructor ()
      ensures Contents() == Cache(map[], map[], [])
    {
      keys, inflight, lookups := map[], map[], [];
    }

    function Contents(): Cache
      reads this
    {
      Cache(keys, inflight, lookups)
    }

    method Enter(hash: Hash, caller: nat, now: int) returns (a: Admission)
      modifies this
      ensures (Contents(), a) == Admit(old(Contents()), hash, caller, now)
    {
      if hash in keys {
        if now < keys[hash].expires {
          return Hit(keys[hash]);
        }
        keys := keys - {hash};
      }
      if hash in inflight {
        return Join(inflight[hash]);
      }
      var id := |lookups|;
      lookups := lookups + [Lookup(hash, caller, now, None, None, false)];
      inflight := inflight[hash := id];
      return Lead(id);
    }

    /** At the limit any one entry makes way, as the order of a Go map range is unspecified. */
    method Evict() returns (victim: Hash)
      requires |keys| >= MAX_ENTRIES
      modifies this`keys
      ensures victim in old(keys) && keys == Evicted(old(keys), victim)
    {
      assert |keys.Keys| == |keys|;
      victim :| victim in keys.Keys;
      keys := keys - {victim};
    }

    method Store(id: nat, reply: Reply) returns (victim: Hash)
      requires id < |lookups|
      modifies this`keys
      ensures keys == Stored(old(Contents()), id, reply, victim)
      ensures reply.Found? && reply.key.enabled && |old(keys)| >= MAX_ENTRIES ==> victim in old(keys)
    {
      victim := lookups[id].hash;
      if reply.Found? && reply.key.enabled {
        if |keys| >= MAX_ENTRIES {
          victim := Evict();
        }
        keys := keys[lookups[id].hash := Entry(reply.key, lookups[id].started + TTL, id)];
      }
    }

    method Leave(id: nat, reply: Reply, callerCanceled: bool) returns (victim: Hash)
      requires id < |lookups|
      modifies this
      ensures Contents() == Publish(old(Contents()), id, reply, callerCanceled, victim)
      ensures reply.Found? && reply.key.enabled && |old(keys)| >= MAX_ENTRIES ==> victim in old(keys)
    {
      victim := Store(id, reply);
      inflight := inflight - {lookups[id].hash};
      lookups := lookups[id := lookups[id].(reply := Some(reply), callerCanceled := callerCanceled)];
    }
  }

  // ---------- Concurrent calls ----------

  /** Where a call is. A call that leads a lookup is Leading, Reading or Read. */
  datatype Pc =
    | Top
    | Waiting(id: nat)
    | Leading(id: nat)
    | Reading(id: nat)
    | Read(id: nat, reply: Reply)
    | ReturnedHit(entry: Entry, at: int)
    | Returned(id: nat, reply: Reply)
    | GaveUp

  /** `passes` counts the times the call entered the first critical section. */
  datatype Call = Call(hash: Hash, attempt: nat, passes: nat, pc: Pc)

  datatype State = State(cache: Cache, calls: seq<Call>, now: int)

  datatype Step =
    | Arrive(hash: Hash)
    | Enter(c: nat)
    | BeginRead(c: nat)
    | EndRead(c: nat, reply: Reply)
    | Leave(c: nat, callerCanceled: bool, victim: Hash)
    | Wake(c: nat, live: bool)
    | GiveUp(c: nat)
    | Tick(d: nat)

  function At(s: State, c: nat, pc: Pc): State
    requires c < |s.calls|
  {
    s.(calls := s.calls[c := s.calls[c].(pc := pc)])
  }

  function EnterStep(s: State, c: nat): State
    requires c < |s.calls|
  {
    var (cache, a) := Admit(s.cache, s.calls[c].hash, c, s.now);
    var pc := match a
      case Hit(entry) => ReturnedHit(entry, s.now)
      case Join(id) => Waiting(id)
      case Lead(id) => Leading(id);
    s.(cache := cache, calls := s.calls[c := s.calls[c].(passes := s.calls[c].passes + 1, pc := pc)])
  }

  /** A waiter retries once if the leader was cancelled and it was not. */
  function WakeStep(s: State, c: nat, id: nat, live: bool): State
    requires c < |s.calls| && id < |s.cache.lookups| && s.cache.lookups[id].reply.Some?
  {
    var l := s.cache.lookups[id];
    if s.calls[c].attempt == 0 && l.callerCanceled && live && l.reply.value.Error? && l.reply.value.cancellation
    then s.(calls := s.calls[c := s.calls[c].(attempt := 1, pc := Top)])
    else At(s, c, Returned(id, l.reply.value))
  }

  function BeginReadStep(s: State, c: nat, id: nat): State
    requires c < |s.calls| && id < |s.cache.lookups|
  {
    At(s.(cache := s.cache.(lookups := s.cache.lookups[id := s.cache.lookups[id].(began := Some(s.now))])), c,
       Reading(id))
  }

  function LeaveStep(s: State, c: nat, id: nat, reply: Reply, callerCanceled: bool, victim: Hash): State
    requires c < |s.calls| && id < |s.cache.lookups|
  {
    At(s.(cache := Publish(s.cache, id, reply, callerCanceled, victim)), c, Returned(id, reply))
  }

  predicate Enabled(s: State, step: Step) {
    match step
    case Arrive(_) => true
    case Tick(_) => true
    case Enter(c) => c < |s.calls| && s.calls[c].pc.Top?
    case BeginRead(c) => c < |s.calls| && s.calls[c].pc.Leading? && s.calls[c].pc.id < |s.cache.lookups|
    case EndRead(c, _) => c < |s.calls| && s.calls[c].pc.Reading?
    case Leave(c, _, victim) =>
      && c < |s.calls| && s.calls[c].pc.Read? && s.calls[c].pc.id < |s.cache.lookups|
      && (s.calls[c].pc.reply.Found? && s.calls[c].pc.reply.key.enabled && |s.cache.keys| >= MAX_ENTRIES
          ==> victim in s.cache.keys)
    case Wake(c, _) =>
      && c < |s.calls| && s.calls[c].pc.Waiting? && s.calls[c].pc.id < |s.cache.lookups|
      && s.cache.lookups[s.calls[c].pc.id].reply.Some?
    case GiveUp(c) => c < |s.calls| && s.calls[c].pc.Waiting?
  }

  /** A step that is not enabled changes nothing. */
  function Next(s: State, step: Step): State {
    if !Enabled(s, step) then s
    else match step
    case Arrive(hash) => s.(calls := s.calls + [Call(hash, 0, 0, Top)])
    case Tick(d) => s.(now := s.now + d)
    case Enter(c) => EnterStep(s, c)
    case BeginRead(c) => BeginReadStep(s, c, s.calls[c].pc.id)
    case EndRead(c, reply) => At(s, c, Read(s.calls[c].pc.id, reply))
    case Leave(c, canceled, victim) => LeaveStep(s, c, s.calls[c].pc.id, s.calls[c].pc.reply, canceled, victim)
    case Wake(c, live) => WakeStep(s, c, s.calls[c].pc.id, live)
    case GiveUp(c) => At(s, c, GaveUp)
  }

  function Run(s: State, steps: seq<Step>): State {
    if steps == [] then s else Next(Run(s, steps[..|steps| - 1]), steps[|steps| - 1])
  }

  function Init(now: int): State {
    State(Cache(map[], map[], []), [], now)
  }

  // ---------- The invariant ----------

  predicate Leads(pc: Pc, id: nat) {
    (pc.Leading? || pc.Reading? || pc.Read?) && pc.id == id
  }

  predicate ReadBegan(l: Lookup) {
    l.began.Some? && l.began.value >= l.started
  }

  predicate LookupInv(l: Lookup) {
    (l.began.Some? || l.reply.Some?) ==> ReadBegan(l)
  }

  /** An entry is an enabled key of its own hash, and expires TTL after its lookup started. */
  predicate EntryInv(lookups: seq<Lookup>, hash: Hash, e: Entry) {
    && e.source < |lookups|
    && lookups[e.source].hash == hash && lookups[e.source].reply == Some(Found(e.key)) && e.key.enabled
    && e.expires == lookups[e.source].started + TTL
  }

  /** A lookup in flight is unpublished, and the call that leads it is still at work. */
  predicate InflightInv(s: State, hash: Hash, id: nat) {
    && id < |s.cache.lookups|
    && s.cache.lookups[id].hash == hash && s.cache.lookups[id].reply.None?
    && s.cache.lookups[id].caller < |s.calls| && Leads(s.calls[s.cache.lookups[id].caller].pc, id)
  }

  predicate LeaderInv(cache: Cache, c: nat, call: Call, id: nat) {
    && call.hash in cache.inflight && cache.inflight[call.hash] == id
    && id < |cache.lookups| && cache.lookups[id].hash == call.hash && cache.lookups[id].caller == c
    && (if call.pc.Leading? then cache.lookups[id].began.None? else ReadBegan(cache.lookups[id]))
  }

  predicate CallInv(cache: Cache, c: nat, call: Call) {
    && call.attempt <= 1 && call.passes == call.attempt + (if call.pc.Top? then 0 else 1)
    && match call.pc
       case Leading(id) => LeaderInv(cache, c, call, id)
       case Reading(id) => LeaderInv(cache, c, call, id)
       case Read(id, _) => LeaderInv(cache, c, call, id)
       case Waiting(id) =>
         && id < |cache.lookups| && cache.lookups[id].hash == call.hash
         && (cache.lookups[id].reply.None? ==> call.hash in cache.inflight && cache.inflight[call.hash] == id)
       case Returned(id, reply) =>
         id < |cache.lookups| && cache.lookups[id].hash == call.hash && cache.lookups[id].reply == Some(reply)
       case ReturnedHit(entry, at) => EntryInv(cache.lookups, call.hash, entry) && at < entry.expires
       case Top => true
       case GaveUp => true
  }

  ghost predicate CacheInv(cache: Cache) {
    && |cache.keys| <= MAX_ENTRIES
    && (forall id | 0 <= id < |cache.lookups| :: LookupInv(cache.lookups[id]))
    && (forall h | h in cache.keys :: EntryInv(cache.lookups, h, cache.keys[h]) && h !in cache.inflight)
  }

  ghost predicate InflightsInv(s: State) {
    forall h | h in s.cache.inflight :: InflightInv(s, h, s.cache.inflight[h])
  }

  ghost predicate CallsInv(s: State) {
    forall c | 0 <= c < |s.calls| :: CallInv(s.cache, c, s.calls[c])
  }

  ghost predicate ClockInv(s: State) {
    forall id | 0 <= id < |s.cache.lookups| :: s.cache.lookups[id].started <= s.now
  }

  ghost predicate Inv(s: State) {
    CacheInv(s.cache) && InflightsInv(s) && CallsInv(s) && ClockInv(s)
  }
}
