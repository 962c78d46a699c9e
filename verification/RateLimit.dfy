/**
  The token buckets of internal/api/middleware.go: one bucket per client address
  or per namespace, refilled on use, and idle buckets pruned at intervals.
  Times are seconds on one monotone clock, and tokens are reals.
 */
module RateLimit {
  import opened Options
  import opened Sets

  type Key = string

  datatype Bucket = Bucket(tokens: real, lastSeen: real)

  datatype Limiter = Limiter(buckets: map<Key, Bucket>, nextCleanup: real)

  datatype Request = Request(key: Key, now: real)

  const CLIENT_TTL := 600.0
  const CLEANUP_INTERVAL := 60.0
  const MAX_CLIENTS := 10_000

  // ---------- One request ----------

  /** What a bucket holds at `now`: refilled at `rate` a second, at most `rate`. */
  function Refill(rate: nat, b: Bucket, now: real): real {
    var tokens := b.tokens + (now - b.lastSeen) * rate as real;
    if tokens > rate as real then rate as real else tokens
  }

  /** A key without a bucket is as good as one with a full bucket. */
  function Level(rate: nat, buckets: map<Key, Bucket>, k: Key, now: real): real {
    if k in buckets then Refill(rate, buckets[k], now) else rate as real
  }

  function Pruned(buckets: map<Key, Bucket>, now: real): map<Key, Bucket> {
    map k | k in buckets && now - buckets[k].lastSeen < CLIENT_TTL :: buckets[k]
  }

  function Cleaned(l: Limiter, now: real): Limiter {
    if now < l.nextCleanup then l else Limiter(Pruned(l.buckets, now), now + CLEANUP_INTERVAL)
  }

  predicate Full(buckets: map<Key, Bucket>, cap: Option<nat>) {
    cap.Some? && |buckets| >= cap.value
  }

  /** Charge one request to the key's bucket, creating it if the table has room. */
  function Charge(rate: nat, cap: Option<nat>, buckets: map<Key, Bucket>, r: Request): (map<Key, Bucket>, bool) {
    if r.key !in buckets then
      if Full(buckets, cap) then (buckets, false)
      else (buckets[r.key := Bucket(rate as real - 1.0, r.now)], true)
    else
      var tokens := Refill(rate, buckets[r.key], r.now);
      if tokens < 1.0 then (buckets[r.key := Bucket(tokens, r.now)], false)
      else (buckets[r.key := Bucket(tokens - 1.0, r.now)], true)
  }

  function AllowStep(rate: nat, cap: Option<nat>, l: Limiter, r: Request): (Limiter, bool) {
    var cleaned := Cleaned(l, r.now);
    var (buckets, ok) := Charge(rate, cap, cleaned.buckets, r);
    (Limiter(buckets, cleaned.nextCleanup), ok)
  }

  // ---------- What one request keeps ----------

  predicate BucketInv(rate: nat, b: Bucket, now: real) {
    0.0 <= b.tokens <= rate as real && b.lastSeen <= now
  }

  ghost predicate Inv(rate: nat, buckets: map<Key, Bucket>, now: real) {
    forall k | k in buckets :: BucketInv(rate, buckets[k], now)
  }

  lemma RefillBounds(rate: nat, b: Bucket, now: real)
    requires BucketInv(rate, b, now)
    ensures b.tokens <= Refill(rate, b, now) <= rate as real
  {
    assert (now - b.lastSeen) * rate as real >= 0.0;
  }

  /** From one moment to a later one a level gains at most `rate` for each second. */
  lemma LevelGrowth(rate: nat, buckets: map<Key, Bucket>, k: Key, now: real, later: real)
    requires Inv(rate, buckets, now) && now <= later
    ensures Level(rate, buckets, k, later) <= Level(rate, buckets, k, now) + (later - now) * rate as real
  {
    var r := rate as real;
    assert (later - now) * r >= 0.0;
    if k in buckets {
      var b := buckets[k];
      assert (later - b.lastSeen) * r == (now - b.lastSeen) * r + (later - now) * r;
    }
  }

  /** An idle bucket would be full again on its next request, so dropping it changes no level. */
  lemma PruneKeepsLevels(rate: nat, l: Limiter, k: Key, now: real)
    requires rate >= 1 && Inv(rate, l.buckets, now)
    ensures Inv(rate, Cleaned(l, now).buckets, now)
    ensures Level(rate, Cleaned(l, now).buckets, k, now) == Level(rate, l.buckets, k, now)
  {
    if k in l.buckets && k !in Cleaned(l, now).buckets {
      IdleIsFull(rate, l.buckets[k], now);
    }
  }

  lemma IdleIsFull(rate: nat, b: Bucket, now: real)
    requires rate >= 1 && BucketInv(rate, b, now) && now - b.lastSeen >= CLIENT_TTL
    ensures Refill(rate, b, now) == rate as real
  {
    var r := rate as real;
    assert (now - b.lastSeen) * r == r + (now - b.lastSeen - 1.0) * r;
    assert (now - b.lastSeen - 1.0) * r >= 0.0;
  }

  lemma ChargeKeeps(rate: nat, cap: Option<nat>, buckets: map<Key, Bucket>, r: Request)
    requires rate >= 1 && Inv(rate, buckets, r.now)
    ensures Inv(rate, Charge(rate, cap, buckets, r).0, r.now)
    ensures cap.Some? && |buckets| <= cap.value ==> |Charge(rate, cap, buckets, r).0| <= cap.value
  {
    var buckets' := Charge(rate, cap, buckets, r).0;
    if r.key in buckets {
      RefillBounds(rate, buckets[r.key], r.now);
      assert buckets'.Keys == buckets.Keys;
      assert |buckets'| == |buckets'.Keys|;
      assert |buckets| == |buckets.Keys|;
    }
  }

  predicate Room(buckets: map<Key, Bucket>, cap: Option<nat>, k: Key) {
    k in buckets || !Full(buckets, cap)
  }

  lemma RefillNow(rate: nat, tokens: real, now: real)
    requires tokens <= rate as real
    ensures Refill(rate, Bucket(tokens, now), now) == tokens
  {
    assert (now - now) * rate as real == 0.0;
  }

  /** A charge costs its key one token exactly when it is allowed. */
  lemma ChargeOwnLevel(rate: nat, cap: Option<nat>, buckets: map<Key, Bucket>, r: Request)
    requires rate >= 1 && Inv(rate, buckets, r.now)
    ensures var (buckets', ok) := Charge(rate, cap, buckets, r);
            && (ok <==> Level(rate, buckets, r.key, r.now) >= 1.0 && Room(buckets, cap, r.key))
            && Level(rate, buckets', r.key, r.now) == Level(rate, buckets, r.key, r.now) - (if ok then 1.0 else 0.0)
  {
    if r.key in buckets {
      var tokens := Refill(rate, buckets[r.key], r.now);
      RefillBounds(rate, buckets[r.key], r.now);
      RefillNow(rate, tokens, r.now);
      RefillNow(rate, tokens - 1.0, r.now);
    } else {
      RefillNow(rate, rate as real - 1.0, r.now);
    }
  }

  /**
    The meaning of one request: it is allowed exactly when the key's level is at
    least one token and a key without a bucket finds room, it costs one token
    exactly when allowed, and no other key's level moves.
   */
  lemma AllowMeansLevel(rate: nat, cap: Option<nat>, l: Limiter, r: Request, k: Key)
    requires rate >= 1 && Inv(rate, l.buckets, r.now)
    ensures var (l', ok) := AllowStep(rate, cap, l, r);
            && Inv(rate, l'.buckets, r.now)
            && (ok <==> Level(rate, l.buckets, r.key, r.now) >= 1.0 && Room(Cleaned(l, r.now).buckets, cap, r.key))
            && Level(rate, l'.buckets, k, r.now)
               == Level(rate, l.buckets, k, r.now) - (if ok && k == r.key then 1.0 else 0.0)
  {
    var cleaned := Cleaned(l, r.now);
    PruneKeepsLevels(rate, l, k, r.now);
    PruneKeepsLevels(rate, l, r.key, r.now);
    ChargeKeeps(rate, cap, cleaned.buckets, r);
    ChargeOwnLevel(rate, cap, cleaned.buckets, r);
    if k != r.key {
      ChargeOtherLevel(rate, cap, cleaned.buckets, r, k);
    }
  }

  lemma ChargeOtherLevel(rate: nat, cap: Option<nat>, buckets: map<Key, Bucket>, r: Request, k: Key)
    requires k != r.key
    ensures Level(rate, Charge(rate, cap, buckets, r).0, k, r.now) == Level(rate, buckets, k, r.now)
  {
  }

  // ---------- Request sequences ----------

  predicate Monotone(start: real, rs: seq<Request>) {
    && (rs != [] ==> start <= rs[0].now)
    && forall i, j | 0 <= i < j < |rs| :: rs[i].now <= rs[j].now
  }

  function After(rate: nat, cap: Option<nat>, l: Limiter, rs: seq<Request>): Limiter
    decreases |rs|
  {
    if rs == [] then l else After(rate, cap, AllowStep(rate, cap, l, rs[0]).0, rs[1..])
  }

  function Answers(rate: nat, cap: Option<nat>, l: Limiter, rs: seq<Request>): (answers: seq<bool>)
    ensures |answers| == |rs|
    decreases |rs|
  {
    if rs == [] then []
    else
      var (l', ok) := AllowStep(rate, cap, l, rs[0]);
      [ok] + Answers(rate, cap, l', rs[1..])
  }

  /** How many requests of key k were allowed. */
  function Admitted(rs: seq<Request>, answers: seq<bool>, k: Key): nat
    requires |rs| == |answers|
  {
    if rs == [] then 0
    else (if rs[0].key == k && answers[0] then 1 else 0) + Admitted(rs[1..], answers[1..], k)
  }

  /** One request is paid for by the level before it and the refill up to it. */
  lemma RequestIsPaid(rate: nat, cap: Option<nat>, l: Limiter, r: Request, k: Key, start: real)
    requires rate >= 1 && Inv(rate, l.buckets, start) && start <= r.now
    ensures var (l', ok) := AllowStep(rate, cap, l, r);
            && Inv(rate, l'.buckets, r.now)
            && Paid(rate, Level(rate, l.buckets, k, start), Level(rate, l'.buckets, k, r.now),
                    if r.key == k && ok then 1 else 0, r.now - start)
  {
    LevelGrowth(rate, l.buckets, k, start, r.now);
    AllowMeansLevel(rate, cap, l, r, k);
  }

  lemma {:induction false} AfterKeepsInv(rate: nat, cap: Option<nat>, l: Limiter, rs: seq<Request>, start: real,
                                         end: real)
    requires rate >= 1 && Inv(rate, l.buckets, start) && Monotone(start, rs)
    requires start <= end && forall r | r in rs :: r.now <= end
    ensures Inv(rate, After(rate, cap, l, rs).buckets, end)
    decreases |rs|
  {
    if rs != [] {
      RequestIsPaid(rate, cap, l, rs[0], rs[0].key, start);
      AfterKeepsInv(rate, cap, AllowStep(rate, cap, l, rs[0]).0, rs[1..], rs[0].now, end);
    }
  }

  /** Each admission lowers the level by one, and the level gains at most `rate` a second. */
  predicate Paid(rate: nat, from: real, to: real, admitted: nat, elapsed: real) {
    to + admitted as real <= from + elapsed * rate as real
  }

  lemma PaidInTurn(rate: nat, from: real, mid: real, to: real, a: nat, b: nat, first: real, second: real)
    requires Paid(rate, from, mid, a, first) && Paid(rate, mid, to, b, second)
    ensures Paid(rate, from, to, a + b, first + second)
  {
    assert (first + second) * rate as real == first * rate as real + second * rate as real;
  }

  /** Admissions are paid for: by the level at the start and the refill since. */
  lemma {:induction false} AdmissionsArePaid(rate: nat, cap: Option<nat>, l: Limiter, rs: seq<Request>, k: Key,
                                             start: real, end: real)
    requires rate >= 1 && Inv(rate, l.buckets, start) && Monotone(start, rs)
    requires start <= end && forall r | r in rs :: r.now <= end
    ensures Paid(rate, Level(rate, l.buckets, k, start), Level(rate, After(rate, cap, l, rs).buckets, k, end),
                 Admitted(rs, Answers(rate, cap, l, rs), k), end - start)
    decreases |rs|
  {
    if rs == [] {
      LevelGrowth(rate, l.buckets, k, start, end);
    } else {
      var (l', ok) := AllowStep(rate, cap, l, rs[0]);
      RequestIsPaid(rate, cap, l, rs[0], k, start);
      AdmissionsArePaid(rate, cap, l', rs[1..], k, rs[0].now, end);
      var rest := Answers(rate, cap, l', rs[1..]);
      assert Answers(rate, cap, l, rs) == [ok] + rest;
      PaidInTurn(rate, Level(rate, l.buckets, k, start), Level(rate, l'.buckets, k, rs[0].now),
                 Level(rate, After(rate, cap, l, rs).buckets, k, end),
                 if rs[0].key == k && ok then 1 else 0, Admitted(rs[1..], rest, k), rs[0].now - start, end - rs[0].now);
    }
  }

  lemma {:induction false} AnswersSplit(rate: nat, cap: Option<nat>, l: Limiter, a: seq<Request>, b: seq<Request>)
    ensures Answers(rate, cap, l, a + b) == Answers(rate, cap, l, a) + Answers(rate, cap, After(rate, cap, l, a), b)
    ensures After(rate, cap, l, a + b) == After(rate, cap, After(rate, cap, l, a), b)
    decreases |a|
  {
    if a == [] {
      assert a + b == b;
    } else {
      assert (a + b)[1..] == a[1..] + b;
      AnswersSplit(rate, cap, AllowStep(rate, cap, l, a[0]).0, a[1..], b);
    }
  }

  lemma WindowAnswers(rate: nat, cap: Option<nat>, l: Limiter, rs: seq<Request>, i: nat, j: nat)
    requires i <= j <= |rs|
    ensures Answers(rate, cap, l, rs)[i..j] == Answers(rate, cap, After(rate, cap, l, rs[..i]), rs[i..j])
  {
    var a, b := Answers(rate, cap, l, rs[..i]), Answers(rate, cap, After(rate, cap, l, rs[..i]), rs[i..j]);
    var c := Answers(rate, cap, After(rate, cap, l, rs[..j]), rs[j..]);
    assert Answers(rate, cap, l, rs[..j]) == a + b by {
      assert rs[..j] == rs[..i] + rs[i..j];
      AnswersSplit(rate, cap, l, rs[..i], rs[i..j]);
    }
    assert Answers(rate, cap, l, rs) == a + b + c by {
      assert rs == rs[..j] + rs[j..];
      AnswersSplit(rate, cap, l, rs[..j], rs[j..]);
    }
    assert (a + b + c)[|a|..|a| + |b|] == b;
  }

  lemma ReachableInv(rate: nat, cap: Option<nat>, cleanup: real, rs: seq<Request>, i: nat)
    requires rate >= 1 && i < |rs| && Monotone(rs[0].now, rs)
    ensures Inv(rate, After(rate, cap, Limiter(map[], cleanup), rs[..i]).buckets, rs[i].now)
  {
    AfterKeepsInv(rate, cap, Limiter(map[], cleanup), rs[..i], rs[0].now, rs[i].now);
  }

  /**
    In every request sequence, the requests from position i up to j that lie in
    a window of `window` seconds admit at most rate * (1 + window) of one key.
   */
  lemma WindowBound(rate: nat, cap: Option<nat>, cleanup: real, rs: seq<Request>, i: nat, j: nat, k: Key, window: real)
    requires rate >= 1 && i < j <= |rs| && Monotone(rs[0].now, rs)
    requires rs[j - 1].now - rs[i].now <= window
    ensures var answers := Answers(rate, cap, Limiter(map[], cleanup), rs);
            Admitted(rs[i..j], answers[i..j], k) as real <= rate as real * (1.0 + window)
  {
    var before := After(rate, cap, Limiter(map[], cleanup), rs[..i]);
    var start, end := rs[i].now, rs[j - 1].now;
    WindowAnswers(rate, cap, Limiter(map[], cleanup), rs, i, j);
    ReachableInv(rate, cap, cleanup, rs, i);
    AfterKeepsInv(rate, cap, before, rs[i..j], start, end);
    AdmissionsArePaid(rate, cap, before, rs[i..j], k, start, end);
    LevelInRange(rate, before.buckets, k, start);
    LevelInRange(rate, After(rate, cap, before, rs[i..j]).buckets, k, end);
    PaidByAWindow(rate, Level(rate, before.buckets, k, start),
                  Level(rate, After(rate, cap, before, rs[i..j]).buckets, k, end),
                  Admitted(rs[i..j], Answers(rate, cap, before, rs[i..j]), k), end - start, window);
  }

  lemma LevelInRange(rate: nat, buckets: map<Key, Bucket>, k: Key, now: real)
    requires Inv(rate, buckets, now)
    ensures 0.0 <= Level(rate, buckets, k, now) <= rate as real
  {
    if k in buckets {
      RefillBounds(rate, buckets[k], now);
    }
  }

  lemma PaidByAWindow(rate: nat, from: real, to: real, admitted: nat, elapsed: real, window: real)
    requires Paid(rate, from, to, admitted, elapsed) && 0.0 <= to && from <= rate as real && elapsed <= window
    ensures admitted as real <= rate as real * (1.0 + window)
  {
    assert (window - elapsed) * rate as real >= 0.0;
  }

  /** No sequence of requests takes the table past its cap. */
  lemma {:induction false} TableStaysWithinCap(rate: nat, cap: nat, l: Limiter, rs: seq<Request>, start: real)
    requires rate >= 1 && Inv(rate, l.buckets, start) && Monotone(start, rs) && |l.buckets| <= cap
    ensures |After(rate, Some(cap), l, rs).buckets| <= cap
    decreases |rs|
  {
    if rs != [] {
      var r := rs[0];
      var cleaned := Cleaned(l, r.now);
      assert cleaned.buckets.Keys <= l.buckets.Keys;
      SubsetSize(cleaned.buckets.Keys, l.buckets.Keys);
      assert |cleaned.buckets| == |cleaned.buckets.Keys| && |l.buckets| == |l.buckets.Keys|;
      PruneKeepsLevels(rate, l, r.key, r.now);
      ChargeKeeps(rate, Some(cap), cleaned.buckets, r);
      TableStaysWithinCap(rate, cap, AllowStep(rate, Some(cap), l, r).0, rs[1..], r.now);
    }
  }

  // ---------- Pruning is invisible ----------

  /** A limiter that never prunes. */
  function PlainAnswers(rate: nat, buckets: map<Key, Bucket>, rs: seq<Request>): seq<bool>
    decreases |rs|
  {
    if rs == [] then []
    else
      var (buckets', ok) := Charge(rate, None, buckets, rs[0]);
      [ok] + PlainAnswers(rate, buckets', rs[1..])
  }

  /** The pruned table is part of the whole one, and what it lacks is full. */
  ghost predicate Simulates(rate: nat, pruned: map<Key, Bucket>, whole: map<Key, Bucket>, now: real) {
    && (forall k | k in pruned :: k in whole && whole[k] == pruned[k])
    && (forall k | k in whole && k !in pruned :: Refill(rate, whole[k], now) == rate as real)
  }

  lemma FullStaysFull(rate: nat, b: Bucket, now: real, later: real)
    requires BucketInv(rate, b, now) && now <= later && Refill(rate, b, now) == rate as real
    ensures Refill(rate, b, later) == rate as real
  {
    var r := rate as real;
    assert (later - b.lastSeen) * r == (now - b.lastSeen) * r + (later - now) * r;
    assert (later - now) * r >= 0.0;
  }

  lemma CleaningSimulates(rate: nat, l: Limiter, whole: map<Key, Bucket>, now: real, later: real)
    requires rate >= 1 && Inv(rate, whole, now) && Simulates(rate, l.buckets, whole, now) && now <= later
    ensures Simulates(rate, Cleaned(l, later).buckets, whole, later)
  {
    forall k | k in whole && k !in Cleaned(l, later).buckets
      ensures Refill(rate, whole[k], later) == rate as real
    {
      if k in l.buckets {
        IdleIsFull(rate, whole[k], later);
      } else {
        FullStaysFull(rate, whole[k], now, later);
      }
    }
  }

  lemma ChargingSimulates(rate: nat, pruned: map<Key, Bucket>, whole: map<Key, Bucket>, r: Request)
    requires rate >= 1 && Inv(rate, whole, r.now) && Simulates(rate, pruned, whole, r.now)
    ensures Charge(rate, None, pruned, r).1 == Charge(rate, None, whole, r).1
    ensures Simulates(rate, Charge(rate, None, pruned, r).0, Charge(rate, None, whole, r).0, r.now)
  {
  }

  /** A limiter that prunes idle buckets answers every request sequence as one that never does. */
  lemma {:induction false} PruningIsInvisible(rate: nat, l: Limiter, whole: map<Key, Bucket>, rs: seq<Request>,
                                              start: real)
    requires rate >= 1 && Inv(rate, whole, start) && Simulates(rate, l.buckets, whole, start) && Monotone(start, rs)
    ensures Answers(rate, None, l, rs) == PlainAnswers(rate, whole, rs)
    decreases |rs|
  {
    if rs != [] {
      var r := rs[0];
      CleaningSimulates(rate, l, whole, start, r.now);
      ChargingSimulates(rate, Cleaned(l, r.now).buckets, whole, r);
      ChargeKeeps(rate, None, whole, r);
      PruningIsInvisible(rate, AllowStep(rate, None, l, r).0, Charge(rate, None, whole, r).0, rs[1..], r.now);
    }
  }

  // ---------- The limiters ----------

  /** The loop over the table that deletes idle entries. */
  method Prune(buckets: map<Key, Bucket>, now: real) returns (left: map<Key, Bucket>)
    ensures left == Pruned(buckets, now)
  {
    left := buckets;
    var todo := buckets.Keys;
    while todo != {}
      invariant todo <= buckets.Keys
      invariant forall k :: k in left <==> k in buckets && (k in todo || now - buckets[k].lastSeen < CLIENT_TTL)
      invariant forall k | k in left :: left[k] == buckets[k]
      decreases |todo|
    {
      var k :| k in todo;
      if now - buckets[k].lastSeen >= CLIENT_TTL {
        left := left - {k};
      }
      todo := todo - {k};
    }
  }

  class IpRateLimiter {
    const rate: nat
    var buckets: map<Key, Bucket>
    var nextCleanup: real

    constructor (rate: nat, now: real)
      ensures this.rate == rate && buckets == map[] && nextCleanup == now + CLEANUP_INTERVAL
    {
      this.rate := rate;
      buckets := map[];
      nextCleanup := now + CLEANUP_INTERVAL;
    }

    method Allow(key: Key, now: real) returns (ok: bool)
      modifies this
      ensures (Limiter(buckets, nextCleanup), ok)
              == AllowStep(rate, Some(MAX_CLIENTS), Limiter(old(buckets), old(nextCleanup)), Request(key, now))
    {
      if now >= nextCleanup {
        buckets := Prune(buckets, now);
        nextCleanup := now + CLEANUP_INTERVAL;
      }
      if key !in buckets {
        if |buckets| >= MAX_CLIENTS {
          return false;
        }
        buckets := buckets[key := Bucket(rate as real - 1.0, now)];
        return true;
      }
      var b := buckets[key];
      var tokens := b.tokens + (now - b.lastSeen) * rate as real;
      if tokens > rate as real {
        tokens := rate as real;
      }
      assert tokens == Refill(rate, b, now);
      ghost var table := buckets;
      buckets := buckets[key := Bucket(tokens, now)];
      if tokens < 1.0 {
        return false;
      }
      buckets := buckets[key := Bucket(tokens - 1.0, now)];
      assert buckets == table[key := Bucket(tokens - 1.0, now)];
      return true;
    }
  }

  class NamespaceRateLimiter {
    const rate: nat
    var buckets: map<Key, Bucket>
    var nextCleanup: real

    /** `nextCleanup` starts at the zero time, so the first request cleans up. */
    constructor (rate: nat)
      ensures this.rate == rate && buckets == map[] && nextCleanup == 0.0
    {
      this.rate := rate;
      buckets := map[];
      nextCleanup := 0.0;
    }

    method Allow(key: Key, now: real) returns (ok: bool)
      modifies this
      ensures (Limiter(buckets, nextCleanup), ok)
              == AllowStep(rate, None, Limiter(old(buckets), old(nextCleanup)), Request(key, now))
    {
      if now >= nextCleanup {
        buckets := Prune(buckets, now);
        nextCleanup := now + CLEANUP_INTERVAL;
      }
      if key !in buckets {
        buckets := buckets[key := Bucket(rate as real - 1.0, now)];
        return true;
      }
      var b := buckets[key];
      var tokens := b.tokens + (now - b.lastSeen) * rate as real;
      if tokens > rate as real {
        tokens := rate as real;
      }
      assert tokens == Refill(rate, b, now);
      ghost var table := buckets;
      buckets := buckets[key := Bucket(tokens, now)];
      if tokens < 1.0 {
        return false;
      }
      buckets := buckets[key := Bucket(tokens - 1.0, now)];
      assert buckets == table[key := Bucket(tokens - 1.0, now)];
      return true;
    }
  }
}
