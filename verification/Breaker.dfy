/**
  The per-URL circuit breaker of internal/circuitbreaker/breaker.go.

  The code keeps a map of counters and epochs in which absence means closed.
  It is shown to be a simple automaton per URL whose half-open state is the set
  of outstanding probe permits. Pointer identity of an entry is its allocation
  number.
 */
module Breaker {
  import opened Options

  type Url = string

  datatype Config = Config(threshold: int, cooldown: int, maxProbes: nat)

  predicate ValidConfig(c: Config) {
    c.maxProbes >= 1
  }

  // ---------- The code's state ----------

  datatype Phase = Closed | Open | HalfOpen

  datatype Entry = Entry(number: nat, phase: Phase, failures: nat, openedAt: int, probes: int, epoch: nat)

  /** The cleanup closure of one half-open admission; `used` is its sync.Once. */
  datatype Permit = Permit(url: Url, entry: nat, epoch: nat, used: bool)

  datatype State = State(entries: map<Url, Entry>, created: nat, permits: seq<Permit>)

  const EMPTY := State(map[], 0, [])

  datatype Answer = Refused | Admitted | AdmittedAsProbe

  function Probe(s: State, url: Url, e: Entry): State {
    s.(entries := s.entries[url := e], permits := s.permits + [Permit(url, e.number, e.epoch, false)])
  }

  function AllowStep(c: Config, s: State, url: Url, now: int): (State, Answer) {
    if url !in s.entries then (s, Admitted)
    else
      var e := s.entries[url];
      match e.phase
      case Closed => (s, Admitted)
      case Open =>
        if now - e.openedAt >= c.cooldown then
          (Probe(s, url, e.(phase := HalfOpen, probes := 1, epoch := e.epoch + 1)), AdmittedAsProbe)
        else (s, Refused)
      case HalfOpen =>
        if e.probes < c.maxProbes then (Probe(s, url, e.(probes := e.probes + 1)), AdmittedAsProbe)
        else (s, Refused)
  }

  /** The closure's test that its admission is still the current one. */
  predicate Current(s: State, k: nat)
    requires k < |s.permits|
  {
    var p := s.permits[k];
    p.url in s.entries && s.entries[p.url].number == p.entry && s.entries[p.url].phase.HalfOpen?
    && s.entries[p.url].epoch == p.epoch
  }

  function CancelStep(s: State, k: nat): State {
    if k >= |s.permits| || s.permits[k].used then s
    else
      var p := s.permits[k];
      var s' := s.(permits := s.permits[k := p.(used := true)]);
      if Current(s, k) && s.entries[p.url].probes > 0 then
        s'.(entries := s.entries[p.url := s.entries[p.url].(probes := s.entries[p.url].probes - 1)])
      else s'
  }

  function SuccessStep(s: State, url: Url): State {
    s.(entries := s.entries - {url})
  }

  function FailureStep(c: Config, s: State, url: Url, now: int): State {
    var s' := if url in s.entries then s
              else s.(entries := s.entries[url := Entry(s.created, Closed, 0, 0, 0, 0)], created := s.created + 1);
    var e := s'.entries[url];
    var e' := e.(failures := e.failures + 1);
    s'.(entries := s'.entries[url := if e'.failures >= c.threshold then e'.(phase := Open, openedAt := now) else e'])
  }

  // ---------- The automaton ----------

  datatype Circuit =
    | Conducting(failures: nat)
    | Tripped(failures: nat, since: int)
    | Probing(failures: nat, since: int, permits: set<nat>)

  function SpecAllow(c: Config, a: Circuit, now: int, permit: nat): (Circuit, Answer) {
    match a
    case Conducting(_) => (a, Admitted)
    case Tripped(n, since) =>
      if now - since >= c.cooldown then (Probing(n, since, {permit}), AdmittedAsProbe) else (a, Refused)
    case Probing(n, since, permits) =>
      if |permits| < c.maxProbes then (Probing(n, since, permits + {permit}), AdmittedAsProbe) else (a, Refused)
  }

  function SpecCancel(a: Circuit, permit: nat): Circuit {
    if a.Probing? then a.(permits := a.permits - {permit}) else a
  }

  function SpecFailure(c: Config, a: Circuit, now: int): Circuit {
    if a.failures + 1 >= c.threshold then Tripped(a.failures + 1, now) else Conducting(a.failures + 1)
  }

  /** What a reachable circuit looks like: it conducts exactly below the threshold. */
  predicate CircuitInv(c: Config, a: Circuit) {
    && (!a.Conducting? ==> a.failures >= c.threshold)
    && (a.Conducting? && c.threshold >= 1 ==> a.failures < c.threshold)
    && (a.Probing? ==> |a.permits| <= c.maxProbes)
  }

  // ---------- Abstraction ----------

  /** The permits of `url` that are live in the epoch of `e`. */
  function PermitsIn(s: State, url: Url, e: Entry): set<nat> {
    set k | 0 <= k < |s.permits| && !s.permits[k].used && s.permits[k].url == url
            && s.permits[k].entry == e.number && s.permits[k].epoch == e.epoch
  }

  function LivePermits(s: State, url: Url): set<nat>
    requires url in s.entries
  {
    PermitsIn(s, url, s.entries[url])
  }

  function View(s: State, url: Url): Circuit {
    if url !in s.entries then Conducting(0)
    else
      var e := s.entries[url];
      match e.phase
      case Closed => Conducting(e.failures)
      case Open => Tripped(e.failures, e.openedAt)
      case HalfOpen => Probing(e.failures, e.openedAt, LivePermits(s, url))
  }

  predicate EntryInv(c: Config, s: State, url: Url)
    requires url in s.entries
  {
    var e := s.entries[url];
    && e.number < s.created
    && (e.phase.HalfOpen? ==> e.probes == |LivePermits(s, url)|)
    && CircuitInv(c, View(s, url))
  }

  /** A permit names an entry of its own URL, in an epoch that entry has reached. */
  predicate PermitInv(s: State, k: nat)
    requires k < |s.permits|
  {
    var p := s.permits[k];
    && p.entry < s.created
    && (forall url | url in s.entries && s.entries[url].number == p.entry ::
          url == p.url && p.epoch <= s.entries[url].epoch)
  }

  ghost predicate Inv(c: Config, s: State) {
    && ValidConfig(c)
    && (forall url | url in s.entries :: EntryInv(c, s, url))
    && (forall k | 0 <= k < |s.permits| :: PermitInv(s, k))
    && (forall u, v | u in s.entries && v in s.entries && s.entries[u].number == s.entries[v].number :: u == v)
  }

  // ---------- Refinement, operation by operation ----------

  /** An epoch that an entry has not reached yet has no permits. */
  lemma NextEpochIsEmpty(c: Config, s: State, url: Url, e: Entry)
    requires Inv(c, s) && url in s.entries && e.number == s.entries[url].number && e.epoch > s.entries[url].epoch
    ensures |PermitsIn(s, url, e)| == 0
  {
    forall k | 0 <= k < |s.permits|
      ensures k !in PermitsIn(s, url, e)
    {
      assert PermitInv(s, k);
    }
    assert PermitsIn(s, url, e) == {};
  }

  lemma ProbePermits(s: State, url: Url, e: Entry)
    requires url in s.entries && e.number == s.entries[url].number
    ensures LivePermits(Probe(s, url, e), url) == PermitsIn(s, url, e) + {|s.permits|}
    ensures |LivePermits(Probe(s, url, e), url)| == |PermitsIn(s, url, e)| + 1
    ensures forall v | v in s.entries && v != url :: LivePermits(Probe(s, url, e), v) == LivePermits(s, v)
  {
    assert |s.permits| !in PermitsIn(s, url, e);
  }

  lemma ProbeKeeps(c: Config, s: State, url: Url, e: Entry)
    requires Inv(c, s) && url in s.entries && !s.entries[url].phase.Closed?
    requires e.number == s.entries[url].number && e.epoch >= s.entries[url].epoch
    requires e.failures == s.entries[url].failures
    requires e.phase.HalfOpen? && e.probes == |PermitsIn(s, url, e)| + 1 <= c.maxProbes
    ensures Inv(c, Probe(s, url, e))
  {
    var s' := Probe(s, url, e);
    ProbePermits(s, url, e);
    assert EntryInv(c, s, url);
    forall v | v in s'.entries
      ensures EntryInv(c, s', v)
    {
      assert EntryInv(c, s, v);
    }
    forall k | 0 <= k < |s'.permits|
      ensures PermitInv(s', k)
    {
      if k < |s.permits| {
        assert PermitInv(s, k);
      }
    }
  }

  lemma AllowRefines(c: Config, s: State, url: Url, now: int)
    requires Inv(c, s)
    ensures var (s', answer) := AllowStep(c, s, url, now);
            && Inv(c, s')
            && (View(s', url), answer) == SpecAllow(c, View(s, url), now, |s.permits|)
            && forall v | v != url :: View(s', v) == View(s, v)
  {
    var (s', answer) := AllowStep(c, s, url, now);
    if answer.AdmittedAsProbe? {
      assert EntryInv(c, s, url);
      var e := s'.entries[url];
      if s.entries[url].phase.Open? {
        NextEpochIsEmpty(c, s, url, e);
        assert PermitsIn(s, url, e) == {};
      } else {
        assert PermitsIn(s, url, e) == LivePermits(s, url);
      }
      ProbePermits(s, url, e);
      ProbeKeeps(c, s, url, e);
    } else if url in s.entries {
      assert EntryInv(c, s, url);
    }
  }

  lemma PermitGone(s: State, k: nat, url: Url)
    requires k < |s.permits| && url in s.entries
    ensures LivePermits(s.(permits := s.permits[k := s.permits[k].(used := true)]), url) == LivePermits(s, url) - {k}
  {
  }

  lemma CancelRefines(c: Config, s: State, k: nat)
    requires Inv(c, s)
    ensures Inv(c, CancelStep(s, k))
    ensures forall url :: View(CancelStep(s, k), url) == SpecCancel(View(s, url), k)
  {
    var s' := CancelStep(s, k);
    if k < |s.permits| && !s.permits[k].used {
      var p := s.permits[k];
      var mid := s.(permits := s.permits[k := p.(used := true)]);
      assert PermitInv(s, k);
      forall url | url in s.entries
        ensures LivePermits(s', url) == LivePermits(s, url) - {k} && EntryInv(c, s', url)
      {
        assert EntryInv(c, s, url);
        PermitGone(s, k, url);
        assert LivePermits(s', url) == LivePermits(mid, url);
        if url == p.url && Current(s, k) {
          assert k in LivePermits(s, url);
        } else {
          assert s.entries[url].phase.HalfOpen? ==> k !in LivePermits(s, url);
        }
      }
      forall i | 0 <= i < |s'.permits|
        ensures PermitInv(s', i)
      {
        assert PermitInv(s, i);
      }
    } else {
      forall url | url in s.entries
        ensures k !in LivePermits(s, url)
      {
      }
    }
  }

  lemma SuccessRefines(c: Config, s: State, url: Url)
    requires Inv(c, s)
    ensures var s' := SuccessStep(s, url);
            Inv(c, s') && View(s', url) == Conducting(0) && forall v | v != url :: View(s', v) == View(s, v)
  {
    var s' := SuccessStep(s, url);
    forall v | v in s'.entries
      ensures LivePermits(s', v) == LivePermits(s, v) && EntryInv(c, s', v)
    {
      assert EntryInv(c, s, v);
    }
    forall k | 0 <= k < |s'.permits|
      ensures PermitInv(s', k)
    {
      assert PermitInv(s, k);
    }
  }

  lemma FailureRefines(c: Config, s: State, url: Url, now: int)
    requires Inv(c, s)
    ensures var s' := FailureStep(c, s, url, now);
            && Inv(c, s')
            && View(s', url) == SpecFailure(c, View(s, url), now)
            && forall v | v != url :: View(s', v) == View(s, v)
  {
    var s' := FailureStep(c, s, url, now);
    if url in s.entries {
      assert EntryInv(c, s, url);
    }
    forall k | 0 <= k < |s'.permits|
      ensures PermitInv(s', k)
    {
      assert PermitInv(s, k);
    }
    forall v | v in s'.entries
      ensures EntryInv(c, s', v) && (v != url ==> View(s', v) == View(s, v))
    {
      if v != url {
        assert EntryInv(c, s, v);
        assert LivePermits(s', v) == LivePermits(s, v);
      }
    }
  }

  // ---------- Runs ----------

  datatype Op =
    | Allow(url: Url, now: int)
    | Cancel(permit: nat)
    | Success(url: Url)
    | Failure(url: Url, now: int)

  function Next(c: Config, s: State, op: Op): State {
    match op
    case Allow(url, now) => AllowStep(c, s, url, now).0
    case Cancel(k) => CancelStep(s, k)
    case Success(url) => SuccessStep(s, url)
    case Failure(url, now) => FailureStep(c, s, url, now)
  }

  function Run(c: Config, s: State, ops: seq<Op>): State
    decreases |ops|
  {
    if ops == [] then s else Run(c, Next(c, s, ops[0]), ops[1..])
  }

  /** The automaton's reaction to an operation, for the circuit of `url`. */
  function SpecNext(c: Config, a: Circuit, url: Url, op: Op, permit: nat): Circuit {
    match op
    case Allow(u, now) => if u == url then SpecAllow(c, a, now, permit).0 else a
    case Cancel(k) => SpecCancel(a, k)
    case Success(u) => if u == url then Conducting(0) else a
    case Failure(u, now) => if u == url then SpecFailure(c, a, now) else a
  }

  lemma NextRefines(c: Config, s: State, op: Op, url: Url)
    requires Inv(c, s)
    ensures Inv(c, Next(c, s, op))
    ensures View(Next(c, s, op), url) == SpecNext(c, View(s, url), url, op, |s.permits|)
  {
    match op
    case Allow(u, now) => AllowRefines(c, s, u, now);
    case Cancel(k) => CancelRefines(c, s, k);
    case Success(u) => SuccessRefines(c, s, u);
    case Failure(u, now) => FailureRefines(c, s, u, now);
  }

  lemma {:induction false} RunKeeps(c: Config, s: State, ops: seq<Op>)
    requires Inv(c, s)
    ensures Inv(c, Run(c, s, ops))
    decreases |ops|
  {
    if ops != [] {
      NextRefines(c, s, ops[0], "");
      RunKeeps(c, Next(c, s, ops[0]), ops[1..]);
    }
  }

  /**
    After any history the breaker answers and moves as the automaton does: the
    map with its deletions, epochs and counters is the automaton seen through View.
   */
  lemma BreakerRefinesAutomaton(c: Config, ops: seq<Op>, op: Op, url: Url)
    requires ValidConfig(c)
    ensures var s := Run(c, EMPTY, ops);
            && View(Next(c, s, op), url) == SpecNext(c, View(s, url), url, op, |s.permits|)
            && CircuitInv(c, View(s, url))
            && (op.Allow? ==> AllowStep(c, s, op.url, op.now).1 == SpecAllow(c, View(s, op.url), op.now, |s.permits|).1)
  {
    RunKeeps(c, EMPTY, ops);
    var s := Run(c, EMPTY, ops);
    NextRefines(c, s, op, url);
    if url in s.entries {
      assert EntryInv(c, s, url);
    }
    if op.Allow? {
      AllowRefines(c, s, op.url, op.now);
    }
  }

  /** In half-open state the counter is the number of live permits, and never exceeds the limit. */
  lemma ProbesAreCounted(c: Config, ops: seq<Op>, url: Url)
    requires ValidConfig(c)
    requires var s := Run(c, EMPTY, ops); url in s.entries && s.entries[url].phase.HalfOpen?
    ensures var s := Run(c, EMPTY, ops);
            s.entries[url].probes == |LivePermits(s, url)| <= c.maxProbes
  {
    RunKeeps(c, EMPTY, ops);
    assert EntryInv(c, Run(c, EMPTY, ops), url);
  }

  /**
    An unused permit that is still current finds the counter positive, so the
    closure's `> 0` test never decides; a permit of an older epoch or of a
    deleted entry changes no circuit; and using it twice is using it once.
   */
  lemma CancellationIsSafe(c: Config, ops: seq<Op>, k: nat)
    requires ValidConfig(c) && k < |Run(c, EMPTY, ops).permits|
    ensures var s := Run(c, EMPTY, ops);
            && (Current(s, k) && !s.permits[k].used ==> s.entries[s.permits[k].url].probes > 0)
            && (!Current(s, k) ==> CancelStep(s, k).entries == s.entries)
            && CancelStep(CancelStep(s, k), k) == CancelStep(s, k)
  {
    RunKeeps(c, EMPTY, ops);
    var s := Run(c, EMPTY, ops);
    if Current(s, k) && !s.permits[k].used {
      var url := s.permits[k].url;
      assert EntryInv(c, s, url);
      assert k in LivePermits(s, url);
    }
  }

  // ---------- Cooldown ----------

  /** Operation times never go back. */
  predicate Monotone(ops: seq<Op>, start: int) {
    ops == [] ||
    (var first := ops[0];
     var t := if first.Allow? || first.Failure? then first.now else start;
     start <= t && Monotone(ops[1..], t))
  }

  /** The circuit has stayed open or half-open since it tripped at `since`, and half-open only after the cooldown. */
  predicate CoolingSince(c: Config, a: Circuit, since: int, clock: int) {
    && !a.Conducting? && a.failures >= c.threshold && since <= a.since && since <= clock
    && (a.Probing? ==> a.since + c.cooldown <= clock)
  }

  /**
    Once a failure at or past the threshold has been recorded at time `since`,
    and until a success is, no request to the URL is admitted before the
    cooldown has elapsed, whatever else happens in between.
   */
  lemma {:induction false} NothingAdmittedBeforeCooldown(c: Config, s: State, url: Url, since: int, clock: int,
                                                         ops: seq<Op>, now: int)
    requires Inv(c, s) && CoolingSince(c, View(s, url), since, clock)
    requires Monotone(ops + [Allow(url, now)], clock)
    requires Success(url) !in ops
    ensures AllowStep(c, Run(c, s, ops), url, now).1 != Refused ==> now - since >= c.cooldown
    decreases |ops|
  {
    if ops == [] {
      AllowRefines(c, s, url, now);
    } else {
      var op := ops[0];
      var t := if op.Allow? || op.Failure? then op.now else clock;
      assert (ops + [Allow(url, now)])[1..] == ops[1..] + [Allow(url, now)];
      NextRefines(c, s, op, url);
      assert op != Success(url);
      NothingAdmittedBeforeCooldown(c, Next(c, s, op), url, since, t, ops[1..], now);
    }
  }

  /** A failure that reaches the threshold starts such a cooldown, also from half-open. */
  lemma FailureStartsCooldown(c: Config, s: State, url: Url, now: int)
    requires Inv(c, s) && View(s, url).failures + 1 >= c.threshold
    ensures CoolingSince(c, View(FailureStep(c, s, url, now), url), now, now)
    ensures !View(s, url).Conducting? ==>
              View(FailureStep(c, s, url, now), url) == Tripped(View(s, url).failures + 1, now)
  {
    FailureRefines(c, s, url, now);
  }

  // ---------- The breaker object ----------

  class CircuitBreaker {
    var state: State
    const config: Config

    ghost predicate Valid()
      reads this
    {
      Inv(config, state)
    }

    constructor (config: Config)
      requires ValidConfig(config)
      ensures Valid() && this.config == config && forall url :: View(state, url) == Conducting(0)
    {
      this.config := config;
      state := EMPTY;
    }

    method AllowWithCancel(url: Url, now: int) returns (answer: Answer, permit: Option<nat>)
      requires Valid()
      modifies this
      ensures Valid()
      ensures (View(state, url), answer) == SpecAllow(config, View(old(state), url), now, |old(state).permits|)
      ensures forall v | v != url :: View(state, v) == View(old(state), v)
      ensures answer.AdmittedAsProbe? <==> permit == Some(|old(state).permits|)
      ensures state == AllowStep(config, old(state), url, now).0
    {
      AllowRefines(config, state, url, now);
      permit := None;
      if url !in state.entries || state.entries[url].phase.Closed? {
        return Admitted, None;
      }
      var e := state.entries[url];
      if e.phase.Open? {
        if now - e.openedAt < config.cooldown {
          return Refused, None;
        }
        e := e.(phase := HalfOpen, probes := 1, epoch := e.epoch + 1);
      } else {
        if e.probes >= config.maxProbes {
          return Refused, None;
        }
        e := e.(probes := e.probes + 1);
      }
      permit := Some(|state.permits|);
      state := state.(entries := state.entries[url := e],
                      permits := state.permits + [Permit(url, e.number, e.epoch, false)]);
      answer := AdmittedAsProbe;
    }

    method CancelProbe(permit: nat)
      requires Valid() && permit < |state.permits|
      modifies this
      ensures Valid()
      ensures forall url :: View(state, url) == SpecCancel(View(old(state), url), permit)
      ensures state == CancelStep(old(state), permit)
    {
      CancelRefines(config, state, permit);
      var p := state.permits[permit];
      if p.used {
        return;
      }
      var entries := state.entries;
      if p.url in entries {
        var e := entries[p.url];
        if e.number == p.entry && e.phase.HalfOpen? && e.epoch == p.epoch && e.probes > 0 {
          entries := entries[p.url := e.(probes := e.probes - 1)];
        }
      }
      state := state.(entries := entries, permits := state.permits[permit := p.(used := true)]);
    }

    method RecordSuccess(url: Url)
      requires Valid()
      modifies this
      ensures Valid() && url !in state.entries
      ensures View(state, url) == Conducting(0) && forall v | v != url :: View(state, v) == View(old(state), v)
    {
      SuccessRefines(config, state, url);
      state := state.(entries := state.entries - {url});
    }

    method RecordFailure(url: Url, now: int)
      requires Valid()
      modifies this
      ensures Valid()
      ensures View(state, url) == SpecFailure(config, View(old(state), url), now)
      ensures forall v | v != url :: View(state, v) == View(old(state), v)
    {
      FailureRefines(config, state, url, now);
      if url !in state.entries {
        state := state.(entries := state.entries[url := Entry(state.created, Closed, 0, 0, 0, 0)],
                        created := state.created + 1);
      }
      var e := state.entries[url].(failures := state.entries[url].failures + 1);
      if e.failures >= config.threshold {
        e := e.(phase := Open, openedAt := now);
      }
      state := state.(entries := state.entries[url := e]);
    }
  }
}
