/**
  What the ownership protocol achieves: a granted renewal extends the lease, an
  owner that renews in time keeps it for as long as it likes, a revoked one does
  nothing more, and every outcome the attempts justify can be reached.
 */
module OwnershipProgress {
  import opened Options
  import opened ExecutionRows
  import opened LocalLease
  import opened Dispatch
  import opened Ownership
  import opened OwnershipSafety

  // ---------- Owners keep the namespace of their row ----------

  ghost predicate SameNamespace(s: State) {
    forall key | key in s.owners :: key.0 in s.table && s.owners[key].ns == s.table[key.0].ns
  }

  lemma OwnerStepKeepsNs(c: Config, s: State, step: Step, o: Owner)
    requires o.node in c.nodes
    ensures OwnerStep(c, s, step, o).ns == o.ns && OwnerStep(c, s, step, o).node == o.node
  {
  }

  /** Old owners keep their namespace; a new one has that of its row. */
  ghost predicate OwnersFollow(s: State, s': State) {
    forall key | key in s'.owners ::
      if key in s.owners then s'.owners[key].ns == s.owners[key].ns
      else key.0 in s'.table && s'.owners[key].ns == s'.table[key.0].ns
  }

  lemma ClaimFollows(c: Config, s: State, step: Step)
    requires Inv(c, s) && step.DbClaim?
    ensures OwnersFollow(s, Next(c, s, step))
  {
  }

  lemma AnswerFollows(c: Config, s: State, step: Step)
    requires step.DbRenew? || step.DbRenewAbandoned? || step.DbComplete?
    ensures OwnersFollow(s, Next(c, s, step))
  {
  }

  lemma OwnerFollows(c: Config, s: State, step: Step)
    requires IsOwnerStep(step)
    ensures OwnersFollow(s, Next(c, s, step))
  {
    if step.key in s.owners && s.owners[step.key].node in c.nodes {
      OwnerStepKeepsNs(c, s, step, s.owners[step.key]);
    }
  }

  lemma ElsewhereFollows(c: Config, s: State, step: Step)
    requires step.Tick? || step.InsertRow? || step.LegacyUpdate? || step.Requeue? || step.AskClaim? || step.Crash?
    ensures OwnersFollow(s, Next(c, s, step))
  {
  }

  lemma NextFollows(c: Config, s: State, step: Step)
    requires Inv(c, s)
    ensures OwnersFollow(s, Next(c, s, step))
  {
    if step.DbClaim? {
      ClaimFollows(c, s, step);
    } else if step.DbRenew? || step.DbRenewAbandoned? || step.DbComplete? {
      AnswerFollows(c, s, step);
    } else if IsOwnerStep(step) {
      OwnerFollows(c, s, step);
    } else {
      ElsewhereFollows(c, s, step);
    }
  }

  lemma NextKeepsNs(c: Config, s: State, step: Step, s': State)
    requires Inv(c, s) && SameNamespace(s) && s' == Next(c, s, step)
    ensures SameNamespace(s')
  {
    NextMoves(c, s, step);
    NextFollows(c, s, step);
    forall key | key in s'.owners
      ensures key.0 in s'.table && s'.owners[key].ns == s'.table[key.0].ns
    {
      if key in s.owners {
        assert RowMoves(s.table[key.0], s'.table[key.0]);
      }
    }
  }

  lemma {:induction false} RunKeepsNs(c: Config, s: State, steps: seq<Step>)
    requires ValidConfig(c) && Init(s)
    ensures Inv(c, Run(c, s, steps)) && SameNamespace(Run(c, s, steps))
  {
    RunKeepsInv(c, s, steps);
    if steps != [] {
      RunKeepsNs(c, s, steps[..|steps| - 1]);
      NextKeepsNs(c, Run(c, s, steps[..|steps| - 1]), steps[|steps| - 1], Run(c, s, steps));
    }
  }

  // ---------- A granted renewal extends the lease ----------

  /**
    Over every run: when an owner reads a granted renewal before its deadline, its
    lease lives from then on exactly until one duration past the start of the
    request.
   */
  lemma RenewalExtends(c: Config, s: State, steps: seq<Step>, key: Key, t: int)
    requires ValidConfig(c) && Init(s)
    requires var s' := Run(c, s, steps);
             && Acting(c, s', key) && s'.owners[key].renewal.Asked? && s'.owners[key].renewal.answer.Yes?
    ensures var s' := Run(c, s, steps);
            var o := s'.owners[key];
            var after := Next(c, s', RenewOk(key));
            && key in after.owners && Working(after.owners[key]) && after.owners[key].renewal.Idle?
            && (Live(after.owners[key].lease, t) <==> t < o.renewal.started + Duration(c, o.node))
            && after.owners[key].pc == (if o.renewal.byLoop then Sending else o.pc)
  {
    RunKeepsInv(c, s, steps);
    assert OwnerInv(c, Run(c, s, steps), key);
  }

  // ---------- An owner that renews in time keeps its lease ----------

  /** Until its completion is written, an acting owner's statements find the row held. */
  lemma ActingOwnerIsHeld(c: Config, s: State, steps: seq<Step>, key: Key)
    requires ValidConfig(c) && Init(s) && Acting(c, Run(c, s, steps), key)
    requires !Run(c, s, steps).owners[key].completion.Written?
    ensures HeldBy(c, Run(c, s, steps), key)
  {
    RunKeepsNs(c, s, steps);
    ActingOwnerHoldsTheRow(c, s, steps, key);
  }

  /** Acting, between two background renewals, and not yet completing. */
  predicate Ready(c: Config, s: State, key: Key) {
    Acting(c, s, key) && s.owners[key].renewal.Idle? && !s.owners[key].pc.Completing?
  }

  function TimeLeft(c: Config, s: State, key: Key): int
    requires key in s.owners && s.owners[key].node in c.nodes
  {
    TrueDeadline(c, s.owners[key]) - s.now
  }

  /** A pause and one background renewal. */
  function Round(steps: seq<Step>, key: Key, pause: nat): seq<Step> {
    steps + [Tick(pause)] + [AskRenew(key, false)] + [DbRenew(key)] + [RenewOk(key)]
  }

  lemma PauseStaysReady(c: Config, s: State, key: Key, pause: nat)
    requires Ready(c, s, key) && pause < TimeLeft(c, s, key)
    ensures var s' := Next(c, s, Tick(pause)); Ready(c, s', key) && s'.owners == s.owners && s'.now == s.now + pause
  {
  }

  lemma AskStaysActing(c: Config, s: State, key: Key)
    requires Ready(c, s, key)
    ensures var s' := Next(c, s, AskRenew(key, false));
            var o := s.owners[key];
            && Acting(c, s', key) && s'.now == s.now
            && s'.owners[key] == o.(renewal := Asked(LocalNow(c, s, o.node), NotYet, false))
  {
  }

  lemma AnswerStaysActing(c: Config, s: State, key: Key)
    requires Acting(c, s, key) && s.owners[key].renewal.Asked? && s.owners[key].renewal.answer.NotYet?
    requires HeldBy(c, s, key)
    ensures var s' := Next(c, s, DbRenew(key));
            && Acting(c, s', key) && s'.now == s.now
            && s'.owners[key] == s.owners[key].(renewal := s.owners[key].renewal.(answer := Yes))
  {
  }

  /** After a round the lease has a whole duration left, and nothing else about the owner has changed. */
  lemma RoundKeepsReady(c: Config, s: State, steps: seq<Step>, key: Key, pause: nat)
    requires ValidConfig(c) && Init(s) && Ready(c, Run(c, s, steps), key)
    requires pause < TimeLeft(c, Run(c, s, steps), key)
    ensures var a, b := Run(c, s, steps), Run(c, s, Round(steps, key, pause));
            && Ready(c, b, key) && b.now == a.now + pause
            && TimeLeft(c, b, key) == Duration(c, b.owners[key].node)
            && b.owners[key].pc == a.owners[key].pc && b.owners[key].node == a.owners[key].node
  {
    var a := Run(c, s, steps);
    PauseStaysReady(c, a, key, pause);
    Snoc(c, s, steps, Tick(pause));
    var paused := steps + [Tick(pause)];
    AskStaysActing(c, Run(c, s, paused), key);
    Snoc(c, s, paused, AskRenew(key, false));
    var asked := paused + [AskRenew(key, false)];
    AskedIsNotWritten(c, s, asked, key);
    ActingOwnerIsHeld(c, s, asked, key);
    AnswerStaysActing(c, Run(c, s, asked), key);
    Snoc(c, s, asked, DbRenew(key));
    RoundEnds(c, s, asked + [DbRenew(key)], key);
  }

  lemma AskedIsNotWritten(c: Config, s: State, steps: seq<Step>, key: Key)
    requires ValidConfig(c) && Init(s) && key in Run(c, s, steps).owners
    requires Working(Run(c, s, steps).owners[key]) && !Run(c, s, steps).owners[key].pc.Completing?
    ensures !Run(c, s, steps).owners[key].completion.Written?
  {
    RunKeepsInv(c, s, steps);
    assert OwnerInv(c, Run(c, s, steps), key);
  }

  lemma RoundEnds(c: Config, s: State, steps: seq<Step>, key: Key)
    requires ValidConfig(c) && Init(s)
    requires var s' := Run(c, s, steps);
             && Acting(c, s', key) && !s'.owners[key].pc.Completing?
             && s'.owners[key].renewal == Asked(LocalNow(c, s', s'.owners[key].node), Yes, false)
    ensures var a, b := Run(c, s, steps), Run(c, s, steps + [RenewOk(key)]);
            && Ready(c, b, key) && b.now == a.now && TimeLeft(c, b, key) == Duration(c, b.owners[key].node)
            && b.owners[key].pc == a.owners[key].pc && b.owners[key].node == a.owners[key].node
  {
    var a, b := Run(c, s, steps), Run(c, s, steps + [RenewOk(key)]);
    Snoc(c, s, steps, RenewOk(key));
    OwnerStepNext(c, a, RenewOk(key));
    OwnerStepKeepsNs(c, a, RenewOk(key), a.owners[key]);
    var node := a.owners[key].node;
    RenewalExtends(c, s, steps, key, LocalNow(c, a, node));
    LeaseDurationsAgree(c.nodes[node].configuredLease);
  }

  function Rounds(steps: seq<Step>, key: Key, pauses: seq<nat>): seq<Step> {
    if pauses == [] then steps else Round(Rounds(steps, key, pauses[..|pauses| - 1]), key, pauses[|pauses| - 1])
  }

  function Total(pauses: seq<nat>): nat {
    if pauses == [] then 0 else Total(pauses[..|pauses| - 1]) + pauses[|pauses| - 1]
  }

  /**
    From every reachable state in which an owner acts: if it renews within what
    is left of its lease and from then on less than a duration apart, it still
    acts after any number of rounds and any length of time, where it was.
   */
  lemma {:induction false} RenewingKeepsActing(c: Config, s: State, steps: seq<Step>, key: Key, pauses: seq<nat>)
    requires ValidConfig(c) && Init(s) && Ready(c, Run(c, s, steps), key)
    requires forall i | 0 <= i < |pauses| :: pauses[i] < Duration(c, Run(c, s, steps).owners[key].node)
    requires pauses != [] ==> pauses[0] < TimeLeft(c, Run(c, s, steps), key)
    ensures var a, b := Run(c, s, steps), Run(c, s, Rounds(steps, key, pauses));
            && Ready(c, b, key) && b.now == a.now + Total(pauses)
            && b.owners[key].pc == a.owners[key].pc && b.owners[key].node == a.owners[key].node
            && (pauses != [] ==> TimeLeft(c, b, key) == Duration(c, b.owners[key].node))
  {
    if pauses != [] {
      var before := pauses[..|pauses| - 1];
      RenewingKeepsActing(c, s, steps, key, before);
      RoundKeepsReady(c, s, Rounds(steps, key, before), key, pauses[|pauses| - 1]);
    }
  }

  // ---------- A revoked owner does nothing more ----------

  /** From `o` to `o'` nothing was sent and no completion was asked for; one in flight may have been answered. */
  predicate Stands(o: Owner, o': Owner) {
    && o'.lease.cancelled && o'.sends == o.sends
    && (|| o'.completion == o.completion
        || (o.completion.InFlight? && (o'.completion.Written? || o'.completion.Rejected?)))
  }

  lemma RevokedOwnerStands(c: Config, s: State, step: Step, o: Owner)
    requires o.node in c.nodes && o.lease.cancelled
    ensures Stands(o, OwnerStep(c, s, step, o))
  {
  }

  ghost predicate StandsIn(s: State, s': State, key: Key)
    requires key in s.owners
  {
    key in s'.owners && Stands(s.owners[key], s'.owners[key])
  }

  lemma OwnerStepStands(c: Config, s: State, step: Step, key: Key)
    requires key in s.owners && s.owners[key].lease.cancelled && IsOwnerStep(step)
    ensures StandsIn(s, Next(c, s, step), key)
  {
    if step.key == key && s.owners[key].node in c.nodes {
      RevokedOwnerStands(c, s, step, s.owners[key]);
    }
  }

  lemma ClaimStands(c: Config, s: State, step: Step, key: Key)
    requires Inv(c, s) && key in s.owners && s.owners[key].lease.cancelled && step.DbClaim?
    ensures StandsIn(s, Next(c, s, step), key)
  {
    assert OwnerInv(c, s, key);
  }

  lemma AnswerStands(c: Config, s: State, step: Step, key: Key)
    requires key in s.owners && s.owners[key].lease.cancelled
    requires step.DbRenew? || step.DbRenewAbandoned? || step.DbComplete?
    ensures StandsIn(s, Next(c, s, step), key)
  {
  }

  lemma ElsewhereStands(c: Config, s: State, step: Step, key: Key)
    requires key in s.owners && s.owners[key].lease.cancelled
    requires step.Tick? || step.InsertRow? || step.LegacyUpdate? || step.Requeue? || step.AskClaim? || step.Crash?
    ensures StandsIn(s, Next(c, s, step), key)
  {
  }

  lemma NextStands(c: Config, s: State, step: Step, key: Key)
    requires Inv(c, s) && key in s.owners && s.owners[key].lease.cancelled
    ensures StandsIn(s, Next(c, s, step), key)
  {
    if step.DbClaim? {
      ClaimStands(c, s, step, key);
    } else if step.DbRenew? || step.DbRenewAbandoned? || step.DbComplete? {
      AnswerStands(c, s, step, key);
    } else if IsOwnerStep(step) {
      OwnerStepStands(c, s, step, key);
    } else {
      ElsewhereStands(c, s, step, key);
    }
  }

  lemma OneMoreStands(c: Config, s: State, steps: seq<Step>, step: Step, key: Key, o: Owner)
    requires ValidConfig(c) && Init(s) && key in Run(c, s, steps).owners && Stands(o, Run(c, s, steps).owners[key])
    ensures key in Run(c, s, steps + [step]).owners && Stands(o, Run(c, s, steps + [step]).owners[key])
  {
    RunKeepsInv(c, s, steps);
    Snoc(c, s, steps, step);
    NextStands(c, Run(c, s, steps), step, key);
  }

  /** Once its lease is revoked, an owner never sends again and never asks for a completion, in any run. */
  lemma {:induction false} RevokedStopsForGood(c: Config, s: State, steps: seq<Step>, more: seq<Step>, key: Key,
                                               o: Owner)
    requires ValidConfig(c) && Init(s) && key in Run(c, s, steps).owners
    requires o == Run(c, s, steps).owners[key] && o.lease.cancelled
    ensures key in Run(c, s, steps + more).owners && Stands(o, Run(c, s, steps + more).owners[key])
  {
    if more == [] {
      assert steps + more == steps;
    } else {
      var before := more[..|more| - 1];
      RevokedStopsForGood(c, s, steps, before, key, o);
      OneMoreStands(c, s, steps + before, more[|more| - 1], key, o);
      assert steps + more == (steps + before) + [more[|more| - 1]];
    }
  }

  /** The watchdog revokes exactly the working owners whose deadline has come. */
  lemma WatchdogRevokes(c: Config, s: State, steps: seq<Step>, key: Key)
    requires ValidConfig(c) && Init(s) && key in Run(c, s, steps).owners
    requires Working(Run(c, s, steps).owners[key]) && !Run(c, s, steps).owners[key].lease.cancelled
    ensures var s' := Run(c, s, steps);
            var after := Next(c, s', WatchExpiry(key));
            && s'.owners[key].node in c.nodes && key in after.owners
            && (after.owners[key].lease.cancelled <==> TrueDeadline(c, s'.owners[key]) <= s'.now)
  {
    RunKeepsInv(c, s, steps);
    assert OwnerInv(c, Run(c, s, steps), key);
  }
}
