/**
  The dispatcher's local view of a claim: a deadline on the dispatcher's own
  clock and a cancellation flag (internal/dispatcher/ownership.go). The
  deadline is never compared with a database timestamp.
 */
module LocalLease {

  const MILLISECOND := 1_000_000  // nanoseconds

  /** The configured lease, truncated to whole milliseconds by the store. */
  function Truncated(configured: nat): nat {
    configured - configured % MILLISECOND
  }

  /** The milliseconds a statement is given, read back as the interval the database adds. */
  function DatabaseInterval(configured: nat): nat {
    Truncated(configured) / MILLISECOND * MILLISECOND
  }

  /** Truncation leaves nothing for the millisecond parameter to lose: both sides use one duration. */
  lemma LeaseDurationsAgree(configured: nat)
    ensures DatabaseInterval(configured) == Truncated(configured)
    ensures configured >= MILLISECOND ==> Truncated(configured) >= MILLISECOND
  {
    assert configured == configured / MILLISECOND * MILLISECOND + configured % MILLISECOND;
    assert Truncated(configured) == configured / MILLISECOND * MILLISECOND;
  }

  /** Without truncation a sub-millisecond remainder would outlive the database lease. */
  lemma UntruncatedLeaseWouldOutliveTheRow(configured: nat)
    ensures configured > DatabaseInterval(configured) <==> configured % MILLISECOND != 0
  {
    LeaseDurationsAgree(configured);
  }

  datatype Lease = Lease(deadline: int, cancelled: bool)

  predicate Expired(l: Lease, now: int) {
    now >= l.deadline
  }

  /** Work may continue: not cancelled, and the deadline has not passed. */
  predicate Live(l: Lease, now: int) {
    !l.cancelled && !Expired(l, now)
  }

  function Cancelled(l: Lease): Lease {
    l.(cancelled := true)
  }

  /** The watchdog: at or past the deadline the lease is revoked, before it nothing happens. */
  function Watched(l: Lease, now: int): Lease {
    if Expired(l, now) then Cancelled(l) else l
  }

  /**
    A successful renewal reply read at `now` for a request started at `started`.
    A revoked lease stays revoked, and a reply after the deadline revokes it.
   */
  function Extended(l: Lease, started: int, duration: int, now: int): Lease {
    if l.cancelled then l
    else if Expired(l, now) then Cancelled(l)
    else l.(deadline := started + duration)
  }

  /** A renewal reply never brings a dead lease back to life. */
  lemma ExtensionNeverRevives(l: Lease, started: int, duration: int, now: int, later: int)
    requires now <= later
    requires Live(Extended(l, started, duration, now), later)
    ensures Live(l, now) && later < started + duration
  {
  }

  datatype RenewReply = Granted | Refused | Unknown

  /** Whether the context that asked for the renewal is still alive, and since when it is not. */
  datatype Caller = Waiting | CancelledMeanwhile | CancelledBefore

  class ExecutionLease {
    var lease: Lease
    const duration: int

    /** The deadline counts from the start of the claim request, not from its reply. */
    constructor (claimStarted: int, duration: int)
      ensures this.duration == duration
      ensures forall t :: Live(lease, t) <==> t < claimStarted + duration
    {
      lease := Lease(claimStarted + duration, false);
      this.duration := duration;
    }

    method WatchExpiry(now: int)
      modifies this
      ensures lease == Watched(old(lease), now)
      ensures !lease.cancelled ==> Live(lease, now)
    {
      if now >= lease.deadline {
        lease := lease.(cancelled := true);
      }
    }

    /**
      One renewal under the renewal mutex; `now` is read after the reply arrived.
      A failure revokes the lease, unless the caller's context was cancelled by
      then, as it is when the renewal loop is being stopped.
     */
    method Renew(started: int, caller: Caller, reply: RenewReply, now: int) returns (ok: bool)
      modifies this
      ensures ok <==> !caller.CancelledBefore? && Live(old(lease), now) && reply.Granted?
      ensures ok ==> lease == Lease(started + duration, false)
      ensures !ok ==> lease.deadline == old(lease).deadline
      ensures !ok && caller.Waiting? ==> lease.cancelled
      ensures caller.CancelledBefore? || (caller.CancelledMeanwhile? && !reply.Granted?) ==> lease == old(lease)
      ensures reply.Granted? && !caller.CancelledBefore? ==> lease == Extended(old(lease), started, duration, now)
    {
      if caller.CancelledBefore? || lease.cancelled {
        return false;
      }
      if !reply.Granted? {
        if caller.Waiting? {
          lease := lease.(cancelled := true);
        }
        return false;
      }
      if !(now < lease.deadline) {
        lease := lease.(cancelled := true);
        return false;
      }
      lease := lease.(deadline := started + duration);
      ok := true;
    }

    /** No work may continue, and no renewal reply that is still on its way changes that. */
    method Close()
      modifies this
      ensures forall t :: !Live(lease, t)
      ensures forall started, d, now, t :: !Live(Extended(lease, started, d, now), t)
    {
      lease := lease.(cancelled := true);
    }
  }
}
