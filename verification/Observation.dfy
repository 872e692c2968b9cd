// The bookkeeping of an observation loop. Times are integer microseconds.
module Observation {
  import opened Common

  datatype Policy = Policy(minGraceMs: int, snapshotMaxIntervalMs: int, stableWindowMs: int,
                           maxTotalMs: int, pollSliceMs: int)

  datatype PollResult = PollResult(sawEvents: bool, needResync: bool, latestSeq: int)

  class ObservationLoop {
    const policy: Policy
    const startedAt: int
    var afterSeq: int
    var lastRefreshAt: Option<int>
    var stableSince: Option<int>

    constructor Begin(policy: Policy, startedAt: int)
      ensures this.policy == policy && this.startedAt == startedAt
      ensures afterSeq == 0 && lastRefreshAt == None && stableSince == None
    {
      this.policy, this.startedAt := policy, startedAt;
      afterSeq, lastRefreshAt, stableSince := 0, None, None;
    }

    function GraceDeadlineAt(): int {
      startedAt + policy.minGraceMs * 1000
    }

    function DeadlineAt(): int {
      startedAt + policy.maxTotalMs * 1000
    }

    predicate TimedOut(now: int) {
      now >= DeadlineAt()
    }

    // Whole milliseconds, cut off towards zero.
    function RemainingMs(now: int): int {
      if now >= DeadlineAt() then 0 else (DeadlineAt() - now) / 1000
    }

    function PollWaitMs(now: int): int {
      if policy.pollSliceMs < RemainingMs(now) then policy.pollSliceMs else RemainingMs(now)
    }

    // There is no poll in the last millisecond, although the deadline has not passed.
    lemma NoPollIff(now: int)
      requires policy.pollSliceMs > 0
      ensures PollWaitMs(now) <= 0 <==> now > DeadlineAt() - 1000
      ensures PollWaitMs(now) > 0 ==> now + PollWaitMs(now) * 1000 <= DeadlineAt()
    {
      if now < DeadlineAt() {
        assert (DeadlineAt() - now) / 1000 * 1000 <= DeadlineAt() - now;
      }
    }

    predicate GraceElapsed(now: int) {
      now >= GraceDeadlineAt()
    }

    method ApplyPollResult(result: PollResult)
      modifies this
      ensures afterSeq == if result.needResync then 0 else result.latestSeq
      ensures stableSince == if result.needResync then None else old(stableSince)
      ensures lastRefreshAt == if result.needResync then None else old(lastRefreshAt)
    {
      if result.needResync {
        afterSeq := 0;
        stableSince := None;
        lastRefreshAt := None;
      } else {
        afterSeq := result.latestSeq;
      }
    }

    predicate ShouldRefresh(now: int, sawEvents: bool, needResync: bool)
      reads this
    {
      needResync || lastRefreshAt.None? || sawEvents
      || now - lastRefreshAt.value >= policy.snapshotMaxIntervalMs * 1000
    }

    method MarkRefreshed(now: int)
      modifies `lastRefreshAt
      ensures lastRefreshAt == Some(now)
    {
      lastRefreshAt := Some(now);
    }

    method ObserveStability(now: int, changed: bool) returns (stable: bool)
      modifies `stableSince
      ensures changed ==> stableSince == None && !stable
      ensures !changed ==> stableSince == Some(if old(stableSince).Some? then old(stableSince).value else now)
      ensures !changed ==>
        (stable <==> GraceElapsed(now) && now - stableSince.value >= policy.stableWindowMs * 1000)
    {
      if changed {
        stableSince := None;
        return false;
      }
      if stableSince.None? {
        stableSince := Some(now);
      }
      if !GraceElapsed(now) {
        return false;
      }
      return now - stableSince.value >= policy.stableWindowMs * 1000;
    }
  }
}
