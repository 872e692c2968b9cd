// Settling: refreshing after an action until the screen has stopped changing, or time is up.
module Settle {
  import opened Common
  import opened Observation

  datatype Snapshot = Snapshot(id: int, signature: string)

  datatype Poll = PollFailed | Polled(result: PollResult)

  // All that the device and the clock do in one turn of the loop, should they be asked:
  // the clock's readings in order, the poll's answer and what fetching yields.
  datatype Turn = Turn(now: int, poll: Poll, decidedAt: int, fetched: Option<Snapshot>,
                       refreshedAt: int, observedAt: int, checkedAt: int)

  datatype Outcome = FetchFailed | Settled(snapshot: Snapshot, timedOut: bool)

  datatype Progress = Progress(afterSeq: int, lastRefreshAt: Option<int>, stableSince: Option<int>,
                               latest: Option<Snapshot>, signature: string)

  datatype Verdict = GoesOn(progress: Progress) | Done(outcome: Outcome, progress: Progress)

  // One call: its policy, its start, the signature from before the action, and the turns to come.
  datatype Call = Call(policy: Policy, startedAt: int, baseline: string, turns: nat -> Turn) {
    function Deadline(): int {
      startedAt + policy.maxTotalMs * 1000
    }

    function GraceDeadline(): int {
      startedAt + policy.minGraceMs * 1000
    }

    predicate Polls(now: int) {
      policy.pollSliceMs > 0 && now <= Deadline() - 1000
    }
  }

  // The clock never goes back, and advances from turn to turn.
  ghost predicate GoodClock(c: Call) {
    && (forall i: nat :: Ordered(c.turns(i)))
    && (forall i: nat :: c.turns(i).now < c.turns(i + 1).now)
    && (forall i: nat :: c.turns(i).checkedAt <= c.turns(i + 1).now)
  }

  predicate Ordered(t: Turn) {
    t.now <= t.decidedAt <= t.refreshedAt <= t.observedAt <= t.checkedAt
  }

  // ---------- One turn ----------

  predicate Resyncs(c: Call, t: Turn) {
    c.Polls(t.now) && t.poll.Polled? && t.poll.result.needResync
  }

  predicate SeesEvents(c: Call, t: Turn) {
    c.Polls(t.now) && t.poll.Polled? && t.poll.result.sawEvents
  }

  function AfterPoll(c: Call, p: Progress, t: Turn): Progress {
    if Resyncs(c, t) then p.(afterSeq := 0, lastRefreshAt := None, stableSince := None)
    else if c.Polls(t.now) && t.poll.Polled? then p.(afterSeq := t.poll.result.latestSeq)
    else p
  }

  predicate RefreshDue(c: Call, p: Progress, t: Turn) {
    var last := AfterPoll(c, p, t).lastRefreshAt;
    last.None? || SeesEvents(c, t) || t.decidedAt - last.value >= c.policy.snapshotMaxIntervalMs * 1000
  }

  function AfterRefresh(c: Call, p: Progress, t: Turn, snapshot: Snapshot): Progress {
    var q := AfterPoll(c, p, t);
    var stableSince :=
      if snapshot.signature != q.signature then None
      else if q.stableSince.None? then Some(t.observedAt)
      else q.stableSince;
    Progress(q.afterSeq, Some(t.refreshedAt), stableSince, Some(snapshot), snapshot.signature)
  }

  predicate IsStable(c: Call, p: Progress, t: Turn) {
    && p.stableSince.Some?
    && t.observedAt >= c.GraceDeadline()
    && t.observedAt - p.stableSince.value >= c.policy.stableWindowMs * 1000
  }

  function TakeTurn(c: Call, p: Progress, t: Turn): Verdict {
    if !RefreshDue(c, p, t) then
      var q := AfterPoll(c, p, t);
      if t.decidedAt >= c.Deadline() && q.latest.Some? then Done(Settled(q.latest.value, true), q) else GoesOn(q)
    else if t.fetched.None? then Done(FetchFailed, AfterPoll(c, p, t))
    else
      var r := AfterRefresh(c, p, t, t.fetched.value);
      if IsStable(c, r, t) then Done(Settled(t.fetched.value, false), r)
      else if t.checkedAt >= c.Deadline() then Done(Settled(t.fetched.value, true), r)
      else GoesOn(r)
  }

  // Where the call stands after n turns.
  function After(c: Call, n: nat): Verdict {
    if n == 0 then GoesOn(Progress(0, None, None, None, c.baseline))
    else
      match After(c, n - 1)
      case GoesOn(p) => TakeTurn(c, p, c.turns(n - 1))
      case Done(outcome, p) => Done(outcome, p)
  }

  // The call ends in turn n - 1.
  predicate EndsAfter(c: Call, n: nat, outcome: Outcome) {
    n > 0 && After(c, n - 1).GoesOn? && After(c, n).Done? && After(c, n).outcome == outcome
  }

  // ---------- The loop ----------

  predicate Agrees(loop: ObservationLoop, p: Progress)
    reads loop
  {
    loop.afterSeq == p.afterSeq && loop.lastRefreshAt == p.lastRefreshAt && loop.stableSince == p.stableSince
  }

  // How long the call can still go on.
  function TimeLeft(c: Call, n: nat): nat {
    if c.turns(n).now >= c.Deadline() then 0 else c.Deadline() - c.turns(n).now
  }

  method PollOnce(c: Call, loop: ObservationLoop, t: Turn, ghost p: Progress)
    returns (sawEvents: bool, needResync: bool)
    requires loop.policy == c.policy && loop.startedAt == c.startedAt && Agrees(loop, p)
    modifies loop
    ensures Agrees(loop, AfterPoll(c, p, t))
    ensures sawEvents == SeesEvents(c, t) && needResync == Resyncs(c, t)
  {
    sawEvents, needResync := false, false;
    if c.policy.pollSliceMs > 0 {
      loop.NoPollIff(t.now);
    }
    if loop.PollWaitMs(t.now) > 0 {
      match t.poll
      case PollFailed =>
      case Polled(result) =>
        loop.ApplyPollResult(result);
        sawEvents, needResync := result.sawEvents, result.needResync;
    }
  }

  method Settle(c: Call) returns (outcome: Outcome, turns: nat)
    requires GoodClock(c)
    ensures EndsAfter(c, turns, outcome)
  {
    var loop := new ObservationLoop.Begin(c.policy, c.startedAt);
    var latest: Option<Snapshot> := None;
    var latestSignature := c.baseline;
    turns := 0;
    ghost var p := After(c, 0).progress;
    while true
      invariant fresh(loop) && loop.policy == c.policy && loop.startedAt == c.startedAt
      invariant After(c, turns) == GoesOn(p)
      invariant Agrees(loop, p) && latest == p.latest && latestSignature == p.signature
      decreases TimeLeft(c, turns)
    {
      var t := c.turns(turns);
      LateTurnEnds(c, turns);
      var sawEvents, needResync := PollOnce(c, loop, t, p);
      turns := turns + 1;
      if !loop.ShouldRefresh(t.decidedAt, sawEvents, needResync) {
        if loop.TimedOut(t.decidedAt) && latest.Some? {
          return Settled(latest.value, true), turns;
        }
        p := AfterPoll(c, p, t);
        continue;
      }
      if t.fetched.None? {
        return FetchFailed, turns;
      }
      var snapshot := t.fetched.value;
      p := AfterRefresh(c, p, t, snapshot);
      loop.MarkRefreshed(t.refreshedAt);
      latest := Some(snapshot);
      var stable := loop.ObserveStability(t.observedAt, snapshot.signature != latestSignature);
      latestSignature := snapshot.signature;
      if stable {
        return Settled(snapshot, false), turns;
      }
      if loop.TimedOut(t.checkedAt) {
        return Settled(snapshot, true), turns;
      }
    }
  }

  // ---------- What holds in every call ----------

  // Whenever no refresh is due there is a snapshot to return.
  lemma {:induction false} RefreshLeavesSnapshot(c: Call, n: nat)
    ensures After(c, n).progress.lastRefreshAt.Some? ==> After(c, n).progress.latest.Some?
  {
    if n > 0 {
      RefreshLeavesSnapshot(c, n - 1);
    }
  }

  lemma SnapshotWhenNoRefresh(c: Call, n: nat)
    requires After(c, n).GoesOn? && !RefreshDue(c, After(c, n).progress, c.turns(n))
    ensures After(c, n).progress.latest.Some?
  {
    RefreshLeavesSnapshot(c, n);
  }

  // A turn that starts at the deadline or later is the last.
  lemma LateTurnEnds(c: Call, n: nat)
    requires GoodClock(c) && After(c, n).GoesOn?
    ensures c.turns(n).now >= c.Deadline() ==> After(c, n + 1).Done?
    ensures After(c, n + 1).GoesOn? ==> TimeLeft(c, n + 1) < TimeLeft(c, n)
  {
    var t := c.turns(n);
    assert Ordered(t);
    assert t.now < c.turns(n + 1).now;
    RefreshLeavesSnapshot(c, n);
  }

  // Every call ends, after at most one turn for each microsecond there was.
  lemma {:induction false} EveryCallEnds(c: Call, n: nat)
    requires GoodClock(c) && After(c, n).GoesOn?
    ensures exists m: nat, outcome :: n < m <= n + 1 + TimeLeft(c, n) && EndsAfter(c, m, outcome)
    decreases TimeLeft(c, n)
  {
    LateTurnEnds(c, n);
    if After(c, n + 1).Done? {
      assert EndsAfter(c, n + 1, After(c, n + 1).outcome);
    } else {
      EveryCallEnds(c, n + 1);
    }
  }

  function StateAt(c: Call, n: nat): Progress {
    After(c, n).progress
  }

  // Turn i runs, and refreshes.
  predicate RefreshesIn(c: Call, i: nat) {
    After(c, i).GoesOn? && RefreshDue(c, StateAt(c, i), c.turns(i)) && c.turns(i).fetched.Some?
  }

  // From the refresh in turn k on, until turn n, the screen is never seen to change and never resynced.
  ghost predicate QuietFrom(c: Call, k: nat, n: nat) {
    && k < n && RefreshesIn(c, k) && StateAt(c, k + 1).signature == StateAt(c, k).signature
    && forall i: nat :: k < i < n ==> Uneventful(c, i)
  }

  ghost predicate QuietSince(c: Call, time: int, n: nat) {
    exists k: nat :: QuietFrom(c, k, n) && c.turns(k).observedAt == time
  }

  predicate Uneventful(c: Call, i: nat) {
    StateAt(c, i + 1).signature == StateAt(c, i).signature && !Resyncs(c, c.turns(i))
  }

  lemma QuietGoesOn(c: Call, time: int, n: nat)
    requires QuietSince(c, time, n) && Uneventful(c, n)
    ensures QuietSince(c, time, n + 1)
  {
    var k: nat :| QuietFrom(c, k, n) && c.turns(k).observedAt == time;
    assert QuietFrom(c, k, n + 1);
  }

  // Turn n - 1 either keeps the time since when the screen is stable, or sets it anew.
  lemma StableTurn(c: Call, n: nat)
    requires n > 0 && After(c, n - 1).GoesOn? && StateAt(c, n).stableSince.Some?
    ensures StateAt(c, n).signature == StateAt(c, n - 1).signature
    ensures StateAt(c, n - 1).stableSince.Some? && !Resyncs(c, c.turns(n - 1)) ==>
      StateAt(c, n).stableSince == StateAt(c, n - 1).stableSince
    ensures StateAt(c, n - 1).stableSince.None? || Resyncs(c, c.turns(n - 1)) ==>
      RefreshesIn(c, n - 1) && StateAt(c, n).stableSince == Some(c.turns(n - 1).observedAt)
  {
  }

  // The time that the loop keeps is the time since when all has been quiet.
  lemma {:induction false} StableSinceIsQuietSince(c: Call, n: nat)
    requires n > 0 ==> After(c, n - 1).GoesOn?
    ensures var since := StateAt(c, n).stableSince; since.Some? ==> QuietSince(c, since.value, n)
    decreases n
  {
    if n > 0 && StateAt(c, n).stableSince.Some? {
      StableSinceIsQuietSince(c, n - 1);
      StableTurn(c, n);
      var before := StateAt(c, n - 1).stableSince;
      if before.Some? && !Resyncs(c, c.turns(n - 1)) {
        QuietGoesOn(c, before.value, n - 1);
      } else {
        assert QuietFrom(c, n - 1, n);
      }
    }
  }

  lemma {:induction false} LaterTurn(c: Call, i: nat, j: nat)
    requires GoodClock(c) && i <= j
    ensures c.turns(i).observedAt <= c.turns(j).observedAt
    decreases j
  {
    if i < j {
      LaterTurn(c, i, j - 1);
      assert Ordered(c.turns(j)) && Ordered(c.turns(j - 1));
      assert c.turns(j - 1).checkedAt <= c.turns(j - 1 + 1).now;
    }
  }

  lemma QuietTurn(c: Call, n: nat)
    requires After(c, n).GoesOn? && StateAt(c, n + 1).signature == StateAt(c, n).signature
    ensures StateAt(c, n).stableSince.Some? && !Resyncs(c, c.turns(n)) ==>
      StateAt(c, n + 1).stableSince == StateAt(c, n).stableSince
    ensures RefreshesIn(c, n) ==>
      StateAt(c, n + 1).stableSince in {StateAt(c, n).stableSince, Some(c.turns(n).observedAt)} - {None}
  {
  }

  lemma StableSinceIsPast(c: Call, k: nat)
    requires GoodClock(c) && After(c, k).GoesOn?
    ensures var since := StateAt(c, k).stableSince; since.Some? ==> since.value <= c.turns(k).observedAt
  {
    StableSinceIsQuietSince(c, k);
    if StateAt(c, k).stableSince.Some? {
      var time := StateAt(c, k).stableSince.value;
      var j: nat :| QuietFrom(c, j, k) && c.turns(j).observedAt == time;
      LaterTurn(c, j, k);
    }
  }

  lemma QuietBegins(c: Call, k: nat)
    requires GoodClock(c) && QuietFrom(c, k, k + 1) && After(c, k).GoesOn?
    ensures var since := StateAt(c, k + 1).stableSince; since.Some? && since.value <= c.turns(k).observedAt
  {
    QuietTurn(c, k);
    StableSinceIsPast(c, k);
  }

  // And it is the earliest such time.
  lemma {:induction false} QuietSinceIsKept(c: Call, k: nat, n: nat)
    requires GoodClock(c) && QuietFrom(c, k, n) && After(c, n - 1).GoesOn?
    ensures var since := StateAt(c, n).stableSince; since.Some? && since.value <= c.turns(k).observedAt
    decreases n
  {
    if k == n - 1 {
      QuietBegins(c, k);
    } else {
      QuietBefore(c, k, n);
      QuietSinceIsKept(c, k, n - 1);
    }
  }

  lemma QuietBefore(c: Call, k: nat, n: nat)
    requires QuietFrom(c, k, n) && k < n - 1 && After(c, n - 1).GoesOn?
    ensures QuietFrom(c, k, n - 1) && After(c, n - 2).GoesOn?
    ensures StateAt(c, n - 1).stableSince.Some? ==> StateAt(c, n).stableSince == StateAt(c, n - 1).stableSince
  {
    assert Uneventful(c, n - 1);
    QuietTurn(c, n - 1);
  }

  // Before the last look of turn n - 1 all has been quiet for a stable window.
  ghost predicate QuietForWindow(c: Call, n: nat)
    requires n > 0
  {
    exists k: nat ::
      QuietFrom(c, k, n) && c.turns(k).observedAt + c.policy.stableWindowMs * 1000 <= c.turns(n - 1).observedAt
  }

  // A turn ends the call as settled, not timed out, if and only if it refreshes, the grace
  // period is over, and for at least one stable window no refresh has shown a change and
  // nothing was resynced. The call returns the snapshot of that refresh.
  lemma SettlesIff(c: Call, n: nat)
    requires GoodClock(c) && n > 0 && After(c, n - 1).GoesOn?
    ensures (exists snapshot :: EndsAfter(c, n, Settled(snapshot, false)))
       <==> RefreshesIn(c, n - 1) && c.turns(n - 1).observedAt >= c.GraceDeadline() && QuietForWindow(c, n)
    ensures forall snapshot :: EndsAfter(c, n, Settled(snapshot, false)) ==>
      c.turns(n - 1).fetched == Some(snapshot)
  {
    if exists snapshot :: EndsAfter(c, n, Settled(snapshot, false)) {
      SettledIsQuiet(c, n);
    }
    if RefreshesIn(c, n - 1) && c.turns(n - 1).observedAt >= c.GraceDeadline() && QuietForWindow(c, n) {
      QuietSettles(c, n);
    }
  }

  lemma SettledIsQuiet(c: Call, n: nat)
    requires n > 0 && After(c, n - 1).GoesOn?
    requires exists snapshot :: EndsAfter(c, n, Settled(snapshot, false))
    ensures RefreshesIn(c, n - 1) && c.turns(n - 1).observedAt >= c.GraceDeadline() && QuietForWindow(c, n)
  {
    StableSinceIsQuietSince(c, n);
    var k: nat :| QuietFrom(c, k, n) && c.turns(k).observedAt == StateAt(c, n).stableSince.value;
  }

  lemma QuietSettles(c: Call, n: nat)
    requires GoodClock(c) && n > 0 && After(c, n - 1).GoesOn?
    requires RefreshesIn(c, n - 1) && c.turns(n - 1).observedAt >= c.GraceDeadline() && QuietForWindow(c, n)
    ensures EndsAfter(c, n, Settled(c.turns(n - 1).fetched.value, false))
  {
    var k: nat :| QuietFrom(c, k, n)
      && c.turns(k).observedAt + c.policy.stableWindowMs * 1000 <= c.turns(n - 1).observedAt;
    QuietSinceIsKept(c, k, n);
  }

  // While all is quiet every refresh shows the same signature.
  lemma {:induction false} QuietMeansSame(c: Call, k: nat, n: nat, i: nat)
    requires QuietFrom(c, k, n) && k <= i < n && RefreshesIn(c, i)
    ensures c.turns(i).fetched.value.signature == StateAt(c, n).signature
    decreases n
  {
    if i < n - 1 {
      assert Uneventful(c, n - 1);
      assert QuietFrom(c, k, n - 1);
      QuietMeansSame(c, k, n - 1, i);
    }
  }

  // A call that times out has read a time past its deadline, and returns the newest snapshot.
  lemma TimedOutIsLate(c: Call, n: nat, snapshot: Snapshot)
    requires GoodClock(c) && EndsAfter(c, n, Settled(snapshot, true))
    ensures c.turns(n - 1).checkedAt >= c.Deadline()
    ensures exists i: nat :: IsNewest(c, n, i, snapshot)
  {
    assert Ordered(c.turns(n - 1));
    NewestIsKept(c, n);
  }

  ghost predicate IsNewest(c: Call, n: nat, i: nat, snapshot: Snapshot) {
    && i < n && RefreshesIn(c, i) && c.turns(i).fetched == Some(snapshot)
    && forall j: nat :: i < j < n ==> !RefreshesIn(c, j)
  }

  lemma {:induction false} NewestIsKept(c: Call, n: nat)
    requires n > 0 ==> After(c, n - 1).GoesOn?
    ensures var latest := StateAt(c, n).latest;
      latest.Some? ==> exists i: nat :: IsNewest(c, n, i, latest.value)
    decreases n
  {
    if n > 0 && StateAt(c, n).latest.Some? {
      if RefreshesIn(c, n - 1) {
        assert IsNewest(c, n, n - 1, StateAt(c, n).latest.value);
      } else {
        NewestIsKept(c, n - 1);
        var i: nat :| IsNewest(c, n - 1, i, StateAt(c, n).latest.value);
        assert IsNewest(c, n, i, StateAt(c, n).latest.value);
      }
    }
  }
}
