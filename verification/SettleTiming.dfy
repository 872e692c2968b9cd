// When a settling call refreshes, and why it settles on a screen that stands still.
module SettleTiming {
  import opened Common
  import opened Observation
  import opened Settle

  // ---------- When a turn refreshes ----------

  // There is time for a poll of a millisecond at least, and it is answered.
  predicate IsPolled(c: Call, i: nat) {
    && c.policy.pollSliceMs > 0 && c.turns(i).now + 1000 <= c.startedAt + c.policy.maxTotalMs * 1000
    && c.turns(i).poll.Polled?
  }

  predicate HasEvents(c: Call, i: nat) {
    IsPolled(c, i) && c.turns(i).poll.result.sawEvents
  }

  predicate MustResync(c: Call, i: nat) {
    IsPolled(c, i) && c.turns(i).poll.result.needResync
  }

  // Turn k was the last of the first n to refresh, and nothing was resynced since.
  ghost predicate RefreshedLast(c: Call, n: nat, k: nat) {
    k < n && RefreshesIn(c, k) && forall j: nat :: k < j < n ==> IsQuiet(c, j)
  }

  ghost predicate IsQuiet(c: Call, j: nat) {
    !RefreshesIn(c, j) && !MustResync(c, j)
  }

  // What one turn makes of the time of the last refresh.
  lemma LastRefreshStep(c: Call, j: nat)
    requires After(c, j).GoesOn?
    ensures StateAt(c, j + 1).lastRefreshAt
      == if RefreshesIn(c, j) then Some(c.turns(j).refreshedAt)
         else if MustResync(c, j) then None
         else StateAt(c, j).lastRefreshAt
  {
    assert MustResync(c, j) <==> Resyncs(c, c.turns(j));
  }

  lemma RefreshedLastStep(c: Call, n: nat, k: nat)
    requires RefreshedLast(c, n, k) && IsQuiet(c, n)
    ensures RefreshedLast(c, n + 1, k)
  {
  }

  // What is kept is the time of the last refresh, unless there was a resync since.
  lemma {:induction false} LastRefreshIsKept(c: Call, n: nat) returns (k: nat)
    requires n > 0 ==> After(c, n - 1).GoesOn?
    requires StateAt(c, n).lastRefreshAt.Some?
    ensures RefreshedLast(c, n, k) && StateAt(c, n).lastRefreshAt == Some(c.turns(k).refreshedAt)
    decreases n
  {
    LastRefreshStep(c, n - 1);
    if RefreshesIn(c, n - 1) {
      k := n - 1;
    } else {
      k := LastRefreshIsKept(c, n - 1);
      assert IsQuiet(c, n - 1);
      RefreshedLastStep(c, n - 1, k);
    }
  }

  lemma {:induction false} RefreshIsRemembered(c: Call, n: nat, k: nat)
    requires n > 0 ==> After(c, n - 1).GoesOn?
    requires RefreshedLast(c, n, k)
    ensures StateAt(c, n).lastRefreshAt == Some(c.turns(k).refreshedAt)
    decreases n
  {
    LastRefreshStep(c, n - 1);
    if k < n - 1 {
      assert IsQuiet(c, n - 1);
      RefreshIsRemembered(c, n - 1, k);
    }
  }

  lemma DueIff(c: Call, i: nat)
    requires After(c, i).GoesOn? && c.turns(i).fetched.Some?
    ensures RefreshesIn(c, i) <==>
      || HasEvents(c, i) || MustResync(c, i) || StateAt(c, i).lastRefreshAt.None?
      || c.turns(i).decidedAt - StateAt(c, i).lastRefreshAt.value >= c.policy.snapshotMaxIntervalMs * 1000
  {
    assert MustResync(c, i) <==> Resyncs(c, c.turns(i));
    assert HasEvents(c, i) <==> SeesEvents(c, c.turns(i));
  }

  // A turn refreshes if and only if it sees events or has to resync, or the last refresh, if there
  // was one and nothing was resynced since, is at least the snapshot interval ago.
  lemma RefreshesIff(c: Call, i: nat)
    requires After(c, i).GoesOn? && c.turns(i).fetched.Some?
    ensures RefreshesIn(c, i) <==>
      || HasEvents(c, i) || MustResync(c, i)
      || forall k: nat :: RefreshedLast(c, i, k) ==>
           c.turns(i).decidedAt - c.turns(k).refreshedAt >= c.policy.snapshotMaxIntervalMs * 1000
  {
    DueIff(c, i);
    forall k: nat | RefreshedLast(c, i, k)
      ensures StateAt(c, i).lastRefreshAt == Some(c.turns(k).refreshedAt)
    {
      RefreshIsRemembered(c, i, k);
    }
    if StateAt(c, i).lastRefreshAt.Some? {
      var k := LastRefreshIsKept(c, i);
    }
  }

  // A refresh is due, whether or not it can be fetched.
  predicate IsDue(c: Call, i: nat) {
    || HasEvents(c, i) || MustResync(c, i) || StateAt(c, i).lastRefreshAt.None?
    || c.turns(i).decidedAt - StateAt(c, i).lastRefreshAt.value >= c.policy.snapshotMaxIntervalMs * 1000
  }

  // Since when the screen is stable, if the refresh of the turn shows what the last one did.
  function StableSince(c: Call, i: nat): int {
    if StateAt(c, i).stableSince.Some? && !MustResync(c, i) then StateAt(c, i).stableSince.value
    else c.turns(i).observedAt
  }

  // The refresh settles the call: it shows what the last one did, grace is over, and the screen has
  // been stable for the window.
  predicate Settles(c: Call, i: nat)
    requires c.turns(i).fetched.Some?
  {
    && c.turns(i).fetched.value.signature == StateAt(c, i).signature
    && c.turns(i).observedAt >= c.startedAt + c.policy.minGraceMs * 1000
    && c.turns(i).observedAt - StableSince(c, i) >= c.policy.stableWindowMs * 1000
  }

  // How a turn ends: without a refresh that is due, at the deadline with the latest snapshot; with
  // one, as failed if nothing is fetched, as settled, or at the deadline with what was fetched.
  lemma TurnEnds(c: Call, i: nat)
    requires After(c, i).GoesOn?
    ensures After(c, i + 1).Done? <==>
      if !IsDue(c, i) then
        c.turns(i).decidedAt >= c.startedAt + c.policy.maxTotalMs * 1000 && StateAt(c, i).latest.Some?
      else
        c.turns(i).fetched.None? || Settles(c, i)
        || c.turns(i).checkedAt >= c.startedAt + c.policy.maxTotalMs * 1000
    ensures After(c, i + 1).Done? ==>
      After(c, i + 1).outcome
        == if !IsDue(c, i) then Settled(StateAt(c, i).latest.value, true)
           else if c.turns(i).fetched.None? then FetchFailed
           else Settled(c.turns(i).fetched.value, !Settles(c, i))
  {
    assert MustResync(c, i) <==> Resyncs(c, c.turns(i));
    assert HasEvents(c, i) <==> SeesEvents(c, c.turns(i));
  }

  // What a turn leaves behind, if the call goes on: the events' sequence starts anew at a resync.
  lemma TurnLeaves(c: Call, i: nat)
    requires After(c, i).GoesOn? && After(c, i + 1).GoesOn?
    ensures StateAt(c, i + 1).afterSeq
      == if MustResync(c, i) then 0
         else if IsPolled(c, i) then c.turns(i).poll.result.latestSeq
         else StateAt(c, i).afterSeq
    ensures StateAt(c, i + 1).latest == if IsDue(c, i) then c.turns(i).fetched else StateAt(c, i).latest
    ensures StateAt(c, i + 1).stableSince
      == if !IsDue(c, i) then StateAt(c, i).stableSince
         else if c.turns(i).fetched.value.signature == StateAt(c, i).signature then Some(StableSince(c, i))
         else None
    ensures StateAt(c, 0) == Progress(0, None, None, None, c.baseline)
  {
    assert MustResync(c, i) <==> Resyncs(c, c.turns(i));
    assert HasEvents(c, i) <==> SeesEvents(c, c.turns(i));
  }

  // So the first turn always refreshes, and so does one that has to resync.
  lemma FirstTurnRefreshes(c: Call)
    requires c.turns(0).fetched.Some?
    ensures RefreshesIn(c, 0)
  {
    RefreshesIff(c, 0);
  }

  lemma ResyncRefreshes(c: Call, i: nat)
    requires After(c, i).GoesOn? && c.turns(i).fetched.Some? && MustResync(c, i)
    ensures RefreshesIn(c, i)
  {
    RefreshesIff(c, i);
  }

  // Turn k was the last of the first n to refresh, whether or not there was a resync since.
  ghost predicate RefreshedNewest(c: Call, n: nat, k: nat) {
    k < n && RefreshesIn(c, k) && forall j: nat :: k < j < n ==> !RefreshesIn(c, j)
  }

  lemma SignatureStep(c: Call, j: nat)
    requires After(c, j).GoesOn?
    ensures StateAt(c, j + 1).signature
      == if RefreshesIn(c, j) then c.turns(j).fetched.value.signature else StateAt(c, j).signature
  {
  }

  // A refresh is compared with the last one, or with the baseline if it is the first.
  ghost predicate ComparesWithLast(c: Call, n: nat) {
    || (StateAt(c, n).signature == c.baseline && forall j: nat :: j < n ==> !RefreshesIn(c, j))
    || (exists k: nat :: RefreshedNewest(c, n, k) && StateAt(c, n).signature == c.turns(k).fetched.value.signature)
  }

  lemma ComparedStep(c: Call, n: nat)
    requires After(c, n).GoesOn? && ComparesWithLast(c, n)
    ensures ComparesWithLast(c, n + 1)
  {
    SignatureStep(c, n);
    if RefreshesIn(c, n) {
      NewestNow(c, n);
    } else if k: nat :| RefreshedNewest(c, n, k) && StateAt(c, n).signature == c.turns(k).fetched.value.signature {
      NewestStays(c, n, k);
    }
  }

  lemma NewestNow(c: Call, n: nat)
    requires RefreshesIn(c, n)
    ensures RefreshedNewest(c, n + 1, n)
  {
  }

  lemma NewestStays(c: Call, n: nat, k: nat)
    requires RefreshedNewest(c, n, k) && !RefreshesIn(c, n)
    ensures RefreshedNewest(c, n + 1, k)
  {
  }

  lemma {:induction false} ComparedWithTheLast(c: Call, n: nat)
    requires n > 0 ==> After(c, n - 1).GoesOn?
    ensures ComparesWithLast(c, n)
    decreases n
  {
    if n > 0 {
      ComparedWithTheLast(c, n - 1);
      ComparedStep(c, n - 1);
    }
  }

  // ---------- A screen that stands still ----------

  // From one turn to the next no more time passes than `step`.
  ghost predicate Paced(c: Call, step: nat) {
    && c.turns(0).now <= c.startedAt + step
    && forall i: nat :: c.turns(i + 1).now <= c.turns(i).now + step
  }

  // Whenever a snapshot is fetched it shows the same, and nothing is ever resynced.
  ghost predicate StandsStill(c: Call, signature: string) {
    && (forall i: nat :: c.turns(i).fetched.Some? && c.turns(i).fetched.value.signature == signature)
    && (forall i: nat :: !MustResync(c, i))
  }

  function Interval(c: Call): int {
    c.policy.snapshotMaxIntervalMs * 1000
  }

  function Window(c: Call): int {
    c.policy.stableWindowMs * 1000
  }

  function Max(a: int, b: int): int {
    if a < b then b else a
  }

  // By then the screen has been refreshed twice, and stood still for a window, and grace is over.
  function QuietBy(c: Call, step: nat): int {
    Max(c.startedAt + c.policy.minGraceMs * 1000, c.startedAt + 4 * step + Interval(c) + Window(c))
  }

  // After n turns of a call that goes on: the next turn comes soon after the last refresh is an
  // interval old, and that refresh was either the first one or too early to settle.
  ghost predicate OnItsWay(c: Call, step: nat, signature: string, n: nat) {
    && After(c, n).GoesOn?
    && var p := StateAt(c, n);
    && p.signature == signature && p.lastRefreshAt.Some?
    && c.turns(n).now <= p.lastRefreshAt.value + Interval(c) + step
    && (p.stableSince.None? ==> p.lastRefreshAt.value <= c.startedAt + 2 * step)
    && (p.stableSince.Some? ==>
          && p.stableSince.value <= c.startedAt + 4 * step + Interval(c)
          && p.lastRefreshAt.value <= QuietBy(c, step))
  }

  lemma OnItsWayAtFirst(c: Call, step: nat, signature: string)
    requires GoodClock(c) && Paced(c, step) && StandsStill(c, signature) && Interval(c) >= 0 && Window(c) >= 0
    requires c.Deadline() > QuietBy(c, step) + Interval(c) + 2 * step
    ensures EndsWell(c, 1) || OnItsWay(c, step, signature, 1)
  {
    FirstTurnRefreshes(c);
    assert Ordered(c.turns(0)) && c.turns(0).checkedAt <= c.turns(0 + 1).now;
    assert c.turns(0 + 1).now <= c.turns(0).now + step;
  }

  // The call has ended with a settled screen.
  ghost predicate EndsWell(c: Call, n: nat) {
    n > 0 && exists snapshot :: EndsAfter(c, n, Settled(snapshot, false))
  }

  lemma StaysOnItsWay(c: Call, step: nat, signature: string, n: nat)
    requires GoodClock(c) && Paced(c, step) && StandsStill(c, signature) && Interval(c) >= 0 && Window(c) >= 0
    requires c.Deadline() > QuietBy(c, step) + Interval(c) + 2 * step
    requires n > 0 && OnItsWay(c, step, signature, n)
    ensures EndsWell(c, n + 1) || OnItsWay(c, step, signature, n + 1)
  {
    var t := c.turns(n);
    assert Ordered(t) && t.checkedAt <= c.turns(n + 1).now && c.turns(n + 1).now <= t.now + step;
    assert !MustResync(c, n) && t.fetched.Some? && t.fetched.value.signature == signature;
    TurnInTime(c, step, StateAt(c, n), t, c.turns(n + 1).now, signature);
  }

  // One such turn: in time, it settles or leaves the call on its way.
  lemma TurnInTime(c: Call, step: nat, p: Progress, t: Turn, next: int, signature: string)
    requires Interval(c) >= 0 && Window(c) >= 0 && c.Deadline() > QuietBy(c, step) + Interval(c) + 2 * step
    requires Ordered(t) && t.checkedAt <= next <= t.now + step
    requires !Resyncs(c, t) && t.fetched.Some? && t.fetched.value.signature == signature == p.signature
    requires p.lastRefreshAt.Some? && t.now <= p.lastRefreshAt.value + Interval(c) + step
    requires p.stableSince.None? ==> p.lastRefreshAt.value <= c.startedAt + 2 * step
    requires p.stableSince.Some? ==>
      p.stableSince.value <= c.startedAt + 4 * step + Interval(c) && p.lastRefreshAt.value <= QuietBy(c, step)
    ensures var v := TakeTurn(c, p, t);
      if v.Done? then v.outcome == Settled(t.fetched.value, false)
      else
        && v.progress.signature == signature && v.progress.lastRefreshAt.Some?
        && next <= v.progress.lastRefreshAt.value + Interval(c) + step
        && (v.progress.stableSince.None? ==> v.progress.lastRefreshAt.value <= c.startedAt + 2 * step)
        && (v.progress.stableSince.Some? ==>
              v.progress.stableSince.value <= c.startedAt + 4 * step + Interval(c)
              && v.progress.lastRefreshAt.value <= QuietBy(c, step))
  {
  }

  lemma {:induction false} OnItsWayOrWell(c: Call, step: nat, signature: string, n: nat)
    requires GoodClock(c) && Paced(c, step) && StandsStill(c, signature) && Interval(c) >= 0 && Window(c) >= 0
    requires c.Deadline() > QuietBy(c, step) + Interval(c) + 2 * step
    requires n > 0
    ensures OnItsWay(c, step, signature, n) || exists m: nat :: m <= n && EndsWell(c, m)
  {
    if n == 1 {
      OnItsWayAtFirst(c, step, signature);
    } else {
      OnItsWayOrWell(c, step, signature, n - 1);
      if OnItsWay(c, step, signature, n - 1) {
        StaysOnItsWay(c, step, signature, n - 1);
      }
    }
  }

  // On a screen that stands still every call settles, and does not time out, as long as its turns
  // are short enough for its deadline.
  lemma StillScreenSettles(c: Call, step: nat, signature: string)
    requires GoodClock(c) && Paced(c, step) && StandsStill(c, signature) && Interval(c) >= 0 && Window(c) >= 0
    requires c.Deadline() > QuietBy(c, step) + Interval(c) + 2 * step
    ensures exists n: nat :: EndsWell(c, n)
  {
    EveryCallEnds(c, 0);
    var m: nat, outcome :| 0 < m && EndsAfter(c, m, outcome);
    OnItsWayOrWell(c, step, signature, m);
    EndedIsNotOnItsWay(c, step, signature, m, outcome);
  }

  lemma EndedIsNotOnItsWay(c: Call, step: nat, signature: string, m: nat, outcome: Outcome)
    requires EndsAfter(c, m, outcome)
    ensures !OnItsWay(c, step, signature, m)
  {
  }
}
