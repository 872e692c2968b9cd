// Runs of kernel operations in any order, each atomic under the runtime lock.
module KernelRuns {
  import opened Common
  import opened RefModels
  import opened Runtime
  import opened Kernel

  datatype Op =
    | Connect(lease: Lease, transport: Transport)
    | Activate(lease: Lease, result: BootstrapResult, token: string)
    | Rebootstrap(lease: Lease, result: BootstrapResult)
    | Fail(lease: Lease)
    | InvalidateCredentials(optional: Option<Lease>)
    | DropAuthority(lease: Lease, discardTransport: bool)
    | Normalize
    | Attach(lease: Lease, png: string)
    | Close
    | Invalidate(optional: Option<Lease>)
    | Refresh(update: ScreenUpdate)
    | RolledBackRefresh(update: ScreenUpdate)

  function Step(s: RuntimeState, op: Op): RuntimeState {
    match op
    case Connect(lease, transport) => BegunConnect(s, lease, transport)
    case Activate(lease, result, token) => ActivatedConnect(s, lease, result, token)
    case Rebootstrap(lease, result) => CommittedRebootstrap(s, lease, result)
    case Fail(lease) => FailedConnect(s, lease)
    case InvalidateCredentials(lease) => InvalidatedCredentials(s, lease)
    case DropAuthority(lease, discard) => DroppedAuthority(s, lease, discard)
    case Normalize => Normalized(s)
    case Attach(lease, png) => AttachedScreenshot(s, lease, png)
    case Close => ClosedRuntime(s)
    case Invalidate(lease) => InvalidatedRuntime(s, lease)
    case Refresh(update) => Refreshed(s, update)
    case RolledBackRefresh(_) => s
  }

  function Run(s: RuntimeState, ops: seq<Op>): RuntimeState {
    if ops == [] then s else Step(Run(s, ops[..|ops| - 1]), ops[|ops| - 1])
  }

  lemma {:induction false} RunSplits(s: RuntimeState, a: seq<Op>, b: seq<Op>)
    ensures Run(s, a + b) == Run(Run(s, a), b)
  {
    if b == [] {
      assert a + b == a;
    } else {
      RunSplits(s, a, b[..|b| - 1]);
      assert (a + b)[..|a + b| - 1] == a + b[..|b| - 1];
    }
  }

  // ---------- Coherent authority ----------

  // A refresh whose parts describe one snapshot and whose registry was built for it.
  predicate Consistent(update: ScreenUpdate) {
    var snapshot, pub, compiled := update.snapshot, update.publicScreen, update.compiledScreen;
    && compiled.screenId == pub.screenId
    && compiled.sourceSnapshotId == snapshot.snapshotId
    && compiled.sequence == update.sequence
    && compiled.capturedAt == snapshot.capturedAt
    && compiled.packageName == pub.packageName == snapshot.packageName
    && compiled.activityName == pub.activityName == snapshot.activityName
    && BoundTo(update.refRegistry, snapshot.snapshotId)
  }

  predicate BoundTo(bindings: Bindings, snapshotId: int) {
    forall r :: r in bindings ==> bindings[r].handle.snapshotId == snapshotId
  }

  predicate ConsistentRefreshes(ops: seq<Op>) {
    forall i :: 0 <= i < |ops| && ops[i].Refresh? ==> Consistent(ops[i].update)
  }

  predicate HasScreen(s: RuntimeState) {
    s.status == Ready && s.currentScreenId.Some? && s.currentScreenId.value != ""
  }

  predicate Coherent(s: RuntimeState) {
    && (HasScreen(s) <==> GetBasis(s).Some?)
    && (s.latestSnapshot == None ==> s.refRegistry == map[])
    && (s.latestSnapshot.Some? ==> BoundTo(s.refRegistry, s.latestSnapshot.value.snapshotId))
  }

  lemma StepKeepsCoherent(s: RuntimeState, op: Op)
    requires Coherent(s) && (op.Refresh? ==> Consistent(op.update))
    ensures Coherent(Step(s, op))
  {
  }

  // In every reachable state a basis exists exactly when the status is READY and a screen id is
  // set, and every handle of the live registry carries the latest snapshot's id.
  lemma {:induction false} AuthorityIsCoherent(persisted: Option<PersistedRuntime>, ops: seq<Op>)
    requires ConsistentRefreshes(ops)
    ensures Coherent(Run(Loaded(persisted), ops))
  {
    if ops != [] {
      AuthorityIsCoherent(persisted, ops[..|ops| - 1]);
      StepKeepsCoherent(Run(Loaded(persisted), ops[..|ops| - 1]), ops[|ops| - 1]);
    }
  }

  // The basis of a state shows the screens, snapshot and sequence of one refresh.
  predicate Shows(basis: Basis, update: ScreenUpdate) {
    && basis.screenId == update.publicScreen.screenId
    && basis.screenSequence == update.sequence
    && basis.snapshot == update.snapshot
    && basis.publicScreen == update.publicScreen
    && basis.compiledScreen == update.compiledScreen
  }

  // The last refresh of a run that was not rolled back.
  function LastRefresh(ops: seq<Op>): Option<ScreenUpdate> {
    if ops == [] then None
    else if ops[|ops| - 1].Refresh? then Some(ops[|ops| - 1].update)
    else LastRefresh(ops[..|ops| - 1])
  }

  lemma StepKeepsProvenance(s: RuntimeState, op: Op)
    ensures var before, after := GetBasis(s), GetBasis(Step(s, op));
      !op.Refresh? && after.Some? ==>
        before.Some? && after.value == before.value.(artifacts := after.value.artifacts)
  {
  }

  // An authoritative screen is always the one the last committed refresh installed, as a whole:
  // parts of two refreshes never mix, and a rolled-back refresh never shows.
  lemma {:induction false} BasisIsLastRefresh(persisted: Option<PersistedRuntime>, ops: seq<Op>)
    ensures var basis := GetBasis(Run(Loaded(persisted), ops));
      basis.Some? ==> LastRefresh(ops).Some? && Shows(basis.value, LastRefresh(ops).value)
  {
    if ops != [] {
      BasisIsLastRefresh(persisted, ops[..|ops| - 1]);
      StepKeepsProvenance(Run(Loaded(persisted), ops[..|ops| - 1]), ops[|ops| - 1]);
    }
  }

  // ---------- Leases ----------

  function LeaseOf(op: Op): Option<Lease> {
    match op
    case InvalidateCredentials(optional) => optional
    case Invalidate(optional) => optional
    case Normalize => None
    case Close => None
    case Refresh(_) => None
    case RolledBackRefresh(_) => None
    case _ => Some(op.lease)
  }

  // Handles an operation brings to the runtime and that the kernel closes if it turns them down.
  function Offered(op: Op): set<nat> {
    match op
    case Activate(_, result, _) => {result.transport.handle}
    case Rebootstrap(_, result) => {result.transport.handle}
    case _ => {}
  }

  predicate BumpsRevision(s: RuntimeState, op: Op) {
    op.Close? || (op.Invalidate? && Admits(s, op.optional))
  }

  lemma RevisionStep(s: RuntimeState, op: Op)
    ensures Step(s, op).lifecycleRevision == s.lifecycleRevision + (if BumpsRevision(s, op) then 1 else 0)
    ensures s.closed <= Step(s, op).closed
  {
  }

  lemma {:induction false} RevisionNeverDecreases(s: RuntimeState, ops: seq<Op>)
    ensures Run(s, ops).lifecycleRevision >= s.lifecycleRevision
  {
    if ops != [] {
      RevisionNeverDecreases(s, ops[..|ops| - 1]);
      RevisionStep(Run(s, ops[..|ops| - 1]), ops[|ops| - 1]);
    }
  }

  // Once close or invalidate has passed a lease by, no later operation holding it changes the
  // runtime; a connection offered with it is closed.
  lemma StaleLeaseIsInertForever(s: RuntimeState, lease: Lease, ops: seq<Op>, op: Op)
    requires lease.revision < s.lifecycleRevision && LeaseOf(op) == Some(lease)
    ensures Step(Run(s, ops), op) == Run(s, ops).(closed := Run(s, ops).closed + Offered(op))
  {
    RevisionNeverDecreases(s, ops);
    var t := Run(s, ops);
    assert !lease.IsCurrent(t);
    assert t.(closed := t.closed + {}) == t;
  }

  // A rebootstrap planned in one locked section and committed in another, with anything happening
  // in between, never replaces a live transport and never revives an invalidated runtime.
  lemma RebootstrapIsSafe(s: RuntimeState, lease: Option<Lease>, between: seq<Op>, result: BootstrapResult)
    requires PlanRebootstrap(s, lease).Proceed?
    ensures var t, planned := Run(s, between), PlanRebootstrap(s, lease).lease;
      var done := CommittedRebootstrap(t, planned, result);
      && (t.transport.Some? ==> done == t.(closed := t.closed + {result.transport.handle}))
      && (t.lifecycleRevision > s.lifecycleRevision ==> done == t.(closed := t.closed + {result.transport.handle}))
      && (t.transport == None && t.lifecycleRevision == s.lifecycleRevision ==>
            done.transport == Some(result.transport) && done.status == t.status)
  {
    RevisionNeverDecreases(s, between);
  }

  // ---------- Connector handles ----------

  // Handles the kernel takes over in one step: offered or connected ones it does not turn down.
  function Taken(s: RuntimeState, op: Op): set<nat> {
    match op
    case Connect(lease, transport) => if lease.IsCurrent(s) then {transport.handle} else {}
    case Activate(lease, result, _) => if lease.IsCurrent(s) then {result.transport.handle} else {}
    case Rebootstrap(lease, result) =>
      if lease.IsCurrent(s) && s.transport == None then {result.transport.handle} else {}
    case _ => {}
  }

  function TakenIn(s: RuntimeState, ops: seq<Op>): set<nat> {
    if ops == [] then {}
    else TakenIn(s, ops[..|ops| - 1]) + Taken(Run(s, ops[..|ops| - 1]), ops[|ops| - 1])
  }

  // Every handle taken over so far is live or closed, and the live one was taken over.
  predicate NoLeak(taken: set<nat>, s: RuntimeState) {
    taken <= s.closed + HandleOf(s.transport) && HandleOf(s.transport) <= taken
  }

  // An activation may only replace no transport, a closed one, or one that wraps the same handle.
  predicate Fits(s: RuntimeState, op: Op) {
    op.Activate? && op.lease.IsCurrent(s) ==>
      HandleOf(s.transport) <= s.closed + {op.result.transport.handle}
  }

  // One step leaks a handle exactly when it is an activation that overwrites another live one.
  lemma LeaksExactlyOnMisfit(taken: set<nat>, s: RuntimeState, op: Op)
    requires NoLeak(taken, s)
    ensures NoLeak(taken + Taken(s, op), Step(s, op)) <==> Fits(s, op)
  {
    var t := Step(s, op);
    assert s.transport.Some? ==> s.transport.value.handle in HandleOf(s.transport);
  }

  // Activation i ends the connect that operation k began: with the same lease, taken no later
  // than that, the same handle, and no other handle taken over in between.
  predicate Ends(s: RuntimeState, ops: seq<Op>, k: nat, i: nat)
    requires k < i < |ops| && ops[i].Activate?
  {
    && ops[k].Connect? && ops[k].lease == ops[i].lease
    && ops[k].transport.handle == ops[i].result.transport.handle
    && ops[k].lease.revision <= Run(s, ops[..k]).lifecycleRevision
    && TakesNothing(s, ops, k + 1, i)
  }

  predicate TakesNothing(s: RuntimeState, ops: seq<Op>, from: nat, to: nat)
    requires to <= |ops|
  {
    forall j :: from <= j < to ==> TakenAt(s, ops, j) == {}
  }

  function TakenAt(s: RuntimeState, ops: seq<Op>, j: nat): set<nat>
    requires j < |ops|
  {
    Taken(Run(s, ops[..j]), ops[j])
  }

  lemma TakenInPrefix(s: RuntimeState, ops: seq<Op>, n: nat, j: nat)
    requires j < n <= |ops|
    ensures TakenAt(s, ops[..n], j) == TakenAt(s, ops, j)
  {
    assert ops[..n][..j] == ops[..j];
  }

  lemma TakenInRest(s: RuntimeState, ops: seq<Op>, k: nat, j: nat)
    requires k <= |ops| && j < |ops| - k
    ensures TakenAt(Run(s, ops[..k]), ops[k..], j) == TakenAt(s, ops, k + j)
  {
    assert ops[..k + j][..k] == ops[..k] && ops[..k + j][k..] == ops[k..][..j];
    RunInTwo(s, ops[..k + j], k);
  }

  // The connect protocol: activations only end connects.
  predicate FollowsConnect(s: RuntimeState, ops: seq<Op>) {
    forall i :: 0 <= i < |ops| && ops[i].Activate? ==> exists k :: 0 <= k < i && Ends(s, ops, k, i)
  }

  lemma {:induction false} OnlyThatHandle(s: RuntimeState, ops: seq<Op>, handle: nat)
    requires HandleOf(s.transport) <= {handle}
    requires TakesNothing(s, ops, 0, |ops|)
    ensures HandleOf(Run(s, ops).transport) <= {handle}
  {
    if ops != [] {
      var n := |ops| - 1;
      forall j | 0 <= j < n ensures TakenAt(s, ops[..n], j) == {} {
        TakenInPrefix(s, ops, n, j);
      }
      OnlyThatHandle(s, ops[..n], handle);
      assert TakenAt(s, ops, n) == {};
      NothingTaken(Run(s, ops[..n]), ops[n], handle);
    }
  }

  lemma NothingTaken(s: RuntimeState, op: Op, handle: nat)
    requires HandleOf(s.transport) <= {handle} && Taken(s, op) == {}
    ensures HandleOf(Step(s, op).transport) <= {handle}
  {
    match op
    case Connect(lease, transport) => assert transport.handle in {transport.handle};
    case Activate(lease, result, _) => assert result.transport.handle in {result.transport.handle};
    case Rebootstrap(lease, result) => assert result.transport.handle in {result.transport.handle};
    case _ =>
  }

  lemma {:induction false} RunInTwo(s: RuntimeState, ops: seq<Op>, k: nat)
    requires k <= |ops|
    ensures Run(s, ops) == Run(Run(s, ops[..k]), ops[k..])
  {
    assert ops == ops[..k] + ops[k..];
    RunSplits(s, ops[..k], ops[k..]);
  }

  lemma RunOneMore(s: RuntimeState, ops: seq<Op>, k: nat)
    requires k < |ops|
    ensures Run(s, ops[..k + 1]) == Step(Run(s, ops[..k]), ops[k])
  {
    assert ops[..k + 1][..k] == ops[..k];
  }

  // Whatever else happens between a connect and its activation, the activation fits.
  lemma ProtocolFits(s: RuntimeState, ops: seq<Op>, k: nat, i: nat)
    requires k < i < |ops| && ops[i].Activate? && Ends(s, ops, k, i)
    ensures Fits(Run(s, ops[..i]), ops[i])
  {
    var begun, between := Run(s, ops[..k + 1]), ops[..i][k + 1..];
    RunOneMore(s, ops, k);
    RevisionStep(Run(s, ops[..k]), ops[k]);
    assert ops[..i][..k + 1] == ops[..k + 1];
    RunInTwo(s, ops[..i], k + 1);
    RevisionNeverDecreases(begun, between);
    if ops[i].lease.IsCurrent(Run(s, ops[..i])) {
      NothingTakenBetween(s, ops, k, i);
      OnlyThatHandle(begun, between, ops[i].result.transport.handle);
    }
  }

  lemma NothingTakenBetween(s: RuntimeState, ops: seq<Op>, k: nat, i: nat)
    requires k < i <= |ops| && TakesNothing(s, ops, k + 1, i)
    ensures TakesNothing(Run(s, ops[..k + 1]), ops[..i][k + 1..], 0, i - k - 1)
  {
    var begun, between := Run(s, ops[..k + 1]), ops[..i][k + 1..];
    assert ops[..i][..k + 1] == ops[..k + 1];
    forall j | 0 <= j < i - k - 1 ensures TakenAt(begun, between, j) == {} {
      TakenInRest(s, ops[..i], k + 1, j);
      TakenInPrefix(s, ops, i, k + 1 + j);
      assert TakenAt(s, ops, k + 1 + j) == {};
    }
  }

  predicate AllFit(s: RuntimeState, ops: seq<Op>) {
    ops == [] || (AllFit(s, ops[..|ops| - 1]) && Fits(Run(s, ops[..|ops| - 1]), ops[|ops| - 1]))
  }

  lemma ProtocolOfPrefix(s: RuntimeState, ops: seq<Op>, n: nat)
    requires FollowsConnect(s, ops) && n <= |ops|
    ensures FollowsConnect(s, ops[..n])
  {
    forall i | 0 <= i < n && ops[i].Activate? ensures exists k :: 0 <= k < i && Ends(s, ops[..n], k, i) {
      var k :| 0 <= k < i && Ends(s, ops, k, i);
      EndsInPrefix(s, ops, n, k, i);
    }
  }

  lemma EndsInPrefix(s: RuntimeState, ops: seq<Op>, n: nat, k: nat, i: nat)
    requires k < i < n <= |ops| && ops[i].Activate? && Ends(s, ops, k, i)
    ensures Ends(s, ops[..n], k, i)
  {
    assert ops[..n][..k] == ops[..k];
    forall j | k + 1 <= j < i ensures TakenAt(s, ops[..n], j) == {} {
      TakenInPrefix(s, ops, n, j);
      assert TakenAt(s, ops, j) == {};
    }
  }

  lemma {:induction false} ProtocolAllFits(s: RuntimeState, ops: seq<Op>)
    requires FollowsConnect(s, ops)
    ensures AllFit(s, ops)
  {
    if ops != [] {
      var n := |ops| - 1;
      ProtocolOfPrefix(s, ops, n);
      ProtocolAllFits(s, ops[..n]);
      if ops[n].Activate? {
        var k :| 0 <= k < n && Ends(s, ops, k, n);
        ProtocolFits(s, ops, k, n);
      }
    }
  }

  lemma {:induction false} FittingNeverLeaks(s: RuntimeState, ops: seq<Op>)
    requires AllFit(s, ops) && s.transport == None
    ensures NoLeak(TakenIn(s, ops), Run(s, ops))
  {
    if ops != [] {
      FittingNeverLeaks(s, ops[..|ops| - 1]);
      LeaksExactlyOnMisfit(TakenIn(s, ops[..|ops| - 1]), Run(s, ops[..|ops| - 1]), ops[|ops| - 1]);
    }
  }

  // Over any run that follows the connect protocol no handle taken over is ever lost: it is live
  // or closed.
  lemma HandlesNeverLeak(s: RuntimeState, ops: seq<Op>)
    requires FollowsConnect(s, ops) && s.transport == None
    ensures NoLeak(TakenIn(s, ops), Run(s, ops))
  {
    ProtocolAllFits(s, ops);
    FittingNeverLeaks(s, ops);
  }

  // After a close nothing is live, so everything ever taken over is closed.
  lemma CloseReleasesEverything(s: RuntimeState, ops: seq<Op>)
    requires FollowsConnect(s, ops) && s.transport == None
    ensures TakenIn(s, ops) <= Run(s, ops + [Close]).closed
  {
    HandlesNeverLeak(s, ops);
    RunSplits(s, ops, [Close]);
    assert Run(Run(s, ops), [Close]) == Step(Run(s, ops), Close) by {
      assert [Close][..0] == [];
    }
  }

  // Without the protocol a run can leak: an activation that brings another handle than the
  // connect did loses the connect's.
  lemma ActivationCanLeak(persisted: Option<PersistedRuntime>, result: BootstrapResult, token: string)
    ensures exists ops :: !NoLeak(TakenIn(Loaded(persisted), ops), Run(Loaded(persisted), ops))
  {
    var s := Loaded(persisted);
    var begin := Connect(Lease(0), Transport(result.transport.handle + 1));
    var ops := [begin, Activate(Lease(0), result, token)];
    assert ops[..1] == [begin] && [begin][..0] == [];
    assert Run(s, [begin]) == Step(s, begin);
    assert TakenIn(s, [begin]) == {result.transport.handle + 1};
    assert result.transport.handle + 1 in TakenIn(s, ops);
    assert Run(s, ops) == Step(Step(s, begin), ops[1]);
  }

  // And so can one that takes over another handle in between: credentials invalidated behind a
  // connect leave room for a rebootstrap, whose handle the connect's own activation overwrites.
  lemma RebootstrapInBetweenLeaks(s: RuntimeState, lease: Lease, result: BootstrapResult, other: BootstrapResult,
                                  token: string)
    requires lease.IsCurrent(s) && other.transport.handle !in s.closed + {result.transport.handle}
    requires HandleOf(s.transport) <= s.closed
    ensures var ops := [Connect(lease, result.transport), InvalidateCredentials(None), Rebootstrap(lease, other),
                        Activate(lease, result, token)];
      other.transport.handle in TakenIn(s, ops) && !NoLeak(TakenIn(s, ops), Run(s, ops))
  {
    var ops := [Connect(lease, result.transport), InvalidateCredentials(None), Rebootstrap(lease, other),
                Activate(lease, result, token)];
    RunOneMore(s, ops, 0);
    RunOneMore(s, ops, 1);
    RunOneMore(s, ops, 2);
    RunOneMore(s, ops, 3);
    assert ops[..4] == ops;
    RoomForAnother(s, lease, result.transport, other);
    TakenStays(s, ops, 2);
    OverwrittenLeaks(Run(s, ops[..3]), lease, result, other.transport.handle, token);
  }

  // Behind the first three operations the other handle is live, and not closed.
  lemma RoomForAnother(s: RuntimeState, lease: Lease, transport: Transport, other: BootstrapResult)
    requires lease.IsCurrent(s) && other.transport.handle !in s.closed + {transport.handle}
    requires HandleOf(s.transport) <= s.closed
    ensures var cleared := Step(Step(s, Connect(lease, transport)), InvalidateCredentials(None));
      && Taken(cleared, Rebootstrap(lease, other)) == {other.transport.handle}
      && lease.IsCurrent(Step(cleared, Rebootstrap(lease, other)))
      && other.transport.handle !in Step(cleared, Rebootstrap(lease, other)).closed
  {
  }

  lemma {:induction false} TakenStays(s: RuntimeState, ops: seq<Op>, k: nat)
    requires k < |ops|
    ensures TakenAt(s, ops, k) <= TakenIn(s, ops)
  {
    var n := |ops| - 1;
    if k < n {
      TakenStays(s, ops[..n], k);
      TakenInPrefix(s, ops, n, k);
    }
  }

  lemma OverwrittenLeaks(s: RuntimeState, lease: Lease, result: BootstrapResult, handle: nat, token: string)
    requires lease.IsCurrent(s) && handle !in s.closed && handle != result.transport.handle
    ensures var t := Step(s, Activate(lease, result, token)); handle !in t.closed + HandleOf(t.transport)
  {
  }
}
