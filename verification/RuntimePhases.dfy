// What runs of kernel operations come to: the status, the authoritative screen, and what is left of
// a runtime that was cleared.
module RuntimePhases {
  import opened Common
  import opened RefModels
  import opened Runtime
  import opened Kernel
  import opened KernelRuns

  // ---------- The status ----------

  // The status that an operation decides on, if it decides on any.
  function Decides(s: RuntimeState, op: Op): Option<RuntimeStatus> {
    match op
    case Connect(lease, _) => if lease.revision == s.lifecycleRevision then Some(Bootstrapping) else None
    case Activate(lease, _, _) => if lease.revision == s.lifecycleRevision then Some(Connected) else None
    case Rebootstrap(_, _) => None
    case Fail(lease) => if lease.revision == s.lifecycleRevision then Some(Broken) else None
    case InvalidateCredentials(lease) =>
      if lease == None || lease.value.revision == s.lifecycleRevision then Some(Broken) else None
    case DropAuthority(lease, _) =>
      if lease.revision != s.lifecycleRevision then None
      else if s.connection == None || s.deviceToken == None then Some(Broken)
      else Some(Connected)
    case Normalize =>
      if s.status != Ready then None
      else if s.transport == None || s.connection == None || s.deviceToken == None then Some(Broken)
      else if GetBasis(s) == None then Some(Connected)
      else None
    case Attach(_, _) => None
    case Close => Some(Closed)
    case Invalidate(_) => None
    case Refresh(_) => Some(Ready)
    case RolledBackRefresh(_) => None
  }

  // The last decision of a run.
  function Decided(s: RuntimeState, ops: seq<Op>): Option<RuntimeStatus> {
    if ops == [] then None
    else
      var front := ops[..|ops| - 1];
      var last := Decides(Run(s, front), ops[|ops| - 1]);
      if last.Some? then last else Decided(s, front)
  }

  // A runtime has the status that was decided on last, and before any decision the one it was
  // loaded with; a runtime that was READY is loaded as BROKEN.
  lemma {:induction false} StatusIsDecided(s: RuntimeState, ops: seq<Op>)
    ensures Run(s, ops).status == if Decided(s, ops).Some? then Decided(s, ops).value else s.status
  {
    if ops != [] {
      StatusIsDecided(s, ops[..|ops| - 1]);
      StepDecides(Run(s, ops[..|ops| - 1]), ops[|ops| - 1]);
    }
  }

  lemma StepDecides(s: RuntimeState, op: Op)
    ensures Step(s, op).status == if Decides(s, op).Some? then Decides(s, op).value else s.status
  {
  }

  lemma ReloadedIsNeverReady(s: RuntimeState)
    ensures var t := Loaded(Some(PersistedOf(s)));
      && t == Loaded(None).(status := t.status, screenSequence := s.screenSequence)
      && (s.status == Ready ==> t.status == Broken)
      && (s.status != Ready ==> t.status == s.status)
    ensures Loaded(None).status == New && Loaded(None).screenSequence == 0 && GetBasis(Loaded(None)) == None
  {
  }

  // ---------- The authoritative screen ----------

  // A consistent refresh with a screen id is authoritative, whatever the runtime was before.
  lemma RefreshIsAuthoritative(s: RuntimeState, update: ScreenUpdate)
    requires Consistent(update) && update.publicScreen.screenId != ""
    ensures var basis := GetBasis(Step(s, Refresh(update)));
      basis.Some? && Shows(basis.value, update) && basis.value.artifacts == Some(update.artifacts)
  {
  }

  // A basis fits together: one screen id, one sequence, and one snapshot with its time, package and
  // activity. Whatever fits together in a READY runtime is a basis.
  lemma BasisIsOnePiece(s: RuntimeState)
    ensures GetBasis(s).Some? <==>
      && s.status == Ready && s.currentScreenId.Some? && s.currentScreenId.value != ""
      && s.latestSnapshot.Some? && s.screenState.Some?
      && s.screenState.value.publicScreen.Some? && s.screenState.value.compiledScreen.Some?
      && OnePiece(s.currentScreenId.value, s.screenSequence, s.latestSnapshot.value,
                  s.screenState.value.publicScreen.value, s.screenState.value.compiledScreen.value)
    ensures GetBasis(s).Some? ==>
      GetBasis(s).value == Basis(s.currentScreenId.value, s.screenSequence, s.latestSnapshot.value,
                                 s.screenState.value.publicScreen.value, s.screenState.value.compiledScreen.value,
                                 s.screenState.value.artifacts)
  {
  }

  predicate OnePiece(id: string, sequence: int, snapshot: RawSnapshot, pub: PublicView, compiled: CompiledView) {
    && pub.screenId == id == compiled.screenId
    && compiled.sequence == sequence && compiled.sourceSnapshotId == snapshot.snapshotId
    && compiled.capturedAt == snapshot.capturedAt
    && pub.packageName == snapshot.packageName == compiled.packageName
    && pub.activityName == snapshot.activityName == compiled.activityName
  }

  // The operations that take the screen away.
  predicate TakesScreen(s: RuntimeState, op: Op) {
    match op
    case Connect(lease, _) => lease.revision == s.lifecycleRevision
    case Activate(lease, _, _) => lease.revision == s.lifecycleRevision
    case Fail(lease) => lease.revision == s.lifecycleRevision
    case InvalidateCredentials(lease) => lease == None || lease.value.revision == s.lifecycleRevision
    case DropAuthority(lease, _) => lease.revision == s.lifecycleRevision
    case Normalize => s.transport == None || s.connection == None || s.deviceToken == None
    case Close => true
    case Invalidate(lease) => lease == None || lease.value.revision == s.lifecycleRevision
    case _ => false
  }

  // The last refresh of a run names a screen, and nothing since has taken it away.
  predicate ScreenStands(s: RuntimeState, ops: seq<Op>) {
    ops != []
    && var front, last := ops[..|ops| - 1], ops[|ops| - 1];
       if last.Refresh? then last.update.publicScreen.screenId != ""
       else ScreenStands(s, front) && !TakesScreen(Run(s, front), last)
  }

  lemma ScreenStep(s: RuntimeState, op: Op)
    requires !op.Refresh?
    ensures GetBasis(Step(s, op)).Some? <==> GetBasis(s).Some? && !TakesScreen(s, op)
  {
  }

  // There is an authoritative screen exactly as long as the last refresh stands.
  lemma {:induction false} BasisIff(persisted: Option<PersistedRuntime>, ops: seq<Op>)
    requires ConsistentRefreshes(ops)
    ensures GetBasis(Run(Loaded(persisted), ops)).Some? <==> ScreenStands(Loaded(persisted), ops)
  {
    if ops != [] {
      var front, last := ops[..|ops| - 1], ops[|ops| - 1];
      BasisIff(persisted, front);
      if last.Refresh? {
        if last.update.publicScreen.screenId != "" {
          RefreshIsAuthoritative(Run(Loaded(persisted), front), last.update);
        }
      } else {
        ScreenStep(Run(Loaded(persisted), front), last);
      }
    }
  }

  // A refresh keeps the snapshot before it, and leaves the connection alone.
  lemma RefreshKeepsTheRest(s: RuntimeState, update: ScreenUpdate)
    ensures var t := Step(s, Refresh(update));
      && t.previousSnapshot == s.latestSnapshot && t.latestSnapshot == Some(update.snapshot)
      && t.screenSequence == update.sequence && t.refRegistry == update.refRegistry
      && t.connection == s.connection && t.deviceToken == s.deviceToken && t.capabilities == s.capabilities
      && t.transport == s.transport && t.closed == s.closed
  {
  }

  // A screenshot that is attached shows in the basis, next to the artifacts that were there.
  lemma AttachedShows(s: RuntimeState, lease: Lease, png: string)
    requires lease.revision == s.lifecycleRevision && GetBasis(s).Some?
    ensures var before, after := GetBasis(s).value, GetBasis(Step(s, Attach(lease, png)));
      && after.Some? && after.value == before.(artifacts := after.value.artifacts)
      && after.value.artifacts.Some? && after.value.artifacts.value.screenshotPng == Some(png)
      && (before.artifacts.Some? ==>
            after.value.artifacts.value == before.artifacts.value.(screenshotPng := Some(png)))
  {
  }

  // ---------- What is left ----------

  // The operations that clear a runtime.
  predicate Clears(s: RuntimeState, op: Op) {
    match op
    case Connect(lease, _) => lease.revision == s.lifecycleRevision
    case Fail(lease) => lease.revision == s.lifecycleRevision
    case InvalidateCredentials(lease) => lease == None || lease.value.revision == s.lifecycleRevision
    case Close => true
    case Invalidate(lease) => lease == None || lease.value.revision == s.lifecycleRevision
    case _ => false
  }

  // Such a runtime is like a new one, but for its status, sequence, revision and closed handles,
  // and for the transport of the connect that has begun.
  lemma ClearedIsLikeNew(s: RuntimeState, op: Op)
    requires Clears(s, op)
    ensures var t := Step(s, op);
      && t.(transport := None)
           == Loaded(None).(status := t.status, screenSequence := s.screenSequence,
                            lifecycleRevision := t.lifecycleRevision, closed := t.closed)
      && t.transport == (if op.Connect? then Some(op.transport) else None)
      && t.closed == s.closed + HandleOf(s.transport)
  {
  }

  // Dropping the screen keeps a connection that is there, and its transport unless that is to go
  // as well; without a connection nothing is kept.
  lemma DroppedKeepsTheConnection(s: RuntimeState, lease: Lease, discard: bool)
    requires lease.revision == s.lifecycleRevision
    ensures var t := Step(s, DropAuthority(lease, discard));
      var kept := s.connection.Some? && s.deviceToken.Some?;
      && t.latestSnapshot == None && t.previousSnapshot == None && t.currentScreenId == None
      && t.screenState == None && t.refRegistry == map[] && t.lifecycleRevision == s.lifecycleRevision
      && t.screenSequence == s.screenSequence
      && t.connection == (if kept then s.connection else None)
      && t.deviceToken == (if kept then s.deviceToken else None)
      && t.transport == (if kept && !discard then s.transport else None)
      && t.capabilities == (if kept && !discard then s.capabilities else None)
      && t.closed == s.closed + (if kept && !discard then {} else HandleOf(s.transport))
  {
  }

  // So does normalising a READY runtime that shows no live screen; any other is left as it is.
  lemma NormalizedKeepsTheConnection(s: RuntimeState)
    ensures var t := Step(s, Normalize);
      var live := s.transport.Some? && s.connection.Some? && s.deviceToken.Some?;
      if s.status != Ready || (live && GetBasis(s).Some?) then t == s
      else
        && t.latestSnapshot == None && t.previousSnapshot == None && t.currentScreenId == None
        && t.screenState == None && t.refRegistry == map[] && t.lifecycleRevision == s.lifecycleRevision
        && t.screenSequence == s.screenSequence
        && t.connection == (if live then s.connection else None)
        && t.deviceToken == (if live then s.deviceToken else None)
        && t.transport == (if live then s.transport else None)
        && t.capabilities == (if live then s.capabilities else None)
        && t.closed == s.closed + (if live then {} else HandleOf(s.transport))
  {
  }

  // ---------- A session ----------

  // A connect, its activation and a refresh make a live screen on the connection that was offered.
  lemma SessionIsLive(s: RuntimeState, lease: Lease, transport: Transport, result: BootstrapResult, token: string,
                      update: ScreenUpdate)
    requires lease.revision == s.lifecycleRevision && Consistent(update) && update.publicScreen.screenId != ""
    ensures var t := Run(s, [Connect(lease, transport), Activate(lease, result, token), Refresh(update)]);
      && HasLivePublicScreen(t) && t.status == Ready && Shows(GetBasis(t).value, update)
      && t.connection == Some(result.connection) && t.transport == Some(result.transport)
      && t.deviceToken == Some(token) && t.capabilities == Some(result.capabilities)
      && t.lifecycleRevision == s.lifecycleRevision
  {
    var ops := [Connect(lease, transport), Activate(lease, result, token), Refresh(update)];
    RunOneMore(s, ops, 0);
    RunOneMore(s, ops, 1);
    RunOneMore(s, ops, 2);
    assert ops[..3] == ops;
    RefreshIsAuthoritative(Run(s, ops[..2]), update);
  }

  // A rebootstrap is planned only for a current lease and a connection with a token, but without a
  // transport; a transport that is there is kept.
  lemma PlansIff(s: RuntimeState, lease: Option<Lease>)
    ensures var plan := PlanRebootstrap(s, lease);
      var current := lease == None || lease.value.revision == s.lifecycleRevision;
      && (plan == Proceed(Lease(s.lifecycleRevision)) <==>
            current && s.transport == None && s.connection.Some? && s.deviceToken.Some? && |s.deviceToken.value| > 0)
      && (plan.AlreadyLive? <==> current && s.transport.Some?)
      && (plan.AlreadyLive? ==> s.transport == Some(plan.transport))
      && (plan.Proceed? ==> plan.lease == Lease(s.lifecycleRevision))
  {
  }

  // A rebuilt transport brings the connection back to life, under the token that was there.
  lemma RebootstrapRestores(s: RuntimeState, lease: Lease, result: BootstrapResult)
    requires lease.revision == s.lifecycleRevision && s.transport == None
    ensures var t := Step(s, Rebootstrap(lease, result));
      t == s.(connection := t.connection, transport := t.transport, capabilities := t.capabilities)
      && t.connection == Some(result.connection) && t.transport == Some(result.transport)
      && t.capabilities == Some(result.capabilities)
  {
  }
}
