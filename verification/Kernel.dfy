// The lease-guarded transitions of the runtime. Each method is the locked body of one operation;
// the function before it says what the operation makes of the runtime's value.
module Kernel {
  import opened Common
  import opened RefModels
  import opened Runtime

  datatype Reply = Accepted | Rejected | Raised

  function HandleOf(transport: Option<Transport>): set<nat> {
    if transport.Some? then {transport.value.handle} else {}
  }

  function Released(s: RuntimeState): RuntimeState {
    s.(transport := None, closed := s.closed + HandleOf(s.transport))
  }

  function ScreenCleared(s: RuntimeState): RuntimeState {
    s.(latestSnapshot := None, previousSnapshot := None, currentScreenId := None, screenState := None,
       refRegistry := map[])
  }

  function Disconnected(s: RuntimeState): RuntimeState {
    Released(s).(connection := None, deviceToken := None, capabilities := None)
  }

  function Cleared(s: RuntimeState): RuntimeState {
    ScreenCleared(Disconnected(s))
  }

  method ReleaseTransport(runtime: WorkspaceRuntime)
    modifies runtime
    ensures runtime.State() == Released(old(runtime.State()))
  {
    var transport := runtime.transport;
    runtime.transport := None;
    if transport.Some? {
      runtime.closed := runtime.closed + {transport.value.handle};
    }
  }

  method ClearScreen(runtime: WorkspaceRuntime)
    modifies runtime
    ensures runtime.State() == ScreenCleared(old(runtime.State()))
  {
    runtime.latestSnapshot := None;
    runtime.previousSnapshot := None;
    runtime.currentScreenId := None;
    runtime.screenState := None;
    runtime.refRegistry := map[];
  }

  method Disconnect(runtime: WorkspaceRuntime)
    modifies runtime
    ensures runtime.State() == Disconnected(old(runtime.State()))
  {
    ReleaseTransport(runtime);
    runtime.connection := None;
    runtime.deviceToken := None;
    runtime.capabilities := None;
  }

  // What the state file holds after an operation that persists the runtime, unless that fails.
  ghost predicate Persists(store: RuntimeStore, before: Option<PersistedRuntime>, s: RuntimeState, fails: bool)
    reads store
  {
    store.persisted == if fails then before else Some(PersistedOf(s))
  }

  function ReplyOf(fails: bool): (reply: Reply)
    ensures reply == Accepted <==> !fails
    ensures reply == Raised <==> fails
  {
    if fails then Raised else Accepted
  }

  // ---------- Connecting ----------

  function BegunConnect(s: RuntimeState, lease: Lease, transport: Transport): RuntimeState {
    if !lease.IsCurrent(s) then s
    else Cleared(s).(transport := Some(transport), status := Bootstrapping)
  }

  method BeginConnect(store: RuntimeStore, runtime: WorkspaceRuntime, lease: Lease, transport: Transport, fails: bool)
    returns (reply: Reply)
    modifies runtime, store
    ensures runtime.State() == BegunConnect(old(runtime.State()), lease, transport)
    ensures reply == if lease.IsCurrent(old(runtime.State())) then ReplyOf(fails) else Rejected
    ensures reply == Rejected ==> store.persisted == old(store.persisted)
    ensures reply != Rejected ==> Persists(store, old(store.persisted), runtime.State(), fails)
  {
    if lease.revision != runtime.lifecycleRevision {
      return Rejected;
    }
    Disconnect(runtime);
    ClearScreen(runtime);
    runtime.transport := Some(transport);
    runtime.status := Bootstrapping;
    var ok := store.PersistRuntime(runtime, fails);
    return if ok then Accepted else Raised;
  }

  function ActivatedConnect(s: RuntimeState, lease: Lease, result: BootstrapResult, token: string): RuntimeState {
    if !lease.IsCurrent(s) then s.(closed := s.closed + {result.transport.handle})
    else s.(connection := Some(result.connection), transport := Some(result.transport),
            deviceToken := Some(token), capabilities := Some(result.capabilities), status := Connected)
  }

  method ActivateConnect(store: RuntimeStore, runtime: WorkspaceRuntime, lease: Lease, result: BootstrapResult,
      token: string, fails: bool)
    returns (reply: Reply)
    modifies runtime, store
    ensures runtime.State() == ActivatedConnect(old(runtime.State()), lease, result, token)
    ensures reply == if lease.IsCurrent(old(runtime.State())) then ReplyOf(fails) else Rejected
    ensures reply == Rejected ==> store.persisted == old(store.persisted)
    ensures reply != Rejected ==> Persists(store, old(store.persisted), runtime.State(), fails)
  {
    if lease.revision != runtime.lifecycleRevision {
      runtime.closed := runtime.closed + {result.transport.handle};
      return Rejected;
    }
    runtime.connection := Some(result.connection);
    runtime.transport := Some(result.transport);
    runtime.deviceToken := Some(token);
    runtime.capabilities := Some(result.capabilities);
    runtime.status := Connected;
    var ok := store.PersistRuntime(runtime, fails);
    return if ok then Accepted else Raised;
  }

  function FailedConnect(s: RuntimeState, lease: Lease): RuntimeState {
    if !lease.IsCurrent(s) then s else Cleared(s).(status := Broken)
  }

  // Also the body of `invalidate_device_credentials`, whose lease is optional.
  method BreakRuntime(store: RuntimeStore, runtime: WorkspaceRuntime, lease: Option<Lease>, fails: bool)
    returns (reply: Reply)
    modifies runtime, store
    ensures runtime.State() == InvalidatedCredentials(old(runtime.State()), lease)
    ensures reply == if Admits(old(runtime.State()), lease) then ReplyOf(fails) else Rejected
    ensures reply == Rejected ==> store.persisted == old(store.persisted)
    ensures reply != Rejected ==> Persists(store, old(store.persisted), runtime.State(), fails)
  {
    if lease.Some? && lease.value.revision != runtime.lifecycleRevision {
      return Rejected;
    }
    Disconnect(runtime);
    ClearScreen(runtime);
    runtime.status := Broken;
    var ok := store.PersistRuntime(runtime, fails);
    return if ok then Accepted else Raised;
  }

  method FailConnect(store: RuntimeStore, runtime: WorkspaceRuntime, lease: Lease, fails: bool) returns (reply: Reply)
    modifies runtime, store
    ensures runtime.State() == FailedConnect(old(runtime.State()), lease)
    ensures reply == if lease.IsCurrent(old(runtime.State())) then ReplyOf(fails) else Rejected
    ensures reply == Rejected ==> store.persisted == old(store.persisted)
    ensures reply != Rejected ==> Persists(store, old(store.persisted), runtime.State(), fails)
  {
    reply := BreakRuntime(store, runtime, Some(lease), fails);
  }

  predicate Admits(s: RuntimeState, lease: Option<Lease>) {
    lease == None || lease.value.IsCurrent(s)
  }

  function InvalidatedCredentials(s: RuntimeState, lease: Option<Lease>): RuntimeState {
    if !Admits(s, lease) then s else Cleared(s).(status := Broken)
  }

  // ---------- Rebuilding the transport ----------

  datatype RebootstrapPlan = NotConnected | AlreadyLive(transport: Transport) | Proceed(lease: Lease)

  // The first locked section of `rebootstrap_transport`; it changes nothing.
  function PlanRebootstrap(s: RuntimeState, lease: Option<Lease>): RebootstrapPlan {
    if !Admits(s, lease) then NotConnected
    else if s.transport.Some? then AlreadyLive(s.transport.value)
    else if s.connection == None || s.deviceToken == None || s.deviceToken.value == "" then NotConnected
    else Proceed(if lease.Some? then lease.value else Lease(s.lifecycleRevision))
  }

  function CommittedRebootstrap(s: RuntimeState, lease: Lease, result: BootstrapResult): RuntimeState {
    if !lease.IsCurrent(s) || s.transport.Some? then s.(closed := s.closed + {result.transport.handle})
    else s.(connection := Some(result.connection), transport := Some(result.transport),
            capabilities := Some(result.capabilities))
  }

  method CommitTransportRebootstrap(store: RuntimeStore, runtime: WorkspaceRuntime, lease: Lease,
      result: BootstrapResult, fails: bool)
    returns (transport: Option<Transport>, raised: bool)
    modifies runtime, store
    ensures runtime.State() == CommittedRebootstrap(old(runtime.State()), lease, result)
    ensures var s := old(runtime.State());
      if !lease.IsCurrent(s) then transport == None && !raised
      else if s.transport.Some? then transport == s.transport && !raised
      else raised == fails && (!raised ==> transport == Some(result.transport))
    ensures if lease.IsCurrent(old(runtime.State())) && old(runtime.transport).None?
      then Persists(store, old(store.persisted), runtime.State(), fails)
      else store.persisted == old(store.persisted)
  {
    transport, raised := None, false;
    if lease.revision != runtime.lifecycleRevision {
      runtime.closed := runtime.closed + {result.transport.handle};
    } else if runtime.transport.Some? {
      transport := runtime.transport;
      runtime.closed := runtime.closed + {result.transport.handle};
    } else {
      runtime.connection := Some(result.connection);
      runtime.transport := Some(result.transport);
      runtime.capabilities := Some(result.capabilities);
      var ok := store.PersistRuntime(runtime, fails);
      transport, raised := Some(result.transport), !ok;
    }
  }

  // ---------- Giving up the current screen ----------

  function DroppedAuthority(s: RuntimeState, lease: Lease, discardTransport: bool): RuntimeState {
    if !lease.IsCurrent(s) then s
    else
      var t := ScreenCleared(s);
      if s.connection.Some? && s.deviceToken.Some? then
        (if discardTransport then Released(t).(capabilities := None) else t).(status := Connected)
      else Disconnected(t).(status := Broken)
  }

  method DropCurrentScreenAuthority(store: RuntimeStore, runtime: WorkspaceRuntime, lease: Lease,
      discardTransport: bool, fails: bool)
    returns (reply: Reply)
    modifies runtime, store
    ensures runtime.State() == DroppedAuthority(old(runtime.State()), lease, discardTransport)
    ensures reply == if lease.IsCurrent(old(runtime.State())) then ReplyOf(fails) else Rejected
    ensures reply == Rejected ==> store.persisted == old(store.persisted)
    ensures reply != Rejected ==> Persists(store, old(store.persisted), runtime.State(), fails)
  {
    if lease.revision != runtime.lifecycleRevision {
      return Rejected;
    }
    ClearScreen(runtime);
    if runtime.connection.Some? && runtime.deviceToken.Some? {
      if discardTransport {
        ReleaseTransport(runtime);
        runtime.capabilities := None;
      }
      runtime.status := Connected;
    } else {
      Disconnect(runtime);
      runtime.status := Broken;
    }
    var ok := store.PersistRuntime(runtime, fails);
    return if ok then Accepted else Raised;
  }

  function Normalized(s: RuntimeState): RuntimeState {
    if s.status != Ready || HasLivePublicScreen(s) then s
    else
      var t := ScreenCleared(s);
      if s.transport.Some? && s.connection.Some? && s.deviceToken.Some? then t.(status := Connected)
      else Disconnected(t).(status := Broken)
  }

  method NormalizeStaleReadyRuntime(store: RuntimeStore, runtime: WorkspaceRuntime, fails: bool) returns (reply: Reply)
    modifies runtime, store
    ensures runtime.State() == Normalized(old(runtime.State()))
    ensures reply == Rejected <==>
      old(runtime.status) != Ready || HasLivePublicScreen(old(runtime.State()))
    ensures reply == Rejected ==> store.persisted == old(store.persisted)
    ensures reply != Rejected ==> Persists(store, old(store.persisted), runtime.State(), fails)
  {
    if runtime.status != Ready {
      return Rejected;
    }
    var live := IsLive(runtime);
    if live {
      return Rejected;
    }
    ClearScreen(runtime);
    if runtime.transport.Some? && runtime.connection.Some? && runtime.deviceToken.Some? {
      runtime.status := Connected;
    } else {
      Disconnect(runtime);
      runtime.status := Broken;
    }
    var ok := store.PersistRuntime(runtime, fails);
    return if ok then Accepted else Raised;
  }

  method IsLive(runtime: WorkspaceRuntime) returns (live: bool)
    ensures live == HasLivePublicScreen(runtime.State())
  {
    if runtime.transport == None || runtime.connection == None || runtime.deviceToken == None {
      return false;
    }
    var value := RuntimeState(
      runtime.status, runtime.screenSequence, runtime.currentScreenId, None, None, None, None,
      runtime.latestSnapshot, None, runtime.screenState, map[], 0, {});
    return GetBasis(value).Some?;
  }

  // ---------- Closing ----------

  function ClosedRuntime(s: RuntimeState): RuntimeState {
    Cleared(s).(lifecycleRevision := s.lifecycleRevision + 1, status := Closed)
  }

  method CloseRuntime(store: RuntimeStore, runtime: WorkspaceRuntime, fails: bool) returns (reply: Reply)
    modifies runtime, store
    ensures runtime.State() == ClosedRuntime(old(runtime.State()))
    ensures reply == ReplyOf(fails)
    ensures Persists(store, old(store.persisted), runtime.State(), fails)
  {
    Disconnect(runtime);
    ClearScreen(runtime);
    runtime.lifecycleRevision := runtime.lifecycleRevision + 1;
    runtime.status := Closed;
    var ok := store.PersistRuntime(runtime, fails);
    return if ok then Accepted else Raised;
  }

  function InvalidatedRuntime(s: RuntimeState, lease: Option<Lease>): RuntimeState {
    if !Admits(s, lease) then s
    else Cleared(s).(lifecycleRevision := s.lifecycleRevision + 1)
  }

  method InvalidateRuntime(runtime: WorkspaceRuntime, lease: Option<Lease>) returns (reply: Reply)
    modifies runtime
    ensures runtime.State() == InvalidatedRuntime(old(runtime.State()), lease)
    ensures reply == if Admits(old(runtime.State()), lease) then Accepted else Rejected
  {
    if lease.Some? && lease.value.revision != runtime.lifecycleRevision {
      return Rejected;
    }
    Disconnect(runtime);
    ClearScreen(runtime);
    runtime.lifecycleRevision := runtime.lifecycleRevision + 1;
    return Accepted;
  }

  // ---------- Artifacts and screens ----------

  const NO_ARTIFACTS := ScreenArtifacts(None, None, None)

  function AttachedScreenshot(s: RuntimeState, lease: Lease, png: string): RuntimeState {
    if !lease.IsCurrent(s) then s
    else match s.screenState
      case None => s.(screenState := Some(ScreenState(None, None, Some(NO_ARTIFACTS.(screenshotPng := Some(png))))))
      case Some(screens) =>
        var bag := if screens.artifacts.Some? then screens.artifacts.value else NO_ARTIFACTS;
        s.(screenState := Some(screens.(artifacts := Some(bag.(screenshotPng := Some(png))))))
  }

  method AttachScreenshotArtifact(runtime: WorkspaceRuntime, lease: Lease, png: string)
    returns (attached: Option<ScreenState>)
    modifies runtime
    ensures runtime.State() == AttachedScreenshot(old(runtime.State()), lease, png)
    ensures attached == if lease.IsCurrent(old(runtime.State())) then runtime.screenState else None
  {
    if lease.revision != runtime.lifecycleRevision {
      return None;
    }
    var artifacts := NO_ARTIFACTS;
    if runtime.screenState.Some? && runtime.screenState.value.artifacts.Some? {
      artifacts := runtime.screenState.value.artifacts.value;
    }
    artifacts := artifacts.(screenshotPng := Some(png));
    runtime.screenState :=
      match runtime.screenState
      case None => Some(ScreenState(None, None, Some(artifacts)))
      case Some(screens) => Some(screens.(artifacts := Some(artifacts)));
    return runtime.screenState;
  }

  datatype ScreenUpdate = ScreenUpdate(
    sequence: int,
    snapshot: RawSnapshot,
    publicScreen: PublicView,
    compiledScreen: CompiledView,
    artifacts: ScreenArtifacts,
    refRegistry: Bindings)

  function Refreshed(s: RuntimeState, update: ScreenUpdate): RuntimeState {
    s.(previousSnapshot := s.latestSnapshot, latestSnapshot := Some(update.snapshot),
       screenSequence := update.sequence, currentScreenId := Some(update.publicScreen.screenId),
       status := Ready,
       screenState := Some(ScreenState(Some(update.publicScreen), Some(update.compiledScreen), Some(update.artifacts))),
       refRegistry := update.refRegistry)
  }
}
