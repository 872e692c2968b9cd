// The workspace runtime: its state, its lifecycle lease, and the basis that is authoritative for
// the current screen.
module Runtime {
  import opened Common
  import opened RefModels

  datatype RuntimeStatus = New | Bootstrapping | Connected | Ready | Broken | Closed

  // A transport wraps the connector handle that closing it closes.
  datatype Transport = Transport(handle: nat)

  datatype ConnectionSpec = ConnectionSpec(endpoint: string)

  datatype DeviceCapabilities = DeviceCapabilities(actionKinds: set<string>)

  datatype BootstrapResult = BootstrapResult(
    connection: ConnectionSpec,
    transport: Transport,
    capabilities: DeviceCapabilities)

  datatype RawSnapshot = RawSnapshot(
    snapshotId: int,
    capturedAt: string,
    packageName: Option<string>,
    activityName: Option<string>)

  // The fields of the public and the compiled screen that the runtime compares.
  datatype PublicView = PublicView(
    screenId: string,
    packageName: Option<string>,
    activityName: Option<string>,
    refs: set<string>)

  datatype CompiledView = CompiledView(
    screenId: string,
    sequence: int,
    sourceSnapshotId: int,
    capturedAt: string,
    packageName: Option<string>,
    activityName: Option<string>)

  datatype ScreenArtifacts = ScreenArtifacts(
    screenJson: Option<string>,
    screenXml: Option<string>,
    screenshotPng: Option<string>)

  datatype ScreenState = ScreenState(
    publicScreen: Option<PublicView>,
    compiledScreen: Option<CompiledView>,
    artifacts: Option<ScreenArtifacts>)

  datatype Lease = Lease(revision: nat)
  {
    predicate IsCurrent(s: RuntimeState) {
      revision == s.lifecycleRevision
    }
  }

  // The value of a runtime, together with the connector handles that have been closed.
  datatype RuntimeState = RuntimeState(
    status: RuntimeStatus,
    screenSequence: int,
    currentScreenId: Option<string>,
    connection: Option<ConnectionSpec>,
    deviceToken: Option<string>,
    capabilities: Option<DeviceCapabilities>,
    transport: Option<Transport>,
    latestSnapshot: Option<RawSnapshot>,
    previousSnapshot: Option<RawSnapshot>,
    screenState: Option<ScreenState>,
    refRegistry: Bindings,
    lifecycleRevision: nat,
    closed: set<nat>)

  datatype PersistedRuntime = PersistedRuntime(status: RuntimeStatus, screenSequence: int)

  function StatusForPersisted(status: RuntimeStatus): RuntimeStatus {
    if status == Ready then Broken else status
  }

  function PersistedOf(s: RuntimeState): PersistedRuntime {
    PersistedRuntime(StatusForPersisted(s.status), s.screenSequence)
  }

  // A runtime as the daemon first sees it: new, or reloaded from its state file.
  function Loaded(persisted: Option<PersistedRuntime>): RuntimeState {
    RuntimeState(
      if persisted.Some? then persisted.value.status else New,
      if persisted.Some? then persisted.value.screenSequence else 0,
      None, None, None, None, None, None, None, None, map[], 0, {})
  }

  class WorkspaceRuntime {
    var status: RuntimeStatus
    var screenSequence: int
    var currentScreenId: Option<string>
    var connection: Option<ConnectionSpec>
    var deviceToken: Option<string>
    var capabilities: Option<DeviceCapabilities>
    var transport: Option<Transport>
    var latestSnapshot: Option<RawSnapshot>
    var previousSnapshot: Option<RawSnapshot>
    var screenState: Option<ScreenState>
    var refRegistry: Bindings
    var lifecycleRevision: nat
    ghost var closed: set<nat>

    ghost function State(): RuntimeState
      reads this
    {
      RuntimeState(status, screenSequence, currentScreenId, connection, deviceToken, capabilities,
                   transport, latestSnapshot, previousSnapshot, screenState, refRegistry,
                   lifecycleRevision, closed)
    }

    constructor (persisted: Option<PersistedRuntime>)
      ensures State() == Loaded(persisted)
    {
      status := if persisted.Some? then persisted.value.status else New;
      screenSequence := if persisted.Some? then persisted.value.screenSequence else 0;
      currentScreenId, connection, deviceToken, capabilities := None, None, None, None;
      transport, latestSnapshot, previousSnapshot, screenState := None, None, None, None;
      refRegistry, lifecycleRevision, closed := map[], 0, {};
    }
  }

  class RuntimeStore {
    var persisted: Option<PersistedRuntime>

    constructor ()
      ensures persisted == None
    {
      persisted := None;
    }

    // Writing the state file replaces it or, when `fails`, leaves it as it was.
    method PersistRuntime(runtime: WorkspaceRuntime, fails: bool) returns (ok: bool)
      modifies this
      ensures ok == !fails
      ensures persisted == if fails then old(persisted) else Some(PersistedOf(runtime.State()))
    {
      ok := !fails;
      if ok {
        persisted := Some(PersistedRuntime(StatusForPersisted(runtime.status), runtime.screenSequence));
      }
    }
  }

  // ---------- The authoritative basis ----------

  datatype Basis = Basis(
    screenId: string,
    screenSequence: int,
    snapshot: RawSnapshot,
    publicScreen: PublicView,
    compiledScreen: CompiledView,
    artifacts: Option<ScreenArtifacts>)

  function GetBasis(s: RuntimeState): Option<Basis> {
    if s.status != Ready then None
    else if s.currentScreenId == None || s.currentScreenId.value == "" then None
    else if s.latestSnapshot == None || s.screenState == None then None
    else
      var id, latest, screens := s.currentScreenId.value, s.latestSnapshot.value, s.screenState.value;
      if screens.publicScreen == None || screens.compiledScreen == None then None
      else
        var pub, compiled := screens.publicScreen.value, screens.compiledScreen.value;
        if pub.screenId != id || compiled.screenId != id then None
        else if compiled.sourceSnapshotId != latest.snapshotId then None
        else if compiled.sequence != s.screenSequence then None
        else if compiled.capturedAt != latest.capturedAt then None
        else if compiled.packageName != latest.packageName then None
        else if compiled.activityName != latest.activityName then None
        else if pub.packageName != latest.packageName then None
        else if pub.activityName != latest.activityName then None
        else Some(Basis(id, s.screenSequence, latest, pub, compiled, screens.artifacts))
  }

  predicate HasLivePublicScreen(s: RuntimeState) {
    s.transport.Some? && s.connection.Some? && s.deviceToken.Some? && GetBasis(s).Some?
  }
}
