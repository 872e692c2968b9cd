// Committing a screen refresh: the runtime's seven screen fields, the staged artifact files and
// the state file change together or not at all.
module ScreenRefresh {
  import opened Common
  import opened RefModels
  import opened RefReconcile
  import opened RefStability
  import opened StagedArtifacts
  import opened Runtime
  import opened Kernel
  import opened KernelRuns
  import opened RuntimePhases

  // One fault at most: in the guard callback, in some update's commit, or in persisting.
  datatype RefreshFault = NoRefreshFault | InPreCommit | InStaging(fault: Fault) | InPersist

  datatype RestoreState = RestoreState(
    screenSequence: int,
    currentScreenId: Option<string>,
    status: RuntimeStatus,
    latestSnapshot: Option<RawSnapshot>,
    previousSnapshot: Option<RawSnapshot>,
    screenState: Option<ScreenState>,
    refRegistry: Bindings)

  method CaptureRestoreState(runtime: WorkspaceRuntime) returns (r: RestoreState)
    ensures Restored(runtime.State(), r) == runtime.State()
    ensures r.latestSnapshot == runtime.latestSnapshot
  {
    r := RestoreState(runtime.screenSequence, runtime.currentScreenId, runtime.status, runtime.latestSnapshot,
                      runtime.previousSnapshot, runtime.screenState, runtime.refRegistry);
  }

  function Restored(s: RuntimeState, r: RestoreState): RuntimeState {
    s.(screenSequence := r.screenSequence, currentScreenId := r.currentScreenId, status := r.status,
       latestSnapshot := r.latestSnapshot, previousSnapshot := r.previousSnapshot,
       screenState := r.screenState, refRegistry := r.refRegistry)
  }

  method RestoreScreen(runtime: WorkspaceRuntime, r: RestoreState)
    modifies runtime
    ensures runtime.State() == Restored(old(runtime.State()), r)
  {
    runtime.screenSequence := r.screenSequence;
    runtime.currentScreenId := r.currentScreenId;
    runtime.status := r.status;
    runtime.latestSnapshot := r.latestSnapshot;
    runtime.previousSnapshot := r.previousSnapshot;
    runtime.screenState := r.screenState;
    runtime.refRegistry := r.refRegistry;
  }

  method InstallScreen(runtime: WorkspaceRuntime, update: ScreenUpdate, previousSnapshot: Option<RawSnapshot>)
    requires previousSnapshot == runtime.latestSnapshot
    modifies runtime
    ensures runtime.State() == Refreshed(old(runtime.State()), update)
  {
    runtime.previousSnapshot := previousSnapshot;
    runtime.latestSnapshot := Some(update.snapshot);
    runtime.screenSequence := update.sequence;
    runtime.currentScreenId := Some(update.publicScreen.screenId);
    runtime.status := Ready;
    runtime.screenState :=
      Some(ScreenState(Some(update.publicScreen), Some(update.compiledScreen), Some(update.artifacts)));
    runtime.refRegistry := update.refRegistry;
  }

  method InstallAndPersist(store: RuntimeStore, runtime: WorkspaceRuntime, update: ScreenUpdate,
      restore: RestoreState, fails: bool)
    returns (ok: bool)
    requires restore.latestSnapshot == runtime.latestSnapshot && Restored(runtime.State(), restore) == runtime.State()
    modifies runtime, store
    ensures ok == !fails
    ensures runtime.State() == Refreshed(old(runtime.State()), update)
    ensures Restored(runtime.State(), restore) == old(runtime.State())
    ensures Persists(store, old(store.persisted), runtime.State(), fails)
  {
    InstallScreen(runtime, update, restore.latestSnapshot);
    ok := store.PersistRuntime(runtime, fails);
  }

  function StagingFault(fault: RefreshFault): Fault {
    if fault.InStaging? then fault.fault else NoFaultAt
  }

  // Update i had been put in place when the refresh failed.
  predicate HadBeenPut(us: seq<UpdatePaths>, origin: Files, fault: RefreshFault, i: nat) {
    fault != InPreCommit && PutInPlace(us, origin, StagingFault(fault), i)
  }

  // Nothing that had been put in place destroyed an original for good.
  predicate NothingLost(us: seq<UpdatePaths>, origin: Files, fault: RefreshFault) {
    forall i :: 0 <= i < |us| && HadBeenPut(us, origin, fault, i) ==> Recoverable(us[i], origin)
  }

  // So a refresh whose files the writer staged never loses one.
  lemma WriterLosesNothing(root: Path, stem: string, token: string, origin: Files, fault: RefreshFault)
    requires forall u :: u in StagedScreen(root, stem, token) ==> u.BackupUnused(origin)
    ensures WellPlanned(StagedScreen(root, stem, token), origin)
    ensures NothingLost(StagedScreen(root, stem, token), origin, fault)
  {
    WriterPlansWell(root, stem, token, origin);
  }

  // Undo what staging did to the files, then remove the temporaries.
  method AbandonStaged(fs: FileSystem, staged: StagedArtifactWrite, ghost fault: RefreshFault)
    requires staged.Valid(fs)
    requires forall i :: 0 <= i < |staged.marks| ==>
      staged.marks[i] == if HadBeenPut(staged.Paths(), staged.origin, fault, i) then InPlace else Pending
    modifies staged, staged.updates, fs
    ensures RestoredFiles(staged.Paths(), staged.origin, fs.files)
       <==> NothingLost(staged.Paths(), staged.origin, fault)
  {
    staged.Rollback(fs);
    staged.Discard(fs);
    RestoredExactlyWhenRecoverable(staged.Paths(), staged.marks, staged.origin, fs.files);
  }

  method UndoRefresh(runtime: WorkspaceRuntime, restore: RestoreState, fs: FileSystem, staged: StagedArtifactWrite,
                     ghost fault: RefreshFault)
    requires staged.Valid(fs)
    requires forall i :: 0 <= i < |staged.marks| ==>
      staged.marks[i] == if HadBeenPut(staged.Paths(), staged.origin, fault, i) then InPlace else Pending
    modifies runtime, staged, staged.updates, fs
    ensures runtime.State() == Restored(old(runtime.State()), restore)
    ensures RestoredFiles(staged.Paths(), staged.origin, fs.files)
       <==> NothingLost(staged.Paths(), staged.origin, fault)
  {
    RestoreScreen(runtime, restore);
    AbandonStaged(fs, staged, fault);
  }

  method PublishStaged(fs: FileSystem, staged: StagedArtifactWrite)
    requires staged.Valid(fs) && AllMarked(staged.marks, InPlace) && AllStaged(staged.Paths(), staged.origin)
    modifies staged, fs
    ensures PublishedFiles(staged.Paths(), staged.origin, fs.files)
  {
    staged.Discard(fs);
    PublishedMeaning(staged.Paths(), staged.marks, staged.origin, fs.files);
  }

  method CommitScreenRefresh(store: RuntimeStore, runtime: WorkspaceRuntime, fs: FileSystem,
                             staged: StagedArtifactWrite, update: ScreenUpdate, fault: RefreshFault)
    returns (committed: bool)
    requires staged.Valid(fs) && AllMarked(staged.marks, Pending)
    modifies runtime, store, fs, staged, staged.updates
    ensures committed <==>
      fault !in {InPreCommit, InPersist} && CommitSucceeds(staged.Paths(), staged.origin, StagingFault(fault))
    ensures runtime.State() == if committed then Refreshed(old(runtime.State()), update) else old(runtime.State())
    ensures Persists(store, old(store.persisted), runtime.State(), !committed)
    ensures committed && Consistent(update) && update.publicScreen.screenId != "" ==>
      GetBasis(runtime.State()).Some? && KernelRuns.Shows(GetBasis(runtime.State()).value, update)
    ensures committed ==> PublishedFiles(staged.Paths(), staged.origin, fs.files)
    ensures !committed ==>
      (RestoredFiles(staged.Paths(), staged.origin, fs.files)
       <==> NothingLost(staged.Paths(), staged.origin, fault))
  {
    if fault == InPreCommit {
      AbandonUncommitted(fs, staged);
      return false;
    }
    var restore := CaptureRestoreState(runtime);
    var ok := staged.Commit(fs, StagingFault(fault));
    if ok {
      ok := InstallAndPersist(store, runtime, update, restore, fault == InPersist);
    }
    if !ok {
      UndoRefresh(runtime, restore, fs, staged, fault);
      return false;
    }
    PublishStaged(fs, staged);
    CommittedIsAuthoritative(old(runtime.State()), update);
    return true;
  }

  lemma CommittedIsAuthoritative(s: RuntimeState, update: ScreenUpdate)
    ensures Consistent(update) && update.publicScreen.screenId != "" ==>
      GetBasis(Refreshed(s, update)).Some? && KernelRuns.Shows(GetBasis(Refreshed(s, update)).value, update)
  {
    if Consistent(update) && update.publicScreen.screenId != "" {
      RefreshIsAuthoritative(s, update);
    }
  }

  method AbandonUncommitted(fs: FileSystem, staged: StagedArtifactWrite)
    requires staged.Valid(fs) && AllMarked(staged.marks, Pending)
    modifies staged, fs
    ensures RestoredFiles(staged.Paths(), staged.origin, fs.files)
  {
    staged.Discard(fs);
    RestoredExactlyWhenRecoverable(staged.Paths(), staged.marks, staged.origin, fs.files);
  }

  // A registry reconciled for a snapshot is one a consistent refresh with that snapshot may install.
  lemma ReconciledRegistryIsBound(key: TextKey, snapshotId: int, nodes: seq<NodeFacts>, order: seq<RefBinding>)
    requires DistinctRefs(order)
    ensures BoundTo(Reconciled(key, snapshotId, nodes, order).bindings, snapshotId)
  {
    ReconcileIsBijection(key, snapshotId, nodes, order);
    var p := Reconciled(key, snapshotId, nodes, order);
    forall r | r in p.bindings ensures p.bindings[r].handle.snapshotId == snapshotId {
      var i :| 0 <= i < |nodes| && p.refs[i] == r;
      assert Names(key, snapshotId, p.bindings, p.refs[i], nodes[i]);
    }
  }
}
