// Staged artifact files: each update moves a staged file over its final path, keeping the
// original aside so that the whole set can be rolled back.
module StagedArtifacts {
  import opened Common

  type Path = string
  type Content = string
  type Files = map<Path, Content>

  // A file system whose renames are atomic.
  class FileSystem {
    var files: Files

    constructor (files: Files)
      ensures this.files == files
    {
      this.files := files;
    }

    // `fails` is an injected fault; a missing source fails too.
    method Replace(from: Path, to: Path, fails: bool) returns (ok: bool)
      modifies this
      ensures ok == (!fails && from in old(files))
      ensures files == if ok then Moved(old(files), from, to) else old(files)
    {
      ok := !fails && from in files;
      if ok {
        files := Moved(files, from, to);
      }
    }

    method Unlink(path: Path)
      modifies this
      ensures files == old(files) - {path}
    {
      files := files - {path};
    }
  }

  function Moved(files: Files, from: Path, to: Path): Files
    requires from in files
  {
    (files - {from})[to := files[from]]
  }

  datatype UpdatePaths = UpdatePaths(staged: Path, final: Path, backup: Option<Path>)
  {
    function Temporary(): set<Path> {
      {staged} + (if backup.Some? then {backup.value} else {})
    }

    function All(): set<Path> {
      Temporary() + {final}
    }

    predicate Distinct() {
      staged != final && (backup.Some? ==> backup.value != final && backup.value != staged)
    }

    predicate BackupUnused(files: Files) {
      backup.Some? ==> backup.value !in files
    }
  }

  // Where a fault is injected into the commit of one update.
  datatype UpdateFault = NoFault | InMakeDirectory | InBackup | InRename

  // ---------- One update ----------

  datatype UpdateState = UpdateState(files: Files, backedUp: bool, replaced: bool)

  predicate Fires(paths: UpdatePaths, files: Files, fault: UpdateFault) {
    || fault == InMakeDirectory
    || (fault == InBackup && paths.backup.Some?)
    || fault == InRename
    || paths.staged !in files
  }

  predicate KeepsOriginal(paths: UpdatePaths, files: Files) {
    paths.backup.Some? && paths.final in files
  }

  // The files once the update is in place, its original kept aside.
  function Installed(paths: UpdatePaths, files: Files): Files
    requires paths.Distinct() && paths.staged in files
  {
    var aside := if KeepsOriginal(paths, files) then Moved(files, paths.final, paths.backup.value) else files;
    Moved(aside, paths.staged, paths.final)
  }

  class StagedFileUpdate {
    const paths: UpdatePaths
    var originalBackedUp: bool
    var finalReplaced: bool

    constructor (paths: UpdatePaths)
      ensures this.paths == paths && !originalBackedUp && !finalReplaced
    {
      this.paths := paths;
      originalBackedUp, finalReplaced := false, false;
    }

    method Commit(fs: FileSystem, fault: UpdateFault) returns (ok: bool)
      requires paths.Distinct() && !originalBackedUp && !finalReplaced
      modifies this, fs
      ensures ok == !Fires(paths, old(fs.files), fault)
      ensures finalReplaced == ok
      ensures ok ==> originalBackedUp == KeepsOriginal(paths, old(fs.files))
      ensures ok ==> fs.files == Installed(paths, old(fs.files))
      ensures !ok ==> !originalBackedUp
      ensures !ok && paths.BackupUnused(old(fs.files)) ==> fs.files == old(fs.files)
    {
      if fault == InMakeDirectory {
        return false;
      }
      if paths.backup.Some? {
        if fault == InBackup {
          return false;
        }
        var moved := fs.Replace(paths.final, paths.backup.value, false);
        if moved {
          originalBackedUp := true;
        }
      }
      ok := fs.Replace(paths.staged, paths.final, fault == InRename);
      if !ok {
        if originalBackedUp && paths.backup.Some? {
          var restored := fs.Replace(paths.backup.value, paths.final, false);
          originalBackedUp := false;
        }
        return false;
      }
      finalReplaced := true;
    }

    method Rollback(fs: FileSystem)
      requires originalBackedUp ==> paths.backup.Some? && paths.backup.value in fs.files
      requires paths.Distinct()
      modifies this, fs
      ensures !finalReplaced
      ensures originalBackedUp == (old(originalBackedUp) && !old(finalReplaced))
      ensures fs.files == RolledBack(paths, UpdateState(old(fs.files), old(originalBackedUp), old(finalReplaced)))
    {
      if !finalReplaced {
        return;
      }
      if originalBackedUp && paths.backup.Some? {
        fs.Unlink(paths.final);
        var restored := fs.Replace(paths.backup.value, paths.final, false);
        originalBackedUp := false;
        finalReplaced := false;
        return;
      }
      fs.Unlink(paths.final);
      finalReplaced := false;
    }

    method Discard(fs: FileSystem)
      modifies fs
      ensures fs.files == old(fs.files) - paths.Temporary()
    {
      fs.Unlink(paths.staged);
      if paths.backup.Some? {
        fs.Unlink(paths.backup.value);
      }
    }
  }

  function RolledBack(paths: UpdatePaths, u: UpdateState): Files
    requires u.backedUp ==> paths.backup.Some? && paths.backup.value in u.files && paths.Distinct()
  {
    if !u.replaced then u.files
    else if u.backedUp then Moved(u.files - {paths.final}, paths.backup.value, paths.final)
    else u.files - {paths.final}
  }

  // ---------- A set of updates ----------

  function At(files: Files, p: Path): Option<Content> {
    if p in files then Some(files[p]) else None
  }

  ghost predicate SameOutside(paths: set<Path>, before: Files, after: Files) {
    forall p :: p !in paths ==> At(after, p) == At(before, p)
  }

  // What has happened to one update since the set was staged.
  datatype Mark =
    | Pending     // nothing
    | InPlace     // committed
    | TakenBack   // committed, then rolled back
    | Dropped     // discarded without having been committed
    | Published   // committed, then discarded

  // Without a backup path an original that existed cannot be brought back.
  predicate Recoverable(u: UpdatePaths, origin: Files) {
    u.backup.Some? || u.final !in origin
  }

  // The final path of an update, for each mark.
  function FinalContent(mark: Mark, u: UpdatePaths, origin: Files): Option<Content> {
    match mark
    case InPlace => At(origin, u.staged)
    case Published => At(origin, u.staged)
    case TakenBack => if Recoverable(u, origin) then At(origin, u.final) else None
    case _ => At(origin, u.final)
  }

  function StagedContent(mark: Mark, u: UpdatePaths, origin: Files): Option<Content> {
    if mark == Pending then At(origin, u.staged) else None
  }

  function BackupContent(mark: Mark, u: UpdatePaths, origin: Files): Option<Content> {
    if mark == InPlace then At(origin, u.final) else None
  }

  predicate Holds(mark: Mark, u: UpdatePaths, origin: Files, files: Files) {
    && At(files, u.final) == FinalContent(mark, u, origin)
    && At(files, u.staged) == StagedContent(mark, u, origin)
    && (u.backup.Some? ==> At(files, u.backup.value) == BackupContent(mark, u, origin))
    && (mark == InPlace ==> u.staged in origin)
  }

  // What the builder of the set guarantees: no two updates share a path, no path serves twice, and
  // the backup paths are new.
  predicate WellPlanned(us: seq<UpdatePaths>, origin: Files) {
    && (forall i :: 0 <= i < |us| ==> us[i].Distinct() && us[i].BackupUnused(origin))
    && (forall i, j :: 0 <= i < j < |us| ==> us[i].All() !! us[j].All())
  }

  function AllPaths(us: seq<UpdatePaths>): set<Path> {
    set i, p | 0 <= i < |us| && p in us[i].All() :: p
  }

  ghost predicate Marked(us: seq<UpdatePaths>, marks: seq<Mark>, origin: Files, files: Files) {
    && |marks| == |us|
    && (forall i :: 0 <= i < |us| ==> Holds(marks[i], us[i], origin, files))
    && SameOutside(AllPaths(us), origin, files)
  }

  lemma StartMarked(us: seq<UpdatePaths>, origin: Files)
    requires WellPlanned(us, origin)
    ensures Marked(us, seq(|us|, i => Pending), origin, origin)
  {
  }

  // Work on update k alone moves only its own mark.
  lemma Remark(us: seq<UpdatePaths>, marks: seq<Mark>, origin: Files, before: Files, after: Files, k: nat, mark: Mark)
    requires WellPlanned(us, origin) && Marked(us, marks, origin, before) && k < |us|
    requires SameOutside(us[k].All(), before, after) && Holds(mark, us[k], origin, after)
    ensures Marked(us, marks[k := mark], origin, after)
  {
    forall i | 0 <= i < |us| && i != k ensures Holds(marks[i], us[i], origin, after) {
      assert us[i].All() !! us[k].All();
      assert us[i].final in us[i].All() && us[i].staged in us[i].All();
      assert us[i].backup.Some? ==> us[i].backup.value in us[i].All();
    }
    assert forall p :: p in us[k].All() ==> p in AllPaths(us);
  }

  // ---------- The writer's sets ----------

  // The update that the writer stages for a file; the token is drawn anew for each set.
  function StagedFor(final: Path, token: string): UpdatePaths {
    UpdatePaths(final + (".tmp-" + token), final, Some(final + (".bak-" + token)))
  }

  // The two files of a screen, in two folders below the artifact root.
  function StagedScreen(root: Path, stem: string, token: string): seq<UpdatePaths> {
    [StagedFor(root + ("/screens/" + stem + ".json"), token),
     StagedFor(root + ("/artifacts/screens/" + stem + ".xml"), token)]
  }

  lemma StagedForIsDistinct(final: Path, token: string)
    ensures StagedFor(final, token).Distinct()
  {
    var u := StagedFor(final, token);
    assert |u.staged| > |final| && |u.backup.value| > |final|;
    assert u.staged[|final| + 1] == 't' && u.backup.value[|final| + 1] == 'b';
  }

  lemma StagedForKeepsFolder(root: Path, rest: string, token: string, p: Path)
    requires |rest| > 1
    ensures p in StagedFor(root + rest, token).All() ==> |p| > |root| + 1 && p[|root| + 1] == rest[1]
  {
  }

  lemma FoldersDiffer(root: Path, a: string, b: string, token: string)
    requires |a| > 1 && |b| > 1 && a[1] != b[1]
    ensures StagedFor(root + a, token).All() !! StagedFor(root + b, token).All()
  {
    forall p | p in StagedFor(root + a, token).All() ensures p !in StagedFor(root + b, token).All() {
      StagedForKeepsFolder(root, a, token, p);
      StagedForKeepsFolder(root, b, token, p);
    }
  }

  // What the writer stages for a screen is well planned, as long as no file has the name of one of
  // the new backups, and all of it can be brought back.
  lemma WriterPlansWell(root: Path, stem: string, token: string, origin: Files)
    requires forall u :: u in StagedScreen(root, stem, token) ==> u.BackupUnused(origin)
    ensures WellPlanned(StagedScreen(root, stem, token), origin)
    ensures forall u :: u in StagedScreen(root, stem, token) ==> Recoverable(u, origin)
  {
    var json, xml := "/screens/" + stem + ".json", "/artifacts/screens/" + stem + ".xml";
    assert json[1] == 's' && xml[1] == 'a';
    StagedForIsDistinct(root + json, token);
    StagedForIsDistinct(root + xml, token);
    FoldersDiffer(root, json, xml, token);
    var us := StagedScreen(root, stem, token);
    assert us[0] in us && us[1] in us;
  }

  // ---------- The set as an object ----------

  datatype Fault = NoFaultAt | FaultAt(index: nat, fault: UpdateFault)

  predicate FlagsMatch(backedUp: bool, replaced: bool, mark: Mark, paths: UpdatePaths, origin: Files) {
    && (replaced <==> mark in {InPlace, Published})
    && (backedUp ==> replaced)
    && (mark == InPlace ==> backedUp == KeepsOriginal(paths, origin))
  }

  function FaultOf(fault: Fault, i: nat): UpdateFault {
    if fault.FaultAt? && fault.index == i then fault.fault else NoFault
  }

  // Committing the set goes through exactly when no update's commit fails.
  predicate CommitSucceeds(us: seq<UpdatePaths>, origin: Files, fault: Fault) {
    forall i :: 0 <= i < |us| ==> !Fires(us[i], origin, FaultOf(fault, i))
  }

  // The loop gets to update i, and puts it in place.
  predicate PutInPlace(us: seq<UpdatePaths>, origin: Files, fault: Fault, i: nat) {
    i < |us| && forall j :: 0 <= j <= i ==> !Fires(us[j], origin, FaultOf(fault, j))
  }

  // An injected fault stops the commit of the update it is aimed at, except that no original is
  // kept aside without a backup path.
  predicate Stops(us: seq<UpdatePaths>, fault: Fault) {
    && fault.FaultAt? && fault.index < |us| && fault.fault != NoFault
    && (fault.fault == InBackup ==> us[fault.index].backup.Some?)
  }

  // The set is committed if and only if every staged file is there and no fault stops it; what is
  // put in place are the updates before the first that cannot be.
  lemma CommitsIff(us: seq<UpdatePaths>, origin: Files, fault: Fault)
    ensures CommitSucceeds(us, origin, fault) <==>
      (forall u :: u in us ==> u.staged in origin) && !Stops(us, fault)
    ensures forall i: nat :: PutInPlace(us, origin, fault, i) <==>
      i < |us| && (forall j :: 0 <= j <= i ==> us[j].staged in origin) && !(Stops(us, fault) && fault.index <= i)
  {
    forall j | 0 <= j < |us| ensures Fires(us[j], origin, FaultOf(fault, j)) <==> IsStopped(us, origin, fault, j) {
    }
    assert (forall u :: u in us ==> u.staged in origin) <==> forall j :: 0 <= j < |us| ==> us[j].staged in origin;
    if Stops(us, fault) {
      assert IsStopped(us, origin, fault, fault.index);
    }
    if j: nat :| j < |us| && us[j].staged !in origin {
      assert IsStopped(us, origin, fault, j);
    }
    forall i: nat ensures PutInPlace(us, origin, fault, i) <==>
      i < |us| && (forall j :: 0 <= j <= i ==> us[j].staged in origin) && !(Stops(us, fault) && fault.index <= i)
    {
      PutIff(us, origin, fault, i);
    }
  }

  predicate IsStopped(us: seq<UpdatePaths>, origin: Files, fault: Fault, j: nat) {
    j < |us| && (us[j].staged !in origin || (Stops(us, fault) && fault.index == j))
  }

  lemma PutIff(us: seq<UpdatePaths>, origin: Files, fault: Fault, i: nat)
    ensures PutInPlace(us, origin, fault, i) <==>
      i < |us| && (forall j :: 0 <= j <= i ==> us[j].staged in origin) && !(Stops(us, fault) && fault.index <= i)
  {
    if i < |us| {
      forall j | 0 <= j <= i ensures Fires(us[j], origin, FaultOf(fault, j)) <==> IsStopped(us, origin, fault, j) {
      }
      if Stops(us, fault) && fault.index <= i {
        assert IsStopped(us, origin, fault, fault.index);
      }
      if j: nat :| j <= i && us[j].staged !in origin {
        assert IsStopped(us, origin, fault, j);
      }
    }
  }

  class StagedArtifactWrite {
    const updates: seq<StagedFileUpdate>
    ghost const origin: Files
    ghost var marks: seq<Mark>

    ghost function Paths(): (r: seq<UpdatePaths>)
      ensures |r| == |updates| && forall i :: 0 <= i < |updates| ==> r[i] == updates[i].paths
    {
      seq(|updates|, i requires 0 <= i < |updates| => updates[i].paths)
    }

    ghost predicate Valid(fs: FileSystem)
      reads this, updates, fs
    {
      && WellPlanned(Paths(), origin)
      && Marked(Paths(), marks, origin, fs.files)
      && (forall i, j :: 0 <= i < j < |updates| ==> updates[i] != updates[j])
      && (forall i :: 0 <= i < |updates| ==>
            FlagsMatch(updates[i].originalBackedUp, updates[i].finalReplaced, marks[i], updates[i].paths, origin))
    }

    // A set freshly staged in `fs`.
    constructor (updates: seq<StagedFileUpdate>, fs: FileSystem)
      requires forall i :: 0 <= i < |updates| ==> !updates[i].finalReplaced && !updates[i].originalBackedUp
      requires forall i, j :: 0 <= i < j < |updates| ==> updates[i] != updates[j]
      requires WellPlanned(seq(|updates|, i requires 0 <= i < |updates| => updates[i].paths), fs.files)
      ensures this.updates == updates && origin == fs.files && Valid(fs)
      ensures AllMarked(marks, Pending)
    {
      this.updates := updates;
      origin := fs.files;
      marks := seq(|updates|, i => Pending);
      new;
      assert Paths() == seq(|updates|, i requires 0 <= i < |updates| => updates[i].paths);
      StartMarked(Paths(), origin);
    }

    method Commit(fs: FileSystem, fault: Fault) returns (ok: bool)
      requires Valid(fs) && AllMarked(marks, Pending)
      modifies this, updates, fs
      ensures Valid(fs)
      ensures ok == CommitSucceeds(Paths(), origin, fault)
      ensures ok ==> AllMarked(marks, InPlace)
      ensures forall i :: 0 <= i < |marks| ==>
        marks[i] == if PutInPlace(Paths(), origin, fault, i) then InPlace else Pending
    {
      for i := 0 to |updates|
        invariant Valid(fs)
        invariant forall j :: 0 <= j < |marks| ==> marks[j] == if j < i then InPlace else Pending
        invariant forall j :: 0 <= j < i ==> !Fires(Paths()[j], origin, FaultOf(fault, j))
      {
        ok := CommitOne(fs, i, FaultOf(fault, i));
        if !ok {
          return false;
        }
      }
      ok := true;
    }

    method CommitOne(fs: FileSystem, i: nat, fault: UpdateFault) returns (ok: bool)
      requires Valid(fs) && i < |updates| && marks[i] == Pending
      modifies this, updates[i], fs
      ensures Valid(fs)
      ensures ok == !Fires(Paths()[i], origin, fault)
      ensures marks == if ok then old(marks)[i := InPlace] else old(marks)
    {
      ghost var before := fs.files;
      assert Holds(Pending, Paths()[i], origin, before);
      ok := updates[i].Commit(fs, fault);
      if !ok {
        assert fs.files == before;
        return;
      }
      Remark(Paths(), marks, origin, before, fs.files, i, InPlace);
      marks := marks[i := InPlace];
    }

    method Rollback(fs: FileSystem)
      requires Valid(fs)
      requires forall i :: 0 <= i < |marks| ==> marks[i] in {Pending, InPlace}
      modifies this, updates, fs
      ensures Valid(fs)
      ensures |marks| == |old(marks)|
      ensures forall i :: 0 <= i < |marks| ==> marks[i] == if old(marks[i]) == InPlace then TakenBack else Pending
    {
      var i := |updates|;
      while i > 0
        invariant 0 <= i <= |updates| && Valid(fs) && |marks| == |old(marks)|
        invariant forall j :: 0 <= j < i ==> marks[j] == old(marks[j])
        invariant forall j :: i <= j < |marks| ==> marks[j] == if old(marks[j]) == InPlace then TakenBack else Pending
      {
        i := i - 1;
        RollbackOne(fs, i);
      }
    }

    method RollbackOne(fs: FileSystem, i: nat)
      requires Valid(fs) && i < |updates| && marks[i] in {Pending, InPlace}
      modifies this, updates[i], fs
      ensures Valid(fs)
      ensures marks == old(marks)[i := if old(marks)[i] == InPlace then TakenBack else Pending]
    {
      ghost var before := fs.files;
      ghost var mark := if marks[i] == InPlace then TakenBack else Pending;
      assert Holds(marks[i], Paths()[i], origin, before);
      updates[i].Rollback(fs);
      Remark(Paths(), marks, origin, before, fs.files, i, mark);
      marks := marks[i := mark];
    }

    method Discard(fs: FileSystem)
      requires Valid(fs)
      modifies this, fs
      ensures Valid(fs)
      ensures |marks| == |old(marks)|
      ensures forall i :: 0 <= i < |marks| ==> marks[i] == Discarded(old(marks[i]))
    {
      for i := 0 to |updates|
        invariant Valid(fs) && |marks| == |old(marks)|
        invariant forall j :: 0 <= j < |marks| ==> marks[j] == if j < i then Discarded(old(marks[j])) else old(marks[j])
      {
        DiscardOne(fs, i);
      }
    }

    method DiscardOne(fs: FileSystem, i: nat)
      requires Valid(fs) && i < |updates|
      modifies this, fs
      ensures Valid(fs)
      ensures marks == old(marks)[i := Discarded(old(marks)[i])]
    {
      ghost var before := fs.files;
      assert Holds(marks[i], Paths()[i], origin, before);
      updates[i].Discard(fs);
      Remark(Paths(), marks, origin, before, fs.files, i, Discarded(marks[i]));
      marks := marks[i := Discarded(marks[i])];
    }
  }

  ghost predicate AllMarked(marks: seq<Mark>, mark: Mark) {
    forall i :: 0 <= i < |marks| ==> marks[i] == mark
  }

  function Discarded(mark: Mark): Mark {
    match mark
    case Pending => Dropped
    case InPlace => Published
    case _ => mark
  }

  // ---------- What the marks mean for the files ----------

  function Temporaries(us: seq<UpdatePaths>): set<Path> {
    set i, p | 0 <= i < |us| && p in us[i].Temporary() :: p
  }

  // The final files as staged, every temporary gone, nothing else touched.
  ghost predicate PublishedFiles(us: seq<UpdatePaths>, origin: Files, files: Files) {
    && (forall i :: 0 <= i < |us| ==> us[i].staged in origin && At(files, us[i].final) == Some(origin[us[i].staged]))
    && (forall p :: p in Temporaries(us) ==> p !in files)
    && SameOutside(AllPaths(us), origin, files)
  }

  // The files as they were, every temporary gone.
  ghost predicate RestoredFiles(us: seq<UpdatePaths>, origin: Files, files: Files) {
    files == origin - Temporaries(us)
  }

  lemma TemporariesGone(us: seq<UpdatePaths>, marks: seq<Mark>, origin: Files, files: Files)
    requires WellPlanned(us, origin) && Marked(us, marks, origin, files)
    requires forall i :: 0 <= i < |marks| ==> marks[i] in {TakenBack, Dropped, Published}
    ensures forall p :: p in Temporaries(us) ==> p !in files
  {
    forall p | p in Temporaries(us) ensures p !in files {
      var i :| 0 <= i < |us| && p in us[i].Temporary();
      assert Holds(marks[i], us[i], origin, files);
    }
  }

  lemma PublishedMeaning(us: seq<UpdatePaths>, marks: seq<Mark>, origin: Files, files: Files)
    requires WellPlanned(us, origin) && Marked(us, marks, origin, files)
    requires AllMarked(marks, Published) && AllStaged(us, origin)
    ensures PublishedFiles(us, origin, files)
  {
    TemporariesGone(us, marks, origin, files);
    forall i | 0 <= i < |us| ensures At(files, us[i].final) == At(origin, us[i].staged) {
      assert Holds(marks[i], us[i], origin, files);
    }
  }

  predicate AllStaged(us: seq<UpdatePaths>, files: Files) {
    forall i :: 0 <= i < |us| ==> us[i].staged in files
  }

  lemma FinalIsNotTemporary(us: seq<UpdatePaths>, origin: Files, i: nat)
    requires WellPlanned(us, origin) && i < |us|
    ensures us[i].final !in Temporaries(us)
  {
    forall j | 0 <= j < |us| ensures us[i].final !in us[j].Temporary() {
    }
  }

  // Undoing everything restores the files exactly when every committed update was recoverable:
  // it had a backup path, or there was no original to lose.
  lemma RestoredExactlyWhenRecoverable(us: seq<UpdatePaths>, marks: seq<Mark>, origin: Files, files: Files)
    requires WellPlanned(us, origin) && Marked(us, marks, origin, files)
    requires forall i :: 0 <= i < |marks| ==> marks[i] in {TakenBack, Dropped}
    ensures RestoredFiles(us, origin, files) <==>
      forall i :: 0 <= i < |us| && marks[i] == TakenBack ==> Recoverable(us[i], origin)
  {
    TemporariesGone(us, marks, origin, files);
    var restored := origin - Temporaries(us);
    if RestoredFiles(us, origin, files) {
      forall i | 0 <= i < |us| && marks[i] == TakenBack ensures Recoverable(us[i], origin) {
        FinalIsNotTemporary(us, origin, i);
        assert Holds(marks[i], us[i], origin, files);
        assert At(files, us[i].final) == At(origin, us[i].final);
      }
    }
    if forall i :: 0 <= i < |us| && marks[i] == TakenBack ==> Recoverable(us[i], origin) {
      forall p ensures At(files, p) == At(restored, p) {
        if p !in Temporaries(us) && p in AllPaths(us) {
          var i :| 0 <= i < |us| && p in us[i].All();
          assert p == us[i].final;
          assert Holds(marks[i], us[i], origin, files);
        } else if p in Temporaries(us) {
        } else {
          assert At(files, p) == At(origin, p);
        }
      }
      SameLookups(files, restored);
    }
  }

  // It matters: an update without a backup path, taken back, has destroyed the original.
  lemma RollbackCanLoseTheOriginal()
    ensures exists paths: UpdatePaths, origin: Files ::
      && paths.Distinct() && paths.staged in origin && paths.backup.None?
      && !RestoredFiles([paths], origin,
                        RolledBack(paths, UpdateState(Installed(paths, origin), false, true)) - paths.Temporary())
  {
    var paths := UpdatePaths("staged", "final", None);
    var origin: Files := map["staged" := "new", "final" := "old"];
    var files := RolledBack(paths, UpdateState(Installed(paths, origin), false, true)) - paths.Temporary();
    assert [paths][0] == paths;
    assert Temporaries([paths]) == {"staged"};
    assert "final" !in files && "final" in origin - {"staged"};
  }

  lemma SameLookups(a: Files, b: Files)
    requires forall p :: At(a, p) == At(b, p)
    ensures a == b
  {
    forall p ensures p in a <==> p in b {
      assert At(a, p) == At(b, p);
    }
    forall p | p in a ensures a[p] == b[p] {
      assert At(a, p) == At(b, p);
    }
  }
}
