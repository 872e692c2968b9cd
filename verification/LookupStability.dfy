// Damage to artifacts may hide what a lookup finds, but when does it never turn to another payload?
module LookupStability {
  import opened Common
  import opened Ordering
  import opened ScreenLookup

  // b is what scanning yields when a's file can no longer be read as an artifact.
  predicate IsDamaged(a: Scan, b: Scan) {
    && b.path == a.path && b.status != Valid
    && b.screenId.None? && b.payload.None? && b.sequence == NameSequence(a.path)
  }

  predicate Damages(scans: seq<Scan>, damaged: seq<Scan>) {
    && |damaged| == |scans|
    && forall i :: 0 <= i < |scans| ==> damaged[i] == scans[i] || IsDamaged(scans[i], damaged[i])
  }

  // Files whose content is lost in any way that leaves no object to read.
  predicate FilesDamaged(files: map<Path, Content>, after: map<Path, Content>) {
    && after.Keys == files.Keys
    && forall p :: p in files ==> after[p] == files[p] || after[p] in {Unreadable, NotJson, NotAnObject}
  }

  lemma {:induction false} DamagedFilesScanAsDamaged(
    candidates: seq<Path>, files: map<Path, Content>, after: map<Path, Content>)
    requires FilesDamaged(files, after)
    ensures Damages(Scans(candidates, files), Scans(candidates, after))
  {
    if candidates != [] {
      DamagedFilesScanAsDamaged(candidates[..|candidates| - 1], files, after);
    }
  }

  // Artifact j keeps artifact i from being found, however badly j is damaged.
  predicate Shields(scans: seq<Scan>, id: string, j: nat, i: nat)
    requires i < |scans| && j < |scans|
  {
    var a, sequence := scans[j], scans[i].sequence;
    && !Below(NameSequence(a.path), sequence)
    && ((Matches(a, id) && j != i && Outranks(scans, j, i))
        || (OfUnknownScreen(a, id) && !Below(a.sequence, sequence)))
  }

  predicate Shielded(scans: seq<Scan>, id: string, i: nat)
    requires i < |scans|
  {
    exists j :: 0 <= j < |scans| && Shields(scans, id, j, i)
  }

  // Artifact i could be found if nothing stood in its way, but it is not.
  predicate PassedOver(scans: seq<Scan>, id: string, i: nat) {
    i < |scans| && Matches(scans[i], id) && scans[i].status == Valid && !Finds(scans, id, i)
  }

  predicate WellScanned(scans: seq<Scan>) {
    && (forall i :: 0 <= i < |scans| ==> Scanned(scans[i]))
    && (forall i, j :: 0 <= i < j < |scans| ==> scans[i].path != scans[j].path)
  }

  lemma OutranksInBoth(scans: seq<Scan>, damaged: seq<Scan>, i: nat, j: nat)
    requires i < |scans| == |damaged| && j < |scans|
    requires damaged[i] == scans[i] && damaged[j] == scans[j]
    ensures Outranks(damaged, i, j) <==> Outranks(scans, i, j)
  {
  }

  // A shielded artifact is not found after any damage.
  lemma ShieldHolds(scans: seq<Scan>, id: string, damaged: seq<Scan>, i: nat)
    requires Damages(scans, damaged) && i < |scans| && Shielded(scans, id, i)
    ensures !Finds(damaged, id, i)
  {
    var j :| 0 <= j < |scans| && Shields(scans, id, j, i);
    if damaged[i] == scans[i] {
      if damaged[j] == scans[j] && Matches(scans[j], id) {
        OutranksInBoth(scans, damaged, j, i);
        OutranksOther(damaged, i, j);
      } else {
        assert OfUnknownScreen(damaged[j], id);
      }
    }
  }

  function Lost(a: Scan): Scan {
    ScanScreenArtifact(a.path, Unreadable)
  }

  // Whatever stands in the way of artifact i is lost.
  function Cleared(scans: seq<Scan>, id: string, i: nat): (r: seq<Scan>)
    requires i < |scans|
    ensures |r| == |scans|
  {
    seq(|scans|, j requires 0 <= j < |scans| => if InTheWay(scans, id, j, i) then Lost(scans[j]) else scans[j])
  }

  predicate InTheWay(scans: seq<Scan>, id: string, j: nat, i: nat)
    requires i < |scans| && j < |scans|
  {
    || (Matches(scans[j], id) && j != i && Outranks(scans, j, i))
    || (OfUnknownScreen(scans[j], id) && !Below(scans[j].sequence, scans[i].sequence))
  }

  // An artifact without a shield is found once all that stands in its way is lost.
  lemma ClearedIsFound(scans: seq<Scan>, id: string, i: nat)
    requires WellScanned(scans) && PassedOver(scans, id, i) && !Shielded(scans, id, i)
    ensures Damages(scans, Cleared(scans, id, i)) && Finds(Cleared(scans, id, i), id, i)
  {
    var cleared := Cleared(scans, id, i);
    assert cleared[i] == scans[i];
    forall j | 0 <= j < |scans| && Matches(cleared[j], id) ensures Outranks(cleared, i, j) {
      OutranksOther(scans, i, j);
      OutranksInBoth(scans, cleared, i, j);
    }
    forall j | 0 <= j < |scans| && OfUnknownScreen(cleared[j], id)
      ensures Below(cleared[j].sequence, cleared[i].sequence)
    {
      assert !Shields(scans, id, j, i);
    }
  }

  lemma SamePathSameArtifact(scans: seq<Scan>, id: string, i: nat)
    requires WellScanned(scans) && PassedOver(scans, id, i)
    ensures LookupIn(scans, id).Found? ==> LookupIn(scans, id).path != scans[i].path
  {
    FoundIff(scans, id);
    if LookupIn(scans, id).Found? {
      var k: nat :| Finds(scans, id, k);
      assert k != i;
      assert scans[k].path != scans[i].path;
    }
  }

  lemma ShieldedStaysPut(scans: seq<Scan>, id: string, damaged: seq<Scan>)
    requires WellScanned(scans) && Damages(scans, damaged) && LookupIn(damaged, id).Found?
    requires forall i: nat :: PassedOver(scans, id, i) ==> Shielded(scans, id, i)
    ensures LookupIn(damaged, id) == LookupIn(scans, id)
  {
    FoundIff(damaged, id);
    var i: nat :| Finds(damaged, id, i);
    assert damaged[i] == scans[i];
    if PassedOver(scans, id, i) {
      ShieldHolds(scans, id, damaged, i);
    }
    FoundIff(scans, id);
  }

  // The writer names a file by the sequence that it holds.
  predicate NamedBySequence(scans: seq<Scan>, id: string) {
    forall i :: 0 <= i < |scans| && (Matches(scans[i], id) || OfUnknownScreen(scans[i], id)) ==>
      scans[i].sequence == NameSequence(scans[i].path)
  }

  lemma NamedMeansShielded(scans: seq<Scan>, id: string, i: nat)
    requires WellScanned(scans) && NamedBySequence(scans, id) && PassedOver(scans, id, i)
    ensures Shielded(scans, id, i)
  {
    if Best(scans, Of(id), i) {
      var j: nat :| j < |scans| && OfUnknownScreen(scans[j], id) && !Below(scans[j].sequence, scans[i].sequence);
      assert Shields(scans, id, j, i);
    } else {
      var j: nat :| j < |scans| && Matches(scans[j], id) && !Outranks(scans, i, j);
      OutranksOther(scans, i, i);
      OutranksOther(scans, i, j);
      assert SortKey(scans[i])[0] <= SortKey(scans[j])[0];
      assert Shields(scans, id, j, i);
    }
  }

  // ---------- Files ----------

  lemma {:induction false} ScansComeFromCandidates(candidates: seq<Path>, files: map<Path, Content>)
    requires forall i, j :: 0 <= i < j < |candidates| ==> candidates[i] != candidates[j]
    ensures WellScanned(Scans(candidates, files))
    ensures forall a :: a in Scans(candidates, files) ==> a.path in candidates
  {
    if candidates != [] {
      var n := |candidates| - 1;
      ScansComeFromCandidates(candidates[..n], files);
      assert candidates[n] !in candidates[..n];
    }
  }

  // What the scanner yields for the candidates is as the results above ask.
  lemma CandidatesAreWellScanned(current: Option<Path>, listed: seq<Path>, resolve: Path -> Path,
      files: map<Path, Content>)
    ensures WellScanned(Scans(Candidates(current, listed, resolve), files))
  {
    CandidatesCoverOnce(current, listed, resolve);
    ScansComeFromCandidates(Candidates(current, listed, resolve), files);
  }

  // However the files' contents are lost, a payload that a lookup of the candidates finds is the
  // one that it finds in the intact files.
  ghost predicate FilesNeverRedirect(candidates: seq<Path>, files: map<Path, Content>, id: string) {
    forall after :: FilesDamaged(files, after) && LookupIn(Scans(candidates, after), id).Found? ==>
      LookupIn(Scans(candidates, after), id) == LookupIn(Scans(candidates, files), id)
  }

  function WithLost(files: map<Path, Content>, lost: set<Path>): (after: map<Path, Content>)
    ensures FilesDamaged(files, after)
  {
    map p | p in files :: if p in lost then Unreadable else files[p]
  }

  lemma {:induction false} LosingFilesLosesScans(candidates: seq<Path>, files: map<Path, Content>, lost: set<Path>)
    ensures var scans, after := Scans(candidates, files), Scans(candidates, WithLost(files, lost));
      && |after| == |scans|
      && forall i :: 0 <= i < |scans| ==> after[i] == if scans[i].path in lost then Lost(scans[i]) else scans[i]
  {
    if candidates != [] {
      LosingFilesLosesScans(candidates[..|candidates| - 1], files, lost);
    }
  }

  function PathsInTheWay(scans: seq<Scan>, id: string, i: nat): set<Path>
    requires i < |scans|
  {
    set j | 0 <= j < |scans| && InTheWay(scans, id, j, i) :: scans[j].path
  }

  // What stands in the way of an artifact can be cleared by losing files.
  lemma ClearedByLosingFiles(candidates: seq<Path>, files: map<Path, Content>, id: string, i: nat)
    requires WellScanned(Scans(candidates, files)) && i < |Scans(candidates, files)|
    ensures var scans := Scans(candidates, files);
      Scans(candidates, WithLost(files, PathsInTheWay(scans, id, i))) == Cleared(scans, id, i)
  {
    var scans := Scans(candidates, files);
    var lost := PathsInTheWay(scans, id, i);
    LosingFilesLosesScans(candidates, files, lost);
    forall j | 0 <= j < |scans| ensures scans[j].path in lost <==> InTheWay(scans, id, j, i) {
      if scans[j].path in lost {
        var k :| 0 <= k < |scans| && InTheWay(scans, id, k, i) && scans[k].path == scans[j].path;
        assert k == j;
      }
    }
  }

  lemma UnshieldedRedirects(candidates: seq<Path>, files: map<Path, Content>, id: string, i: nat)
    requires WellScanned(Scans(candidates, files))
    requires PassedOver(Scans(candidates, files), id, i) && !Shielded(Scans(candidates, files), id, i)
    ensures !FilesNeverRedirect(candidates, files, id)
  {
    var scans := Scans(candidates, files);
    var after := WithLost(files, PathsInTheWay(scans, id, i));
    ClearedByLosingFiles(candidates, files, id, i);
    ClearedIsFound(scans, id, i);
    FoundIff(Scans(candidates, after), id);
    SamePathSameArtifact(scans, id, i);
    assert FilesDamaged(files, after);
    assert LookupIn(Scans(candidates, after), id).path == scans[i].path;
  }

  lemma ShieldedFilesStayPut(candidates: seq<Path>, files: map<Path, Content>, id: string)
    requires WellScanned(Scans(candidates, files))
    requires forall i: nat :: PassedOver(Scans(candidates, files), id, i) ==> Shielded(Scans(candidates, files), id, i)
    ensures FilesNeverRedirect(candidates, files, id)
  {
    forall after | FilesDamaged(files, after) && LookupIn(Scans(candidates, after), id).Found?
      ensures LookupIn(Scans(candidates, after), id) == LookupIn(Scans(candidates, files), id)
    {
      DamagedFilesScanAsDamaged(candidates, files, after);
      ShieldedStaysPut(Scans(candidates, files), id, Scans(candidates, after));
    }
  }

  // Every artifact that is passed over has a shield.
  ghost predicate AllShielded(scans: seq<Scan>, id: string) {
    forall i: nat :: PassedOver(scans, id, i) ==> Shielded(scans, id, i)
  }

  // No loss of files ever makes a lookup turn to another payload if and only if every passed-over
  // artifact has a shield.
  lemma NeverRedirectsIff(current: Option<Path>, listed: seq<Path>, resolve: Path -> Path,
      files: map<Path, Content>, id: string)
    ensures var candidates := Candidates(current, listed, resolve);
      FilesNeverRedirect(candidates, files, id) <==> AllShielded(Scans(candidates, files), id)
  {
    CandidatesAreWellScanned(current, listed, resolve, files);
    ShieldedIff(Candidates(current, listed, resolve), files, id);
  }

  lemma ShieldedIff(candidates: seq<Path>, files: map<Path, Content>, id: string)
    requires WellScanned(Scans(candidates, files))
    ensures FilesNeverRedirect(candidates, files, id) <==> AllShielded(Scans(candidates, files), id)
  {
    if AllShielded(Scans(candidates, files), id) {
      ShieldedFilesStayPut(candidates, files, id);
    } else {
      var i: nat :| PassedOver(Scans(candidates, files), id, i) && !Shielded(Scans(candidates, files), id, i);
      UnshieldedRedirects(candidates, files, id, i);
    }
  }

  lemma NamedMeansAllShielded(scans: seq<Scan>, id: string)
    requires WellScanned(scans) && NamedBySequence(scans, id)
    ensures AllShielded(scans, id)
  {
    forall i: nat | PassedOver(scans, id, i) ensures Shielded(scans, id, i) {
      NamedMeansShielded(scans, id, i);
    }
  }

  // So files named by their sequence are safe: whatever is lost, what is found is what would
  // have been found.
  lemma NamedNeverRedirects(current: Option<Path>, listed: seq<Path>, resolve: Path -> Path,
      files: map<Path, Content>, id: string)
    requires NamedBySequence(Scans(Candidates(current, listed, resolve), files), id)
    ensures FilesNeverRedirect(Candidates(current, listed, resolve), files, id)
  {
    CandidatesAreWellScanned(current, listed, resolve, files);
    NamedMeansAllShielded(Scans(Candidates(current, listed, resolve), files), id);
    NeverRedirectsIff(current, listed, resolve, files, id);
  }

  // The writer names every file by the sequence that it puts into it; what does not hold an object
  // any more may have any name.
  predicate NamedByWriter(files: map<Path, Content>) {
    forall p :: p in files && files[p].Object? ==> WriterNames(p, files[p])
  }

  predicate WriterNames(p: Path, content: Content)
    requires content.Object?
  {
    var sequence := if content.payload.Some? then Some(content.payload.value.sequence) else content.sequence;
    sequence.Some? ==> sequence.value >= 0 && p.name == ArtifactStem(sequence.value) + SUFFIX
  }

  lemma WriterNamesRead(p: Path, content: Content)
    requires content.Object? ==> WriterNames(p, content)
    ensures ScanScreenArtifact(p, content).sequence == NameSequence(p)
  {
    if content.Object? {
      var sequence := ScanScreenArtifact(p, content).sequence;
      if content.payload.Some? || content.sequence.Some? {
        NameRoundTrip(sequence.value);
      }
    }
  }

  lemma {:induction false} WrittenScansAreNamed(candidates: seq<Path>, files: map<Path, Content>)
    requires NamedByWriter(files)
    ensures forall a :: a in Scans(candidates, files) ==> a.sequence == NameSequence(a.path)
  {
    if candidates != [] {
      var last := candidates[|candidates| - 1];
      WrittenScansAreNamed(candidates[..|candidates| - 1], files);
      if last in files {
        WriterNamesRead(last, files[last]);
      }
    }
  }

  // So among the writer's own files, damaged or not, a lookup never redirects.
  lemma WrittenFilesNeverRedirect(current: Option<Path>, listed: seq<Path>, resolve: Path -> Path,
      files: map<Path, Content>, id: string)
    requires NamedByWriter(files)
    ensures FilesNeverRedirect(Candidates(current, listed, resolve), files, id)
  {
    var scans := Scans(Candidates(current, listed, resolve), files);
    WrittenScansAreNamed(Candidates(current, listed, resolve), files);
    forall i | 0 <= i < |scans| ensures scans[i].sequence == NameSequence(scans[i].path) {
      assert scans[i] in scans;
    }
    NamedNeverRedirects(current, listed, resolve, files, id);
  }

  // ---------- Names that lie ----------

  function Itself(path: Path): Path {
    path
  }

  ghost predicate Redirects(listed: seq<Path>, files: map<Path, Content>, id: string) {
    !FilesNeverRedirect(Candidates(None, listed, Itself), files, id)
  }

  // A name that belies the sequence lets damage bring back an older payload: two artifacts of a
  // screen, the newer one in the file of the smaller number.
  lemma BeliedNameRedirects(id: string, body: string)
    ensures exists listed, files :: Redirects(listed, files, id)
  {
    NamesOfOneAndTwo();
    LyingNamesRedirect(Path("screens", ArtifactStem(1) + SUFFIX), Path("screens", ArtifactStem(2) + SUFFIX), id, body);
  }

  lemma LyingNamesRedirect(newer: Path, older: Path, id: string, body: string)
    requires NameSequence(newer) == Some(1) && NameSequence(older) == Some(2)
    ensures exists listed, files :: Redirects(listed, files, id)
  {
    LyingFilesRedirect(newer, older, map[newer := Intact(id, 9, body), older := Intact(id, 2, body)], id, body);
  }

  lemma LyingFilesRedirect(newer: Path, older: Path, files: map<Path, Content>, id: string, body: string)
    requires newer in files && files[newer] == Intact(id, 9, body) && NameSequence(newer) == Some(1)
    requires older in files && files[older] == Intact(id, 2, body) && NameSequence(older) == Some(2)
    ensures Redirects([newer, older], files, id)
  {
    TwoCandidates(newer, older);
    CandidatesAreWellScanned(None, [newer, older], Itself, files);
    OlderComesBack(Candidates(None, [newer, older], Itself), newer, older, files, id, body);
  }

  lemma OlderComesBack(candidates: seq<Path>, newer: Path, older: Path, files: map<Path, Content>, id: string,
      body: string)
    requires newer != older && candidates in [[newer, older], [older, newer]]
    requires newer in files && files[newer] == Intact(id, 9, body) && NameSequence(newer) == Some(1)
    requires older in files && files[older] == Intact(id, 2, body)
    requires WellScanned(Scans(candidates, files))
    ensures !FilesNeverRedirect(candidates, files, id)
  {
    OlderHasNoShield(candidates, newer, older, files, id, body);
    ShieldedIff(candidates, files, id);
  }

  lemma NamesOfOneAndTwo()
    ensures SequenceFromName(ArtifactStem(1) + SUFFIX) == Some(1)
    ensures SequenceFromName(ArtifactStem(2) + SUFFIX) == Some(2)
  {
    NameRoundTrip(1);
    NameRoundTrip(2);
  }

  function Intact(id: string, sequence: int, body: string): Content {
    Object(Some(id), Some(sequence), Some(Payload(id, sequence, body)))
  }

  lemma OlderHasNoShield(candidates: seq<Path>, newer: Path, older: Path, files: map<Path, Content>, id: string,
      body: string)
    requires newer != older && candidates in [[newer, older], [older, newer]]
    requires newer in files && files[newer] == Intact(id, 9, body) && NameSequence(newer) == Some(1)
    requires older in files && files[older] == Intact(id, 2, body)
    ensures !AllShielded(Scans(candidates, files), id)
  {
    var scans := Scans(candidates, files);
    TwoScans(candidates, files);
    var i: nat := if candidates[0] == older then 0 else 1;
    assert !Newer(scans[i], scans[1 - i]);
    assert !Outranks(scans, i, 1 - i);
    assert PassedOver(scans, id, i);
    assert !Shields(scans, id, 1 - i, i) && !Shields(scans, id, i, i);
  }

  lemma TwoCandidates(first: Path, second: Path)
    requires first != second
    ensures Candidates(None, [first, second], Itself) in [[first, second], [second, first]]
  {
    var sorted := Sort([first, second], OrderPaths);
    assert [first, second][..1] == [first] && [first][..0] == [];
    assert Sort([first], OrderPaths) == Insert([], first, OrderPaths) == [first];
    assert sorted == Insert([first], second, OrderPaths);
    assert [first][1..] == [] && Insert([], second, OrderPaths) == [second];
    assert [second] + [first] == [second, first] && [first] + [second] == [first, second];
    assert sorted in [[first, second], [second, first]];
    assert sorted[..1] == [sorted[0]] && [sorted[0]][..0] == [];
    assert AddAll([], [sorted[0]], Itself) == [sorted[0]];
    assert AddAll([], sorted, Itself) == sorted;
  }

  lemma TwoScans(candidates: seq<Path>, files: map<Path, Content>)
    requires |candidates| == 2 && candidates[0] in files && candidates[1] in files
    ensures Scans(candidates, files)
         == [ScanScreenArtifact(candidates[0], files[candidates[0]]),
             ScanScreenArtifact(candidates[1], files[candidates[1]])]
  {
    var one := candidates[..1];
    assert one == [candidates[0]] && one[..0] == [];
    assert Scans(one[..0], files) == [];
    assert Scans(one, files) == [] + [ScanScreenArtifact(candidates[0], files[candidates[0]])];
  }
}
