// Looking up the newest artifact of a source screen among files that may be damaged.
module ScreenLookup {
  import opened Common
  import opened Ordering

  // ---------- File names ----------

  const PREFIX := "obs-"
  const SUFFIX := ".json"

  function Padding(n: nat): string {
    seq(n, i => '0')
  }

  // Zero-padded to five places, a sign counting as one of them.
  function Numeral(sequence: int): string {
    if sequence < 0 then "-" + Padded(Decimal(-sequence), 4) else Padded(Decimal(sequence), 5)
  }

  function Padded(digits: string, width: nat): string {
    if |digits| < width then Padding(width - |digits|) + digits else digits
  }

  function ArtifactStem(sequence: int): string {
    PREFIX + Numeral(sequence)
  }

  function SequenceFromName(name: string): Option<nat> {
    if !(PREFIX <= name) || |name| <= 9 || name[|name| - 5..] != SUFFIX then None
    else if !AllDigits(name[4..|name| - 5]) then None
    else Some(ParseDecimal(name[4..|name| - 5]))
  }

  lemma {:induction false} ParsePadded(k: nat, digits: string)
    requires AllDigits(digits)
    ensures AllDigits(Padding(k) + digits) && ParseDecimal(Padding(k) + digits) == ParseDecimal(digits)
    decreases |digits|, k
  {
    var s := Padding(k) + digits;
    if digits != "" {
      assert s[..|s| - 1] == Padding(k) + digits[..|digits| - 1];
      ParsePadded(k, digits[..|digits| - 1]);
    } else if k > 0 {
      assert s[..|s| - 1] == Padding(k - 1) + digits;
      ParsePadded(k - 1, digits);
    }
  }

  lemma NameParts(middle: string)
    ensures var name := PREFIX + middle + SUFFIX;
      SequenceFromName(name)
      == if middle == "" || !AllDigits(middle) then None else Some(ParseDecimal(middle))
  {
    var name := PREFIX + middle + SUFFIX;
    assert name[..4] == PREFIX;
    assert name[4..|name| - 5] == middle;
    assert name[|name| - 5..] == SUFFIX;
  }

  lemma NumeralParses(sequence: int)
    ensures Numeral(sequence) != "" && (AllDigits(Numeral(sequence)) <==> sequence >= 0)
    ensures sequence >= 0 ==> ParseDecimal(Numeral(sequence)) == sequence
  {
    if sequence < 0 {
      assert !IsDigit(Numeral(sequence)[0]);
    } else {
      var digits := Decimal(sequence);
      ParseOfDecimal(sequence);
      if |digits| < 5 {
        ParsePadded(5 - |digits|, digits);
      }
    }
  }

  // A name that the writer makes is read back, unless the sequence is negative.
  lemma NameRoundTrip(sequence: int)
    ensures var name := ArtifactStem(sequence) + SUFFIX;
      SequenceFromName(name) == if sequence >= 0 then Some(sequence) else None
  {
    NumeralParses(sequence);
    NameParts(Numeral(sequence));
  }

  // ---------- Scanning a file ----------

  datatype Path = Path(folder: string, name: string)

  datatype Payload = Payload(screenId: string, sequence: int, body: string)

  // What reading a file yields: an I/O error, no JSON, JSON that is no object, or an object
  // with the text at "screenId", the integer at "sequence" and what validation makes of it.
  datatype Content =
    | Unreadable
    | NotJson
    | NotAnObject
    | Object(screenId: Option<string>, sequence: Option<int>, payload: Option<Payload>)

  datatype Status = Valid | Malformed | CannotRead

  datatype Scan = Scan(path: Path, status: Status, screenId: Option<string>, sequence: Option<int>,
                       payload: Option<Payload>)

  function NameSequence(path: Path): Option<int> {
    match SequenceFromName(path.name)
    case None => None
    case Some(n) => Some(n)
  }

  function ScanScreenArtifact(path: Path, content: Content): Scan {
    match content
    case Unreadable => Scan(path, CannotRead, None, NameSequence(path), None)
    case NotJson => Scan(path, Malformed, None, NameSequence(path), None)
    case NotAnObject => Scan(path, Malformed, None, NameSequence(path), None)
    case Object(screenId, sequence, None) =>
      Scan(path, Malformed, screenId, if sequence.Some? then sequence else NameSequence(path), None)
    case Object(_, _, Some(payload)) =>
      Scan(path, Valid, Some(payload.screenId), Some(payload.sequence), Some(payload))
  }

  // What every scan has: a valid one knows its screen, its sequence and its payload.
  predicate Scanned(a: Scan) {
    a.status == Valid ==> a.payload.Some? && a.sequence.Some? && a.screenId.Some?
  }

  function Scans(candidates: seq<Path>, files: map<Path, Content>): seq<Scan> {
    if candidates == [] then []
    else
      var last := candidates[|candidates| - 1];
      var scans := Scans(candidates[..|candidates| - 1], files);
      if last in files then scans + [ScanScreenArtifact(last, files[last])] else scans
  }

  // ---------- Candidates ----------

  function OrderPaths(a: Path, b: Path): bool {
    LexLeq(Codes(a.name), Codes(b.name))
  }

  predicate Covers(candidates: seq<Path>, path: Path, resolve: Path -> Path) {
    exists i :: 0 <= i < |candidates| && resolve(candidates[i]) == resolve(path)
  }

  // The first path that resolves to a place stands for it.
  function AddCandidate(candidates: seq<Path>, path: Path, resolve: Path -> Path): seq<Path> {
    if Covers(candidates, path, resolve) then candidates else candidates + [path]
  }

  predicate OncePerPlace(candidates: seq<Path>, resolve: Path -> Path) {
    forall i, j :: 0 <= i < j < |candidates| ==> resolve(candidates[i]) != resolve(candidates[j])
  }

  function AddAll(candidates: seq<Path>, paths: seq<Path>, resolve: Path -> Path): seq<Path> {
    if paths == [] then candidates
    else AddCandidate(AddAll(candidates, paths[..|paths| - 1], resolve), paths[|paths| - 1], resolve)
  }

  predicate IsInternal(path: Path) {
    SequenceFromName(path.name).Some?
  }

  // The file of the current screen goes first, if it is named like an artifact.
  function First(current: Option<Path>): seq<Path> {
    if current.Some? && IsInternal(current.value) then [current.value] else []
  }

  function Candidates(current: Option<Path>, listed: seq<Path>, resolve: Path -> Path): seq<Path> {
    AddAll(First(current), Sort(listed, OrderPaths), resolve)
  }

  method ScreenArtifactCandidates(current: Option<Path>, listed: seq<Path>, resolve: Path -> Path)
    returns (candidates: seq<Path>)
    ensures candidates == Candidates(current, listed, resolve)
  {
    candidates := [];
    if current.Some? && IsInternal(current.value) {
      candidates := AddCandidate(candidates, current.value, resolve);
    }
    assert candidates == First(current);
    candidates := AddSorted(candidates, Sort(listed, OrderPaths), resolve);
  }

  // The loop over the folder's files.
  method AddSorted(start: seq<Path>, paths: seq<Path>, resolve: Path -> Path) returns (candidates: seq<Path>)
    ensures candidates == AddAll(start, paths, resolve)
  {
    candidates := start;
    for i := 0 to |paths|
      invariant candidates == AddAll(start, paths[..i], resolve)
    {
      assert paths[..i + 1][..i] == paths[..i];
      candidates := AddCandidate(candidates, paths[i], resolve);
    }
    assert paths[..|paths|] == paths;
  }

  lemma {:induction false} AddAllCovers(candidates: seq<Path>, paths: seq<Path>, resolve: Path -> Path)
    requires OncePerPlace(candidates, resolve)
    ensures var all := AddAll(candidates, paths, resolve);
      && candidates <= all && OncePerPlace(all, resolve)
      && (forall p :: p in paths ==> Covers(all, p, resolve))
      && (forall p :: p in all ==> p in candidates || p in paths)
  {
    if paths != [] {
      var n := |paths| - 1;
      var before := AddAll(candidates, paths[..n], resolve);
      AddAllCovers(candidates, paths[..n], resolve);
      var all := AddCandidate(before, paths[n], resolve);
      forall p | p in paths ensures Covers(all, p, resolve) {
        if p == paths[n] && all != before {
          assert all[|before|] == p;
        } else if p != paths[n] {
          assert p in paths[..n];
          var i :| 0 <= i < |before| && resolve(before[i]) == resolve(p);
          assert all[i] == before[i];
        }
      }
    }
  }

  // Every listed file is scanned at some path, no file twice, and the current one first.
  lemma CandidatesCoverOnce(current: Option<Path>, listed: seq<Path>, resolve: Path -> Path)
    ensures var candidates := Candidates(current, listed, resolve);
      && First(current) <= candidates && OncePerPlace(candidates, resolve)
      && (forall p :: p in listed ==> Covers(candidates, p, resolve))
      && (forall p :: p in candidates ==> p in First(current) || p in listed)
  {
    var sorted := Sort(listed, OrderPaths);
    AddAllCovers(First(current), sorted, resolve);
    SortKeeps(listed, OrderPaths);
    assert forall p :: p in listed <==> p in sorted by {
      forall p ensures p in listed <==> p in sorted {
        assert p in multiset(listed) <==> p in multiset(sorted);
      }
    }
  }

  // ---------- The lookup ----------

  datatype Lookup = NotFound | InvalidArtifact(path: Path) | Found(path: Path, payload: Payload)

  predicate Matches(a: Scan, id: string) {
    a.screenId == Some(id)
  }

  predicate OfUnknownScreen(a: Scan, id: string) {
    !Matches(a, id) && a.screenId == None && a.status != Valid
  }

  function SortKey(a: Scan): seq<int> {
    [if a.sequence.None? then -1 else a.sequence.value] + Codes(a.path.name)
  }

  function Newer(a: Scan, b: Scan): bool {
    LexLeq(SortKey(b), SortKey(a))
  }

  function LaterName(a: Scan, b: Scan): bool {
    LexLeq(Codes(b.path.name), Codes(a.path.name))
  }

  function Filter(scans: seq<Scan>, keep: Scan -> bool): (r: seq<Scan>)
    ensures forall i :: 0 <= i < |r| ==> r[i] in scans && keep(r[i])
  {
    if scans == [] then []
    else
      var kept := Filter(scans[..|scans| - 1], keep);
      if keep(scans[|scans| - 1]) then kept + [scans[|scans| - 1]] else kept
  }

  function Of(id: string): Scan -> bool {
    a => Matches(a, id)
  }

  function OfUnknown(id: string): Scan -> bool {
    a => OfUnknownScreen(a, id)
  }

  predicate HasNoNumber(a: Scan) {
    a.sequence.None?
  }

  function Matching(scans: seq<Scan>, id: string): seq<Scan> {
    Filter(scans, Of(id))
  }

  function Unknown(scans: seq<Scan>, id: string): seq<Scan> {
    Filter(scans, OfUnknown(id))
  }

  function Unnumbered(scans: seq<Scan>): seq<Scan> {
    Filter(scans, HasNoNumber)
  }

  function LookupIn(scans: seq<Scan>, id: string): Lookup {
    var matching, unknown := Matching(scans, id), Unknown(scans, id);
    if matching == [] then NotFound
    else if Unnumbered(unknown) != [] then InvalidArtifact(Sort(Unnumbered(unknown), LaterName)[0].path)
    else
      var match_ := Sort(matching, Newer)[0];
      if unknown != [] && !Below(Sort(unknown, Newer)[0].sequence, match_.sequence) then
        InvalidArtifact(Sort(unknown, Newer)[0].path)
      else if match_.status != Valid || match_.payload.None? then InvalidArtifact(match_.path)
      else Found(match_.path, match_.payload.value)
  }

  // Known on both sides, and strictly smaller.
  predicate Below(a: Option<int>, b: Option<int>) {
    a.Some? && b.Some? && a.value < b.value
  }

  // The first loop: every file that exists is scanned, and sorted into what it may be.
  method ScanCandidates(candidates: seq<Path>, files: map<Path, Content>, id: string)
    returns (matching: seq<Scan>, unknown: seq<Scan>, scanned: seq<Scan>)
    ensures scanned == Scans(candidates, files)
    ensures matching == Matching(scanned, id) && unknown == Unknown(scanned, id)
  {
    matching, unknown, scanned := [], [], [];
    var i := 0;
    while i < |candidates|
      invariant 0 <= i <= |candidates|
      invariant scanned == Scans(candidates[..i], files)
      invariant matching == Matching(scanned, id) && unknown == Unknown(scanned, id)
    {
      assert candidates[..i + 1][..i] == candidates[..i];
      if candidates[i] in files {
        var artifact := ScanScreenArtifact(candidates[i], files[candidates[i]]);
        FilterOneMore(scanned, artifact, id);
        scanned := scanned + [artifact];
        if artifact.screenId == Some(id) {
          matching := matching + [artifact];
        } else if artifact.screenId.None? && artifact.status != Valid {
          unknown := unknown + [artifact];
        }
      }
      i := i + 1;
    }
    assert candidates[..i] == candidates;
  }

  lemma FilterOneMore(scans: seq<Scan>, a: Scan, id: string)
    ensures Matching(scans + [a], id) == Matching(scans, id) + (if Matches(a, id) then [a] else [])
    ensures Unknown(scans + [a], id) == Unknown(scans, id) + (if OfUnknownScreen(a, id) then [a] else [])
  {
    assert (scans + [a])[..|scans|] == scans;
  }

  lemma {:induction false} ScansAreScanned(candidates: seq<Path>, files: map<Path, Content>)
    ensures forall a :: a in Scans(candidates, files) ==> Scanned(a)
  {
    if candidates != [] {
      ScansAreScanned(candidates[..|candidates| - 1], files);
    }
  }

  method LookupSourceScreenArtifact(candidates: seq<Path>, files: map<Path, Content>, id: string)
    returns (result: Lookup, scanned: seq<Scan>)
    ensures scanned == Scans(candidates, files)
    ensures result == LookupIn(scanned, id)
  {
    var matching, unknown;
    matching, unknown, scanned := ScanCandidates(candidates, files, id);
    if matching == [] {
      return NotFound, scanned;
    }
    var unnumbered := Filter(unknown, HasNoNumber);
    if unnumbered != [] {
      return InvalidArtifact(Sort(unnumbered, LaterName)[0].path), scanned;
    }
    ghost var m := HeadIsBest(scanned, Of(id));
    ScansAreScanned(candidates, files);
    matching := Sort(matching, Newer);
    var selected := matching[0];
    if unknown != [] {
      unknown := Sort(unknown, Newer);
      if !Below(unknown[0].sequence, selected.sequence) {
        return InvalidArtifact(unknown[0].path), scanned;
      }
    }
    if selected.status != Valid {
      return InvalidArtifact(selected.path), scanned;
    }
    assert Scanned(scanned[m]);
    return Found(selected.path, selected.payload.value), scanned;
  }

  // ---------- When a payload is found ----------

  // i comes before j in the order of preference: newer, and at the same age scanned earlier.
  predicate Outranks(scans: seq<Scan>, i: nat, j: nat)
    requires i < |scans| && j < |scans|
  {
    Newer(scans[i], scans[j]) && (Newer(scans[j], scans[i]) ==> i <= j)
  }

  predicate Best(scans: seq<Scan>, keep: Scan -> bool, i: nat) {
    && i < |scans| && keep(scans[i])
    && forall j :: 0 <= j < |scans| && keep(scans[j]) ==> Outranks(scans, i, j)
  }

  lemma NewerIsTotal(a: Scan, b: Scan)
    ensures Newer(a, b) || Newer(b, a)
  {
    LexTotal(SortKey(a), SortKey(b));
  }

  lemma NewerIsTransitive(a: Scan, b: Scan, c: Scan)
    requires Newer(a, b) && Newer(b, c)
    ensures Newer(a, c)
  {
    LexTransitive(SortKey(c), SortKey(b), SortKey(a));
  }

  lemma OutranksOther(scans: seq<Scan>, i: nat, j: nat)
    requires i < |scans| && j < |scans|
    ensures Outranks(scans, i, j) || Outranks(scans, j, i)
    ensures i != j ==> !(Outranks(scans, i, j) && Outranks(scans, j, i))
  {
    NewerIsTotal(scans[i], scans[j]);
  }

  lemma OutranksTransitive(scans: seq<Scan>, i: nat, j: nat, k: nat)
    requires i < |scans| && j < |scans| && k < |scans|
    requires Outranks(scans, i, j) && Outranks(scans, j, k)
    ensures Outranks(scans, i, k)
  {
    NewerIsTransitive(scans[i], scans[j], scans[k]);
    if Newer(scans[k], scans[i]) {
      NewerIsTransitive(scans[k], scans[i], scans[j]);
      NewerIsTransitive(scans[j], scans[k], scans[i]);
    }
  }

  // The head of the sorted selection is the best of all, in the order of preference.
  lemma {:induction false} HeadIsBest(scans: seq<Scan>, keep: Scan -> bool) returns (i: nat)
    requires Filter(scans, keep) != []
    ensures Best(scans, keep, i) && Sort(Filter(scans, keep), Newer)[0] == scans[i]
  {
    var n := |scans| - 1;
    var before, last := scans[..n], scans[n];
    var kept := Filter(before, keep);
    if !keep(last) {
      i := HeadIsBest(before, keep);
      BestOfMore(scans, keep, i);
    } else if kept == [] {
      NoneKept(before, keep);
      i := n;
      assert Sort([last], Newer) == Insert([], last, Newer);
      NewerIsTotal(last, last);
    } else {
      var b := HeadIsBest(before, keep);
      assert (kept + [last])[..|kept|] == kept;
      i := if Newer(scans[b], last) then b else n;
      NewerIsTotal(scans[b], last);
      if i == b {
        BestOfMore(scans, keep, b);
      } else {
        BestIsLast(scans, keep, b);
      }
    }
  }

  lemma NoneKept(scans: seq<Scan>, keep: Scan -> bool)
    ensures Filter(scans, keep) == [] <==> forall j :: 0 <= j < |scans| ==> !keep(scans[j])
  {
    if scans != [] {
      NoneKept(scans[..|scans| - 1], keep);
    }
  }

  lemma BestOfMore(scans: seq<Scan>, keep: Scan -> bool, i: nat)
    requires scans != [] && Best(scans[..|scans| - 1], keep, i)
    requires keep(scans[|scans| - 1]) ==> Newer(scans[i], scans[|scans| - 1])
    ensures Best(scans, keep, i)
  {
    forall j | 0 <= j < |scans| && keep(scans[j]) ensures Outranks(scans, i, j) {
      if j < |scans| - 1 {
        assert Outranks(scans[..|scans| - 1], i, j);
      }
    }
  }

  lemma BestIsLast(scans: seq<Scan>, keep: Scan -> bool, b: nat)
    requires scans != [] && Best(scans[..|scans| - 1], keep, b)
    requires keep(scans[|scans| - 1]) && !Newer(scans[b], scans[|scans| - 1])
    ensures Best(scans, keep, |scans| - 1)
  {
    var n := |scans| - 1;
    NewerIsTotal(scans[n], scans[b]);
    NewerIsTotal(scans[n], scans[n]);
    forall j | 0 <= j < |scans| && keep(scans[j]) ensures Outranks(scans, n, j) {
      if j < n {
        assert Outranks(scans[..n], b, j);
        OutranksTransitive(scans, n, b, j);
      }
    }
  }

  predicate NoUnknownBlocks(scans: seq<Scan>, id: string, sequence: Option<int>) {
    forall j :: 0 <= j < |scans| && OfUnknownScreen(scans[j], id) ==> Below(scans[j].sequence, sequence)
  }

  // Artifact i is what the lookup finds.
  predicate Finds(scans: seq<Scan>, id: string, i: nat) {
    && Best(scans, Of(id), i)
    && scans[i].status == Valid && scans[i].payload.Some?
    && NoUnknownBlocks(scans, id, scans[i].sequence)
  }

  lemma UnnumberedIn(scans: seq<Scan>, id: string)
    ensures Unnumbered(Unknown(scans, id)) == []
      <==> forall j :: 0 <= j < |scans| && OfUnknownScreen(scans[j], id) ==> scans[j].sequence.Some?
  {
    var unknown := Unknown(scans, id);
    NoneKept(unknown, HasNoNumber);
    FilterKeeps(scans, OfUnknown(id));
    forall j | 0 <= j < |unknown| ensures unknown[j] in scans {
    }
  }

  lemma FilterKeeps(scans: seq<Scan>, keep: Scan -> bool)
    ensures forall j :: 0 <= j < |scans| && keep(scans[j]) ==> scans[j] in Filter(scans, keep)
  {
    if scans != [] {
      FilterKeeps(scans[..|scans| - 1], keep);
    }
  }

  // The newest unknown artifact decides for all of them.
  lemma NewestUnknownDecides(scans: seq<Scan>, id: string, sequence: Option<int>)
    requires Unknown(scans, id) != [] && Unnumbered(Unknown(scans, id)) == []
    ensures Below(Sort(Unknown(scans, id), Newer)[0].sequence, sequence) <==> NoUnknownBlocks(scans, id, sequence)
  {
    UnnumberedIn(scans, id);
    var u := HeadIsBest(scans, OfUnknown(id));
    forall j | 0 <= j < |scans| && OfUnknownScreen(scans[j], id)
      ensures scans[j].sequence.value <= scans[u].sequence.value
    {
      assert Outranks(scans, u, j);
    }
  }

  // A lookup finds artifact i if and only if i is the best match, it is valid, and every
  // artifact of unknown screen is known to be strictly older.
  lemma FoundIff(scans: seq<Scan>, id: string)
    ensures LookupIn(scans, id).Found? <==> exists i: nat :: Finds(scans, id, i)
    ensures forall i: nat :: Finds(scans, id, i) ==> LookupIn(scans, id) == Found(scans[i].path, scans[i].payload.value)
  {
    NoneKept(scans, Of(id));
    if Matching(scans, id) == [] {
      assert forall i: nat :: !Best(scans, Of(id), i);
    } else {
      var m := HeadIsBest(scans, Of(id));
      BestIsUnique(scans, Of(id), m);
      UnnumberedIn(scans, id);
      NoneKept(scans, OfUnknown(id));
      if Unknown(scans, id) != [] && Unnumbered(Unknown(scans, id)) == [] {
        NewestUnknownDecides(scans, id, scans[m].sequence);
      }
      assert LookupIn(scans, id).Found? <==> Finds(scans, id, m);
    }
  }

  lemma BestIsUnique(scans: seq<Scan>, keep: Scan -> bool, m: nat)
    requires Best(scans, keep, m)
    ensures forall i: nat :: Best(scans, keep, i) ==> i == m
  {
    forall i: nat | Best(scans, keep, i) ensures i == m {
      OutranksOther(scans, i, m);
    }
  }
}
