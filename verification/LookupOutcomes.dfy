// What a lookup comes to, said of what was scanned: every outcome and when it is reached.
module LookupOutcomes {
  import opened Common
  import opened Ordering
  import opened ScreenLookup

  // ---------- Names ----------

  // An artifact's name is the prefix, digits and the suffix; the digits are its sequence.
  predicate IsArtifactName(name: string, digits: string) {
    name == "obs-" + digits + ".json" && digits != "" && forall i :: 0 <= i < |digits| ==> '0' <= digits[i] <= '9'
  }

  lemma SequenceFromNameIff(name: string)
    ensures SequenceFromName(name).Some? <==> exists digits :: IsArtifactName(name, digits)
    ensures forall digits :: IsArtifactName(name, digits) ==> SequenceFromName(name) == Some(ParseDecimal(digits))
  {
    if SequenceFromName(name).Some? {
      var digits := name[4..|name| - 5];
      assert name == name[..4] + digits + name[|name| - 5..];
      assert name[..4] == "obs-";
      assert IsArtifactName(name, digits);
    }
    forall digits | IsArtifactName(name, digits) ensures SequenceFromName(name) == Some(ParseDecimal(digits)) {
      NameParts(digits);
    }
  }

  // The numeral is the number, with zeros behind its sign up to five places in all.
  lemma NumeralIs(sequence: int)
    ensures var digits := Decimal(if sequence < 0 then -sequence else sequence);
      var sign := if sequence < 0 then "-" else "";
      exists k: nat :: Numeral(sequence) == sign + (Zeros(k) + digits)
        && (k == 0 || |sign| + k + |digits| == 5) && |sign| + k + |digits| >= 5
  {
    var digits := Decimal(if sequence < 0 then -sequence else sequence);
    var sign := if sequence < 0 then "-" else "";
    var k: nat := if |sign| + |digits| < 5 then 5 - |sign| - |digits| else 0;
    PaddedIs(digits, if sequence < 0 then 4 else 5, k);
    assert "" + (Zeros(k) + digits) == Zeros(k) + digits;
    assert Numeral(sequence) == sign + (Zeros(k) + digits);
  }

  lemma PaddedIs(digits: string, width: nat, k: nat)
    requires k == if |digits| < width then width - |digits| else 0
    ensures Padded(digits, width) == Zeros(k) + digits
  {
    ZerosArePadding(k);
    assert "" + digits == digits;
  }

  function Zeros(k: nat): string {
    if k == 0 then "" else "0" + Zeros(k - 1)
  }

  lemma {:induction false} ZerosArePadding(k: nat)
    ensures Zeros(k) == Padding(k)
  {
    if k > 0 {
      ZerosArePadding(k - 1);
      assert Padding(k) == "0" + Padding(k - 1);
    }
  }

  // ---------- What scanning tells ----------

  // A file that is no valid artifact has no payload; it keeps the screen it names, and the sequence
  // it holds or else that of its name.
  lemma ScanTells(path: Path, content: Content)
    ensures var a := ScanScreenArtifact(path, content);
      && a.path == path
      && (a.status == Valid <==> content.Object? && content.payload.Some?)
      && (a.status == CannotRead <==> content == Unreadable)
      && a.payload == (if content.Object? then content.payload else None)
      && (a.status == Valid ==>
            a.screenId == Some(content.payload.value.screenId) && a.sequence == Some(content.payload.value.sequence))
      && (a.status != Valid ==>
            && a.screenId == (if content.Object? then content.screenId else None)
            && a.sequence == (if content.Object? && content.sequence.Some? then content.sequence
                              else match SequenceFromName(path.name) case Some(n) => Some(n) case None => None))
  {
  }

  // The current artifact comes first if it is named like one; every other candidate is listed.
  lemma CurrentComesFirst(current: Option<Path>, listed: seq<Path>, resolve: Path -> Path)
    ensures var candidates := Candidates(current, listed, resolve);
      && (current.Some? && SequenceFromName(current.value.name).Some? ==>
            candidates != [] && candidates[0] == current.value)
      && (forall p :: p in candidates ==>
            p in listed || (Some(p) == current && SequenceFromName(p.name).Some?))
  {
    CandidatesCoverOnce(current, listed, resolve);
  }

  // ---------- Ages and names ----------

  // b's name comes after a's: a is a proper beginning of b or smaller where they first differ.
  ghost predicate NameAfter(b: string, a: string) {
    a < b || exists k :: 0 <= k < |a| && k < |b| && a[..k] == b[..k] && a[k] < b[k]
  }

  function Age(a: Scan): int {
    match a.sequence
    case None => -1
    case Some(sequence) => sequence
  }

  // a is preferred to b: a greater sequence, none counting as -1, or at the same one a later name.
  ghost predicate Preferred(a: Scan, b: Scan) {
    Age(a) > Age(b) || (Age(a) == Age(b) && (a.path.name == b.path.name || NameAfter(a.path.name, b.path.name)))
  }

  lemma CodesCompare(a: string, b: string)
    ensures LexLeq(Codes(a), Codes(b)) <==> a == b || NameAfter(b, a)
  {
    LexLeqIff(Codes(a), Codes(b));
    assert Codes(a) <= Codes(b) <==> a <= b by {
      if Codes(a) <= Codes(b) {
        forall i | 0 <= i < |a| ensures a[i] == b[i] {
          assert Codes(a)[i] == Codes(b)[i];
        }
      }
    }
    forall k | 0 <= k < |a| && k < |b|
      ensures IsSmallerAt(Codes(a), Codes(b), k) <==> a[..k] == b[..k] && a[k] < b[k]
    {
      SameCodesUpTo(a, b, k);
    }
  }

  lemma SameCodesUpTo(a: string, b: string, k: nat)
    requires k < |a| && k < |b|
    ensures Codes(a)[..k] == Codes(b)[..k] <==> a[..k] == b[..k]
  {
    if Codes(a)[..k] == Codes(b)[..k] {
      forall i | 0 <= i < k ensures a[..k][i] == b[..k][i] {
        assert Codes(a)[..k][i] == Codes(b)[..k][i];
      }
    }
  }

  lemma NewerIff(a: Scan, b: Scan)
    ensures Newer(a, b) <==> Preferred(a, b)
  {
    CodesCompare(b.path.name, a.path.name);
    assert SortKey(a)[1..] == Codes(a.path.name) && SortKey(b)[1..] == Codes(b.path.name);
  }

  // ---------- Outcomes ----------

  // What names the screen, and what may have.
  predicate Names(a: Scan, id: string) {
    a.screenId == Some(id)
  }

  predicate MayHaveNamed(a: Scan) {
    a.screenId == None && a.status != Valid
  }

  // The first of the most preferred ones.
  ghost predicate IsPick(scans: seq<Scan>, among: Scan -> bool, i: nat) {
    && i < |scans| && among(scans[i])
    && (forall j :: 0 <= j < |scans| && among(scans[j]) ==> Preferred(scans[i], scans[j]))
    && (forall j :: 0 <= j < i && among(scans[j]) ==> !Preferred(scans[j], scans[i]))
  }

  lemma PickIsBest(scans: seq<Scan>, among: Scan -> bool, i: nat)
    ensures IsPick(scans, among, i) <==> Best(scans, among, i)
  {
    forall a, b ensures Newer(a, b) <==> Preferred(a, b) {
      NewerIff(a, b);
    }
    if Best(scans, among, i) {
      forall j | 0 <= j < |scans| && among(scans[j]) ensures Preferred(scans[i], scans[j]) {
        assert Outranks(scans, i, j);
      }
      forall j | 0 <= j < i && among(scans[j]) ensures !Preferred(scans[j], scans[i]) {
        assert Outranks(scans, i, j);
      }
    }
    if IsPick(scans, among, i) {
      forall j | 0 <= j < |scans| && among(scans[j]) ensures Outranks(scans, i, j) {
      }
    }
  }

  // There is nothing to find if and only if no file names the screen.
  lemma NotFoundIff(scans: seq<Scan>, id: string)
    ensures LookupIn(scans, id) == NotFound <==> forall j :: 0 <= j < |scans| ==> !Names(scans[j], id)
  {
    NoneKept(scans, Of(id));
    assert (forall j :: 0 <= j < |scans| ==> !Names(scans[j], id))
      <==> forall j :: 0 <= j < |scans| ==> !Of(id)(scans[j]);
  }

  // The payload of the first of the most preferred files that name the screen is found if and only
  // if that file is valid and every file that may have named the screen is known to be older.
  lemma FoundExactly(scans: seq<Scan>, id: string, i: nat)
    requires IsPick(scans, a => Names(a, id), i)
    ensures LookupIn(scans, id).Found? <==>
      && scans[i].status == Valid && scans[i].payload.Some?
      && forall j :: 0 <= j < |scans| && MayHaveNamed(scans[j]) ==>
           scans[j].sequence.Some? && scans[i].sequence.Some? && scans[j].sequence.value < scans[i].sequence.value
    ensures LookupIn(scans, id).Found? ==> LookupIn(scans, id) == Found(scans[i].path, scans[i].payload.value)
  {
    PickIsBest(scans, a => Names(a, id), i);
    assert Best(scans, Of(id), i);
    BestIsUnique(scans, Of(id), i);
    FoundIff(scans, id);
    assert forall j :: 0 <= j < |scans| ==> (OfUnknownScreen(scans[j], id) <==> MayHaveNamed(scans[j]));
    assert Finds(scans, id, i) <==> LookupIn(scans, id).Found?;
  }

  // Every screen that some file names has such a file.
  lemma SomePick(scans: seq<Scan>, id: string, j: nat) returns (i: nat)
    requires j < |scans| && Names(scans[j], id)
    ensures IsPick(scans, a => Names(a, id), i)
  {
    NoneKept(scans, Of(id));
    assert Of(id)(scans[j]);
    i := HeadIsBest(scans, Of(id));
    PickIsBest(scans, Of(id), i);
    assert IsPick(scans, Of(id), i);
  }

  // Otherwise the artifact is invalid, and a file is named for it: a file of unknown screen and
  // sequence, the one with the last name; without one the most preferred file that may have named
  // the screen and is not older; and else the picked file itself, which is not valid then.
  lemma InvalidNames(scans: seq<Scan>, id: string, i: nat)
    requires IsPick(scans, a => Names(a, id), i) && !LookupIn(scans, id).Found?
    ensures LookupIn(scans, id).InvalidArtifact?
    ensures var path := LookupIn(scans, id).path;
      if exists j :: 0 <= j < |scans| && MayHaveNamed(scans[j]) && scans[j].sequence == None then
        exists j :: 0 <= j < |scans| && MayHaveNamed(scans[j]) && scans[j].sequence == None && scans[j].path == path
          && forall k :: 0 <= k < |scans| && MayHaveNamed(scans[k]) && scans[k].sequence == None ==>
               scans[k].path.name == path.name || NameAfter(path.name, scans[k].path.name)
      else if exists j: nat :: IsPick(scans, MayHaveNamed, j) && !Below(scans[j].sequence, scans[i].sequence) then
        exists j: nat :: IsPick(scans, MayHaveNamed, j) && scans[j].path == path
      else path == scans[i].path
  {
    NotFoundIff(scans, id);
    assert Names(scans[i], id);
    PickIsBest(scans, a => Names(a, id), i);
    assert Best(scans, Of(id), i);
    var m := HeadIsBest(scans, Of(id));
    BestIsUnique(scans, Of(id), i);
    UnknownIs(scans, id);
    UnnumberedIn(scans, id);
    if Unnumbered(Unknown(scans, id)) != [] {
      LastNameLeads(scans, id);
    } else if Unknown(scans, id) != [] {
      var u := HeadIsBest(scans, OfUnknown(id));
      UnknownPick(scans, id, u);
    } else {
      NoneKept(scans, OfUnknown(id));
    }
  }

  lemma UnknownIs(scans: seq<Scan>, id: string)
    ensures forall j :: 0 <= j < |scans| ==> (OfUnknownScreen(scans[j], id) <==> MayHaveNamed(scans[j]))
  {
  }

  lemma UnknownPick(scans: seq<Scan>, id: string, u: nat)
    requires Best(scans, OfUnknown(id), u)
    ensures forall j: nat :: IsPick(scans, MayHaveNamed, j) <==> j == u
  {
    UnknownIs(scans, id);
    BestIsUnique(scans, OfUnknown(id), u);
    forall j: nat ensures IsPick(scans, MayHaveNamed, j) <==> j == u {
      PickIsBest(scans, OfUnknown(id), j);
      assert IsPick(scans, MayHaveNamed, j) <==> IsPick(scans, OfUnknown(id), j);
      PickIsBest(scans, OfUnknown(id), u);
    }
  }

  lemma LaterNameIff(a: Scan, b: Scan)
    ensures LaterName(a, b) <==> a.path.name == b.path.name || NameAfter(a.path.name, b.path.name)
  {
    CodesCompare(b.path.name, a.path.name);
  }

  lemma LaterNameIsPreorder()
    ensures TotalPreorder(LaterName)
  {
    forall a, b ensures LaterName(a, b) || LaterName(b, a) {
      LexTotal(Codes(b.path.name), Codes(a.path.name));
    }
    forall a, b, c | LaterName(a, b) && LaterName(b, c) ensures LaterName(a, c) {
      LexTransitive(Codes(c.path.name), Codes(b.path.name), Codes(a.path.name));
    }
  }

  // The head of what is sorted by name comes behind none of the others.
  lemma HeadHasLastName(scans: seq<Scan>, a: Scan)
    requires a in scans
    ensures scans != [] && LaterName(Sort(scans, LaterName)[0], a) && Sort(scans, LaterName)[0] in scans
  {
    var sorted := Sort(scans, LaterName);
    LaterNameIsPreorder();
    SortKeeps(scans, LaterName);
    SortSorts(scans, LaterName);
    assert a in multiset(sorted) && sorted[0] in multiset(scans);
    var k :| 0 <= k < |sorted| && sorted[k] == a;
    LexTotal(Codes(a.path.name), Codes(a.path.name));
    assert k > 0 ==> LaterName(sorted[0], sorted[k]);
  }

  lemma LastNameLeads(scans: seq<Scan>, id: string)
    requires Unnumbered(Unknown(scans, id)) != []
    ensures exists j :: 0 <= j < |scans| && MayHaveNamed(scans[j]) && scans[j].sequence == None
    ensures var path := Sort(Unnumbered(Unknown(scans, id)), LaterName)[0].path;
      exists j :: 0 <= j < |scans| && MayHaveNamed(scans[j]) && scans[j].sequence == None && scans[j].path == path
        && forall k :: 0 <= k < |scans| && MayHaveNamed(scans[k]) && scans[k].sequence == None ==>
             scans[k].path.name == path.name || NameAfter(path.name, scans[k].path.name)
  {
    var unnumbered := Unnumbered(Unknown(scans, id));
    HeadHasLastName(unnumbered, unnumbered[0]);
    var head := Sort(unnumbered, LaterName)[0];
    assert head in Unknown(scans, id) && head in scans;
    var j :| 0 <= j < |scans| && scans[j] == head;
    FilterKeeps(scans, OfUnknown(id));
    FilterKeeps(Unknown(scans, id), HasNoNumber);
    forall k | 0 <= k < |scans| && MayHaveNamed(scans[k]) && scans[k].sequence == None
      ensures scans[k].path.name == head.path.name || NameAfter(head.path.name, scans[k].path.name)
    {
      assert OfUnknown(id)(scans[k]) && scans[k] in Unknown(scans, id) && scans[k] in unnumbered;
      HeadHasLastName(unnumbered, scans[k]);
      LaterNameIff(head, scans[k]);
    }
  }
}
