// Version texts and the Android version codes that are derived from them.
module VersionCode {
  import opened Common

  const COMPONENT_MAX := 999
  const CODE_MIN := 1
  const CODE_MAX := 2_100_000_000

  datatype VersionError = NotAVersion | MinorOutOfRange | PatchOutOfRange | CodeOutOfRange

  predicate EndsWith(s: string, suffix: string) {
    |suffix| <= |s| && s[|s| - |suffix|..] == suffix
  }

  // One line ending may follow the version.
  function WithoutLineEnd(raw: string): string {
    if EndsWith(raw, "\r\n") then raw[..|raw| - 2]
    else if EndsWith(raw, "\n") then raw[..|raw| - 1]
    else raw
  }

  function SplitDots(s: string): (parts: seq<string>)
    ensures |parts| >= 1
  {
    if s == "" then [""]
    else
      var parts := SplitDots(s[1..]);
      if s[0] == '.' then [""] + parts else [[s[0]] + parts[0]] + parts[1..]
  }

  predicate IsNumber(s: string) {
    s != "" && AllDigits(s)
  }

  predicate IsVersion(s: string) {
    var parts := SplitDots(s);
    |parts| == 3 && IsNumber(parts[0]) && IsNumber(parts[1]) && IsNumber(parts[2])
  }

  function ParseCanonicalVersionText(raw: string): Result<string, VersionError> {
    var candidate := WithoutLineEnd(raw);
    if IsVersion(candidate) then Ok(candidate) else Err(NotAVersion)
  }

  datatype Version = Version(major: nat, minor: nat, patch: nat)

  function Components(s: string): Version
    requires IsVersion(s)
  {
    var parts := SplitDots(s);
    Version(ParseDecimal(parts[0]), ParseDecimal(parts[1]), ParseDecimal(parts[2]))
  }

  function CodeOf(v: Version): nat {
    v.major * 1_000_000 + v.minor * 1_000 + v.patch
  }

  function DeriveAndroidVersionCode(raw: string): Result<nat, VersionError> {
    match ParseCanonicalVersionText(raw)
    case Err(error) => Err(error)
    case Ok(text) =>
      var v := Components(text);
      if v.minor > COMPONENT_MAX then Err(MinorOutOfRange)
      else if v.patch > COMPONENT_MAX then Err(PatchOutOfRange)
      else if !(CODE_MIN <= CodeOf(v) <= CODE_MAX) then Err(CodeOutOfRange)
      else Ok(CodeOf(v))
  }

  // ---------- The order of versions is the order of codes ----------

  predicate Precedes(v: Version, w: Version) {
    || v.major < w.major
    || (v.major == w.major && v.minor < w.minor)
    || (v.major == w.major && v.minor == w.minor && v.patch < w.patch)
  }

  function VersionOf(code: nat): Version {
    Version(code / 1_000_000, code / 1_000 % 1_000, code % 1_000)
  }

  // The components that a text with a code is made of.
  ghost predicate Stands(raw: string, v: Version) {
    ParseCanonicalVersionText(raw).Ok? && Components(WithoutLineEnd(raw)) == v
  }

  // A code is in range, and gives its version back by division and remainder.
  lemma CodeTellsVersion(raw: string)
    requires DeriveAndroidVersionCode(raw).Ok?
    ensures var code := DeriveAndroidVersionCode(raw).value;
      CODE_MIN <= code <= CODE_MAX && Stands(raw, VersionOf(code))
  {
    var v := Components(WithoutLineEnd(raw));
    assert v.minor <= 999 && v.patch <= 999;
    Division(v.major, v.minor, v.patch);
  }

  lemma Division(major: nat, minor: nat, patch: nat)
    requires minor <= 999 && patch <= 999
    ensures VersionOf(CodeOf(Version(major, minor, patch))) == Version(major, minor, patch)
  {
    var code := major * 1_000_000 + minor * 1_000 + patch;
    assert code / 1_000 == major * 1_000 + minor;
    assert code / 1_000_000 == major;
  }

  // Two texts compare as versions exactly as their codes compare as numbers.
  lemma CodesEmbedTheOrder(raw: string, other: string)
    requires DeriveAndroidVersionCode(raw).Ok? && DeriveAndroidVersionCode(other).Ok?
    ensures var v, w := Components(WithoutLineEnd(raw)), Components(WithoutLineEnd(other));
      var code, otherCode := DeriveAndroidVersionCode(raw).value, DeriveAndroidVersionCode(other).value;
      (code < otherCode <==> Precedes(v, w)) && (code == otherCode <==> v == w)
  {
    CodeTellsVersion(raw);
    CodeTellsVersion(other);
  }

  // ---------- Every code in range has its text ----------

  function VersionText(v: Version): string {
    Decimal(v.major) + "." + Decimal(v.minor) + "." + Decimal(v.patch)
  }

  lemma {:induction false} SplitAtDot(a: string, b: string)
    requires AllDigits(a)
    ensures SplitDots(a + "." + b) == [a] + SplitDots(b)
  {
    var s := a + "." + b;
    if a == "" {
      assert s[1..] == b;
    } else {
      SplitAtDot(a[1..], b);
      assert s[1..] == a[1..] + "." + b && s[0] == a[0];
      assert IsDigit(a[0]);
      assert a == [a[0]] + a[1..];
    }
  }

  lemma {:induction false} SplitDigits(a: string)
    requires AllDigits(a)
    ensures SplitDots(a) == [a]
  {
    if a != "" {
      assert IsDigit(a[0]);
      SplitDigits(a[1..]);
      assert a == [a[0]] + a[1..];
    }
  }

  lemma TextOfVersion(v: Version)
    ensures IsVersion(VersionText(v)) && Components(VersionText(v)) == v
    ensures WithoutLineEnd(VersionText(v)) == VersionText(v)
  {
    var major, minor, patch := Decimal(v.major), Decimal(v.minor), Decimal(v.patch);
    var s := VersionText(v);
    assert s == major + "." + (minor + "." + patch);
    SplitAtDot(major, minor + "." + patch);
    SplitAtDot(minor, patch);
    SplitDigits(patch);
    ParseOfDecimal(v.major);
    ParseOfDecimal(v.minor);
    ParseOfDecimal(v.patch);
    assert s[|s| - 1] == patch[|patch| - 1];
    assert IsDigit(patch[|patch| - 1]);
    NoLineEnd(s);
  }

  lemma LastOfSuffix(s: string, suffix: string)
    requires s != "" && suffix != ""
    ensures EndsWith(s, suffix) ==> s[|s| - 1] == suffix[|suffix| - 1]
  {
    if EndsWith(s, suffix) {
      assert s[|s| - |suffix|..][|suffix| - 1] == s[|s| - 1];
    }
  }

  lemma NoLineEnd(s: string)
    requires s != "" && IsDigit(s[|s| - 1])
    ensures WithoutLineEnd(s) == s
  {
    LastOfSuffix(s, "\r\n");
    LastOfSuffix(s, "\n");
  }

  lemma {:induction false} LastPart(s: string)
    ensures var parts := SplitDots(s);
      var last := parts[|parts| - 1];
      last != "" ==> s != "" && s[|s| - 1] == last[|last| - 1]
  {
    if s != "" {
      LastPart(s[1..]);
    }
  }

  predicate IsLine(raw: string, t: string) {
    raw == t || raw == t + "\n" || raw == t + "\r\n"
  }

  lemma LineOfCandidate(raw: string)
    ensures IsLine(raw, WithoutLineEnd(raw))
  {
    var n := |raw| - |WithoutLineEnd(raw)|;
    assert raw == raw[..|raw| - n] + raw[|raw| - n..];
  }

  lemma CandidateOfLine(raw: string, t: string)
    requires t != "" && IsDigit(t[|t| - 1]) && IsLine(raw, t)
    ensures WithoutLineEnd(raw) == t
  {
    NoLineEnd(t);
    if raw == t + "\n" {
      NewlineGoes(raw, t);
    } else if raw == t + "\r\n" {
      ReturnGoes(raw, t);
    }
  }

  lemma NewlineGoes(raw: string, t: string)
    requires t != "" && IsDigit(t[|t| - 1]) && raw == t + "\n"
    ensures WithoutLineEnd(raw) == t
  {
    BeforeNewline(raw);
    assert raw[|raw| - 2] == t[|t| - 1];
    assert EndsWith(raw, "\n") && raw[..|t|] == t;
  }

  lemma ReturnGoes(raw: string, t: string)
    requires raw == t + "\r\n"
    ensures WithoutLineEnd(raw) == t
  {
    assert raw[|t|..] == "\r\n" && raw[..|t|] == t;
    assert EndsWith(raw, "\r\n");
  }

  lemma BeforeNewline(raw: string)
    ensures EndsWith(raw, "\r\n") ==> raw[|raw| - 2] == '\r'
  {
    if EndsWith(raw, "\r\n") {
      assert raw[|raw| - 2..][0] == raw[|raw| - 2];
    }
  }

  // ---------- What a version is ----------

  // Three numbers, with a dot between each two, and nothing else.
  predicate IsDotted(s: string, a: string, b: string, c: string) {
    && a != "" && b != "" && c != ""
    && (forall i :: 0 <= i < |a| ==> '0' <= a[i] <= '9')
    && (forall i :: 0 <= i < |b| ==> '0' <= b[i] <= '9')
    && (forall i :: 0 <= i < |c| ==> '0' <= c[i] <= '9')
    && s == a + "." + b + "." + c
  }

  function JoinDots(parts: seq<string>): string {
    if parts == [] then "" else if |parts| == 1 then parts[0] else parts[0] + "." + JoinDots(parts[1..])
  }

  lemma {:induction false} JoinOfSplit(s: string)
    ensures JoinDots(SplitDots(s)) == s
  {
    if s != "" {
      var parts := SplitDots(s[1..]);
      JoinOfSplit(s[1..]);
      assert s == [s[0]] + s[1..];
      if s[0] == '.' {
        assert ([""] + parts)[1..] == parts;
      } else {
        var first := [s[0]] + parts[0];
        assert ([first] + parts[1..])[1..] == parts[1..];
        assert |parts| > 1 ==> first + "." + JoinDots(parts[1..]) == [s[0]] + (parts[0] + "." + JoinDots(parts[1..]));
      }
    }
  }

  lemma JoinOfThree(a: string, b: string, c: string)
    ensures JoinDots([a, b, c]) == a + "." + b + "." + c
  {
    assert [a, b, c][1..] == [b, c] && [b, c][1..] == [c];
    assert JoinDots([b, c]) == b + "." + JoinDots([c]) && JoinDots([c]) == c;
    assert a + "." + (b + "." + c) == a + "." + b + "." + c;
  }

  lemma SplitOfThree(a: string, b: string, c: string)
    requires AllDigits(a) && AllDigits(b) && AllDigits(c)
    ensures SplitDots(a + "." + b + "." + c) == [a, b, c]
  {
    assert a + "." + b + "." + c == a + "." + (b + "." + c);
    SplitAtDot(a, b + "." + c);
    SplitAtDot(b, c);
    SplitDigits(c);
  }

  // A version is three numbers with dots between them, which are its components.
  lemma IsVersionIff(s: string)
    ensures IsVersion(s) <==> exists a, b, c :: IsDotted(s, a, b, c)
    ensures forall a, b, c :: IsDotted(s, a, b, c) ==>
      IsVersion(s) && Components(s) == Version(ParseDecimal(a), ParseDecimal(b), ParseDecimal(c))
  {
    if IsVersion(s) {
      var parts := SplitDots(s);
      JoinOfSplit(s);
      assert parts == [parts[0], parts[1], parts[2]];
      JoinOfThree(parts[0], parts[1], parts[2]);
      assert IsDotted(s, parts[0], parts[1], parts[2]);
    }
    forall a, b, c | IsDotted(s, a, b, c)
      ensures IsVersion(s) && Components(s) == Version(ParseDecimal(a), ParseDecimal(b), ParseDecimal(c))
    {
      SplitOfThree(a, b, c);
    }
  }

  // The file holds a version and at most one line ending, in either style.
  lemma ParsesIff(raw: string)
    ensures ParseCanonicalVersionText(raw).Ok? <==> exists t :: IsVersion(t) && IsLine(raw, t)
  {
    LineOfCandidate(raw);
    forall t | IsVersion(t) && IsLine(raw, t) ensures WithoutLineEnd(raw) == t {
      LastPart(t);
      CandidateOfLine(raw, t);
    }
  }

  // Deriving is onto: what division and remainder make of a code is a version with that code.
  lemma EveryCodeIsDerived(code: nat)
    requires CODE_MIN <= code <= CODE_MAX
    ensures DeriveAndroidVersionCode(VersionText(VersionOf(code))) == Ok(code)
  {
    var v := VersionOf(code);
    TextOfVersion(v);
    assert code / 1_000 / 1_000 == code / 1_000_000;
    assert CodeOf(v) == code;
  }

  // A version text is accepted if and only if its components keep the bounds.
  lemma AcceptedIff(v: Version)
    ensures DeriveAndroidVersionCode(VersionText(v)).Ok?
       <==> v.minor <= 999 && v.patch <= 999 && v != Version(0, 0, 0)
            && (v.major < 2_100 || v == Version(2_100, 0, 0))
  {
    TextOfVersion(v);
    if v.minor <= 999 && v.patch <= 999 {
      CodeBounds(v.major, v.minor, v.patch);
    }
  }

  lemma CodeBounds(major: nat, minor: nat, patch: nat)
    requires minor <= 999 && patch <= 999
    ensures var code := major * 1_000_000 + minor * 1_000 + patch;
      (code >= 1 <==> !(major == minor == patch == 0))
      && (code <= 2_100_000_000 <==> major < 2_100 || (major == 2_100 && minor == patch == 0))
  {
  }

  predicate ShareCode(raw: string, other: string) {
    DeriveAndroidVersionCode(raw).Ok? && DeriveAndroidVersionCode(raw) == DeriveAndroidVersionCode(other)
  }

  // Leading zeros parse, so texts that differ may share a code.
  lemma CodesDoNotTellTexts()
    ensures exists raw, other :: raw != other && ShareCode(raw, other)
  {
    var text := VersionText(Version(0, 0, 1));
    var padded := "0" + text;
    TextOfVersion(Version(0, 0, 1));
    assert text == "0.0.1";
    PaddedParts(text, padded);
    NoLineEnd(padded);
    TwoNoughts();
    assert ShareCode(padded, text);
  }

  lemma PaddedParts(text: string, padded: string)
    requires text == "0.0.1" && padded == "0" + text
    ensures SplitDots(padded) == ["00"] + SplitDots("0.1") && SplitDots(text) == ["0"] + SplitDots("0.1")
  {
    assert padded == "00" + "." + "0.1" && text == "0" + "." + "0.1";
    SplitAtDot("00", "0.1");
    SplitAtDot("0", "0.1");
  }

  lemma TwoNoughts()
    ensures ParseDecimal("0") == 0 && ParseDecimal("00") == 0
  {
    assert "00"[..1] == "0" && "0"[..0] == "";
  }
}
