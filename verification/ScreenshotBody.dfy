// The size budget of a screenshot that arrives in base64.
module ScreenshotBody {
  import opened Common
  import opened Base64

  const MAX_BINARY_BYTES := 32 * 1024 * 1024
  const MAX_BASE64_CHARS := (MAX_BINARY_BYTES + 2) / 3 * 4

  datatype BodyError = Base64TooLarge | EstimateTooLarge | InvalidBase64 | DecodedTooLarge

  function EstimatedDecodedSize(value: string): int {
    if value == "" then 0
    else
      var trailing := if |value| % 4 == 0 then |value| - |WithoutPadding(value)| else 0;
      var padding := if trailing < 2 then trailing else 2;
      (|value| + 3) / 4 * 3 - padding
  }

  function ValidateBudget(value: string): Result<int, BodyError> {
    if |value| > MAX_BASE64_CHARS then Err(Base64TooLarge)
    else if EstimatedDecodedSize(value) > MAX_BINARY_BYTES then Err(EstimateTooLarge)
    else Ok(EstimatedDecodedSize(value))
  }

  // Section 4 of RFC 4648: whole groups of four characters, the last one filled with padding.
  predicate WellPadded(value: string) {
    |value| % 4 == 0 && |value| - |WithoutPadding(value)| <= 2
  }

  function StrictDecode(value: string): Option<seq<Byte>> {
    if WellPadded(value) then DecodeText(value, STANDARD) else None
  }

  function DecodeScreenshotBody(value: string): Result<seq<Byte>, BodyError> {
    match ValidateBudget(value)
    case Err(error) => Err(error)
    case Ok(_) =>
      match StrictDecode(value)
      case None => Err(InvalidBase64)
      case Some(decoded) =>
        if |decoded| > MAX_BINARY_BYTES then Err(DecodedTooLarge) else Ok(decoded)
  }

  // The estimate is never too small, even for decoders that are lax about padding, and for
  // well padded input it is exact.
  lemma EstimateBounds(value: string)
    requires DecodeText(value, STANDARD).Some?
    ensures var size := |DecodeText(value, STANDARD).value|;
      size <= EstimatedDecodedSize(value) && (WellPadded(value) ==> size == EstimatedDecodedSize(value))
  {
    var n := |WithoutPadding(value)|;
    assert |DecodeText(value, STANDARD).value| == n * 3 / 4;
    SizeBounds(n, |value| - n);
  }

  lemma SizeBounds(n: nat, padding: nat)
    requires n % 4 != 1
    ensures var length := n + padding;
      var counted := if length % 4 == 0 then (if padding < 2 then padding else 2) else 0;
      && n * 3 / 4 <= (length + 3) / 4 * 3 - counted
      && (length % 4 == 0 && padding <= 2 ==> n * 3 / 4 == (length + 3) / 4 * 3 - counted)
  {
    var k, r := n / 4, n % 4;
    assert n == 4 * k + r && n * 3 / 4 == 3 * k + r * 3 / 4;
    var q, s := (n + padding) / 4, (n + padding) % 4;
    assert n + padding == 4 * q + s && (n + padding + 3) / 4 == q + (if s == 0 then 0 else 1);
  }

  // The text ends in exactly n padding characters.
  predicate EndsInPadding(value: string, n: nat) {
    && n <= |value|
    && (forall i :: |value| - n <= i < |value| ==> value[i] == '=')
    && (n < |value| ==> value[|value| - n - 1] != '=')
  }

  lemma {:induction false} PaddingIs(value: string, n: nat)
    requires EndsInPadding(value, n)
    ensures |WithoutPadding(value)| == |value| - n
    decreases n
  {
    if n > 0 {
      PaddingIs(value[..|value| - 1], n - 1);
    }
  }

  // Three bytes for every four characters, an unfinished group counting as whole; in whole groups
  // one byte less for each padding character, of which no more than two count.
  lemma EstimateIs(value: string, n: nat)
    requires EndsInPadding(value, n)
    ensures |value| % 4 == 0 ==>
      EstimatedDecodedSize(value)
        == if value == "" then 0 else |value| / 4 * 3 - (match n case 0 => 0 case 1 => 1 case _ => 2)
    ensures |value| % 4 != 0 ==> EstimatedDecodedSize(value) == |value| / 4 * 3 + 3
  {
    PaddingIs(value, n);
  }

  // Which error there is, if there is one: too many characters come first, then too many bytes
  // expected, and then what is no base64.
  lemma ErrorIs(value: string)
    ensures DecodeScreenshotBody(value) == Err(Base64TooLarge) <==> |value| > 44_739_244
    ensures DecodeScreenshotBody(value) == Err(EstimateTooLarge) <==>
      |value| <= 44_739_244 && EstimatedDecodedSize(value) > 33_554_432
    ensures DecodeScreenshotBody(value) == Err(InvalidBase64) <==>
      |value| <= 44_739_244 && EstimatedDecodedSize(value) <= 33_554_432 && StrictDecode(value) == None
  {
  }

  // So the check behind decoding never fires.
  lemma DecodedIsNeverTooLarge(value: string)
    ensures DecodeScreenshotBody(value) != Err(DecodedTooLarge)
  {
    if StrictDecode(value).Some? {
      EstimateBounds(value);
    }
  }

  // And the budget turns no body away that it should not: a body is accepted if and only if
  // it is base64 of at most so many bytes.
  lemma AcceptedIff(value: string)
    ensures DecodeScreenshotBody(value).Ok?
       <==> StrictDecode(value).Some? && |StrictDecode(value).value| <= MAX_BINARY_BYTES
    ensures DecodeScreenshotBody(value).Ok? ==> Some(DecodeScreenshotBody(value).value) == StrictDecode(value)
  {
    if StrictDecode(value).Some? {
      EstimateBounds(value);
      if EstimatedDecodedSize(value) <= MAX_BINARY_BYTES {
        CharsBound(|value|, EstimatedDecodedSize(value));
      }
    }
  }

  lemma CharsBound(chars: nat, size: int)
    requires chars % 4 == 0 && size >= chars / 4 * 3 - 2 && size <= MAX_BINARY_BYTES
    ensures chars <= MAX_BASE64_CHARS
  {
  }

  // ---------- The sender's side ----------

  function Missing(bytes: nat): nat {
    if bytes % 3 == 0 then 0 else 3 - bytes % 3
  }

  function EncodeBody(body: seq<Byte>): string {
    Text(Encode(body), STANDARD) + Padding(Missing(|body|))
  }

  // What is sent is well padded, and decodes to what was encoded.
  lemma BodyRoundTrip(body: seq<Byte>)
    ensures StrictDecode(EncodeBody(body)) == Some(body)
  {
    var data, padding := Text(Encode(body), STANDARD), Missing(|body|);
    WholeGroups(|body|, |data|, padding);
    PaddedRoundTrip(body, padding, data, data + Padding(padding));
  }

  lemma PaddedRoundTrip(body: seq<Byte>, padding: nat, data: string, value: string)
    requires data == Text(Encode(body), STANDARD) && value == data + Padding(padding)
    requires (|data| + padding) % 4 == 0 && padding <= 2
    ensures StrictDecode(value) == Some(body)
  {
    TextRoundTrip(body, padding, STANDARD);
    PaddedIsWell(data, padding, value);
  }

  lemma PaddedIsWell(data: string, padding: nat, value: string)
    requires value == data + Padding(padding) && WithoutPadding(value) == data
    requires (|data| + padding) % 4 == 0 && padding <= 2
    ensures WellPadded(value)
  {
  }

  // Every body that keeps within the budget arrives, and no other one does.
  lemma BodyArrivesIff(body: seq<Byte>)
    ensures DecodeScreenshotBody(EncodeBody(body)) == Ok(body) <==> |body| <= MAX_BINARY_BYTES
    ensures |body| > MAX_BINARY_BYTES ==> DecodeScreenshotBody(EncodeBody(body)).Err?
  {
    BodyRoundTrip(body);
    AcceptedIff(EncodeBody(body));
  }

  lemma WholeGroups(bytes: nat, chars: nat, padding: nat)
    requires chars == (bytes * 4 + 2) / 3 && padding == Missing(bytes)
    ensures (chars + padding) % 4 == 0 && padding <= 2
  {
    var k := bytes / 3;
    if bytes == 3 * k {
      assert chars == 4 * k;
    } else if bytes == 3 * k + 1 {
      assert chars == 4 * k + 2;
    } else {
      assert bytes == 3 * k + 2 && chars == 4 * k + 3;
    }
  }
}
