// The host token: 32 random bytes in base64url without padding.
module HostToken {
  import opened Common
  import opened Base64

  const TOKEN_BYTES := 32
  const ENCODED_LENGTH := 43

  datatype TokenError = GenerationFailed | Required | NotBase64 | WrongLength | NotCanonical

  function EncodeToken(raw: seq<Byte>): string {
    Text(Encode(raw), URL_SAFE)
  }

  function DecodeToken(token: string): Option<seq<Byte>> {
    DecodeText(token + Padding((4 - |token| % 4) % 4), URL_SAFE)
  }

  predicate HasTokenShape(token: string) {
    |token| == ENCODED_LENGTH && InAlphabet(token, URL_SAFE)
  }

  function GenerateHostToken(tokenBytes: int -> seq<Byte>): Result<string, TokenError> {
    var raw := tokenBytes(TOKEN_BYTES);
    if |raw| != TOKEN_BYTES then Err(GenerationFailed) else Ok(EncodeToken(raw))
  }

  function ValidateHostToken(token: string): Result<string, TokenError> {
    if token == "" then Err(Required)
    else if !HasTokenShape(token) then Err(NotCanonical)
    else
      match DecodeToken(token)
      case None => Err(NotBase64)
      case Some(decoded) =>
        if |decoded| != TOKEN_BYTES then Err(WrongLength)
        else if EncodeToken(decoded) != token then Err(NotCanonical)
        else Ok(token)
  }

  predicate Encodes(token: string, raw: seq<Byte>) {
    |raw| == TOKEN_BYTES && EncodeToken(raw) == token
  }

  lemma DecodeOfShape(token: string)
    requires HasTokenShape(token)
    ensures DecodeToken(token) == Decode(Values(token, URL_SAFE))
  {
    assert ValueOf(token[|token| - 1], URL_SAFE).Some?;
    PaddingIsDropped(token, (4 - |token| % 4) % 4);
  }

  lemma DecodeOfToken(raw: seq<Byte>, padding: nat)
    requires padding == (4 - |EncodeToken(raw)| % 4) % 4
    ensures DecodeToken(EncodeToken(raw)) == Some(raw)
  {
    TextRoundTrip(raw, padding, URL_SAFE);
  }

  lemma EncodedShape(raw: seq<Byte>)
    requires |raw| == TOKEN_BYTES
    ensures HasTokenShape(EncodeToken(raw)) && DecodeToken(EncodeToken(raw)) == Some(raw)
  {
    ValuesOfText(Encode(raw), URL_SAFE);
    DecodeOfToken(raw, (4 - |EncodeToken(raw)| % 4) % 4);
  }

  // A token is accepted if and only if it is the unpadded encoding of 32 bytes, which it
  // determines, and that is so exactly when its spare bits are zero. The two checks on the
  // decoded bytes' existence and number can never fail.
  lemma AcceptedIff(token: string)
    ensures ValidateHostToken(token).Ok? <==> exists raw :: Encodes(token, raw)
    ensures ValidateHostToken(token).Ok? <==>
      HasTokenShape(token) && Canonical(Values(token, URL_SAFE))
    ensures ValidateHostToken(token) in {Ok(token), Err(Required), Err(NotCanonical)}
    ensures ValidateHostToken(token) == Err(Required) <==> |token| == 0
  {
    forall raw | Encodes(token, raw) ensures ValidateHostToken(token) == Ok(token) {
      EncodedShape(raw);
    }
    if HasTokenShape(token) {
      var values := Values(token, URL_SAFE);
      DecodeOfShape(token);
      EncodeOfDecode(values);
      TextOfValues(token, URL_SAFE);
      var raw := Decode(values).value;
      ValuesOfText(Encode(raw), URL_SAFE);
      assert EncodeToken(raw) == token <==> Encode(raw) == values;
      assert ValidateHostToken(token).Ok? ==> Encodes(token, raw);
    }
  }

  lemma TokenDeterminesBytes(token: string, raw: seq<Byte>, other: seq<Byte>)
    requires Encodes(token, raw) && Encodes(token, other)
    ensures raw == other
  {
    EncodedShape(raw);
    EncodedShape(other);
  }

  // What is generated passes validation, and holds the random bytes.
  lemma GeneratedIsAccepted(tokenBytes: int -> seq<Byte>)
    ensures var token, raw := GenerateHostToken(tokenBytes), tokenBytes(TOKEN_BYTES);
      if |raw| == TOKEN_BYTES
      then token.Ok? && ValidateHostToken(token.value) == token && DecodeToken(token.value) == Some(raw)
      else token == Err(GenerationFailed)
  {
    var raw := tokenBytes(TOKEN_BYTES);
    if |raw| == TOKEN_BYTES {
      EncodedShape(raw);
    }
  }
}
