// Base64 as in sections 4 and 5 of RFC 4648: bytes, six-bit values and characters.
module Base64 {
  import opened Common

  type Byte = x: int | 0 <= x < 256
  type Sextet = x: int | 0 <= x < 64

  // ---------- Groups ----------

  function EncodeGroup(a: Byte, b: Byte, c: Byte): seq<Sextet> {
    [a / 4, a % 4 * 16 + b / 16, b % 16 * 4 + c / 64, c % 64]
  }

  function DecodeGroup(v: Sextet, w: Sextet, x: Sextet, y: Sextet): seq<Byte> {
    [v as int * 4 + w / 16, w as int % 16 * 16 + x / 4, x as int % 4 * 64 + y]
  }

  // The last one or two bytes; the spare bits are zero.
  function EncodeTail(bytes: seq<Byte>): (values: seq<Sextet>)
    requires |bytes| < 3
  {
    if bytes == [] then []
    else if |bytes| == 1 then [bytes[0] / 4, bytes[0] % 4 * 16]
    else [bytes[0] / 4, bytes[0] % 4 * 16 + bytes[1] / 16, bytes[1] % 16 * 4]
  }

  // One value is no encoding; spare bits are dropped.
  function DecodeTail(values: seq<Sextet>): Option<seq<Byte>>
    requires |values| < 4
  {
    if values == [] then Some([])
    else if |values| == 1 then None
    else if |values| == 2 then Some([values[0] as int * 4 + values[1] / 16])
    else Some([values[0] as int * 4 + values[1] / 16, values[1] as int % 16 * 16 + values[2] / 4])
  }

  function Encode(bytes: seq<Byte>): (values: seq<Sextet>)
    ensures |values| == (|bytes| * 4 + 2) / 3
  {
    if |bytes| < 3 then EncodeTail(bytes)
    else EncodeGroup(bytes[0], bytes[1], bytes[2]) + Encode(bytes[3..])
  }

  function Decode(values: seq<Sextet>): (bytes: Option<seq<Byte>>)
    ensures bytes.Some? <==> |values| % 4 != 1
    ensures bytes.Some? ==> |bytes.value| == |values| * 3 / 4
  {
    if |values| < 4 then DecodeTail(values)
    else
      GroupLengths(|values|);
      match Decode(values[4..])
      case None => None
      case Some(rest) => Some(DecodeGroup(values[0], values[1], values[2], values[3]) + rest)
  }

  lemma GroupLengths(n: nat)
    requires n >= 4
    ensures (n - 4) % 4 == n % 4 && (n - 4) * 3 / 4 + 3 == n * 3 / 4
  {
  }

  // The spare bits are zero, as section 3.5 of RFC 4648 asks.
  predicate Canonical(values: seq<Sextet>) {
    && |values| % 4 != 1
    && (|values| % 4 == 2 ==> values[|values| - 1] % 16 == 0)
    && (|values| % 4 == 3 ==> values[|values| - 1] % 4 == 0)
  }

  // A group is the number that its bytes make, in four digits of sixty-four.
  lemma GroupIsNumber(a: Byte, b: Byte, c: Byte)
    ensures var values := EncodeGroup(a, b, c);
      ((values[0] as int * 64 + values[1]) * 64 + values[2]) * 64 + values[3] == (a as int * 256 + b) * 256 + c
  {
  }

  // So is a tail, with zero bits behind its last byte up to a whole digit.
  lemma TailIsNumber(bytes: seq<Byte>)
    requires 0 < |bytes| < 3
    ensures var values := EncodeTail(bytes);
      && (|bytes| == 1 ==> |values| == 2 && values[0] as int * 64 + values[1] == bytes[0] as int * 16)
      && (|bytes| == 2 ==>
            |values| == 3
            && (values[0] as int * 64 + values[1]) * 64 + values[2] == (bytes[0] as int * 256 + bytes[1]) * 4)
  {
  }

  lemma DecodeOfEncodeTail(bytes: seq<Byte>)
    requires |bytes| < 3
    ensures DecodeTail(EncodeTail(bytes)) == Some(bytes)
  {
    if |bytes| == 1 {
      Shifted(bytes[0] % 4, 0);
      assert bytes == [bytes[0]];
    } else if |bytes| == 2 {
      Shifted(bytes[0] % 4, bytes[1] / 16);
      Shifted(bytes[1] % 16, 0);
      assert bytes == [bytes[0], bytes[1]];
    }
  }

  lemma DecodeOfGroup(a: Byte, b: Byte, c: Byte)
    ensures var values := EncodeGroup(a, b, c);
      DecodeGroup(values[0], values[1], values[2], values[3]) == [a, b, c]
  {
  }

  lemma Shifted(q: nat, r: nat)
    ensures r < 4 ==> (q * 4 + r) / 4 == q && (q * 4 + r) % 4 == r
    ensures r < 16 ==> (q * 16 + r) / 16 == q && (q * 16 + r) % 16 == r
    ensures r < 64 ==> (q * 64 + r) / 64 == q && (q * 64 + r) % 64 == r
  {
  }

  lemma EncodeOfGroup(v: Sextet, w: Sextet, x: Sextet, y: Sextet)
    ensures var bytes := DecodeGroup(v, w, x, y);
      EncodeGroup(bytes[0], bytes[1], bytes[2]) == [v, w, x, y]
  {
    Shifted(v, w / 16);
    Shifted(w as int % 16, x / 4);
    Shifted(x as int % 4, y);
  }

  lemma DecodeStep(group: seq<Sextet>, rest: seq<Sextet>)
    requires |group| == 4
    ensures Decode(group + rest)
      == match Decode(rest)
         case None => None
         case Some(bytes) => Some(DecodeGroup(group[0], group[1], group[2], group[3]) + bytes)
  {
    assert (group + rest)[4..] == rest;
  }

  lemma EncodeStep(group: seq<Byte>, rest: seq<Byte>)
    requires |group| == 3
    ensures Encode(group + rest) == EncodeGroup(group[0], group[1], group[2]) + Encode(rest)
  {
    assert (group + rest)[3..] == rest;
  }

  lemma {:induction false} DecodeOfEncode(bytes: seq<Byte>)
    ensures Decode(Encode(bytes)) == Some(bytes)
    decreases |bytes|
  {
    if |bytes| < 3 {
      DecodeOfEncodeTail(bytes);
    } else {
      DecodeOfEncode(bytes[3..]);
      DecodeStep(EncodeGroup(bytes[0], bytes[1], bytes[2]), Encode(bytes[3..]));
      DecodeOfGroup(bytes[0], bytes[1], bytes[2]);
      assert bytes == [bytes[0], bytes[1], bytes[2]] + bytes[3..];
    }
  }

  lemma CanonicalStep(group: seq<Sextet>, rest: seq<Sextet>)
    requires |group| == 4
    ensures Canonical(group + rest) <==> Canonical(rest)
  {
  }

  lemma {:induction false} EncodeIsCanonical(bytes: seq<Byte>)
    ensures Canonical(Encode(bytes))
    decreases |bytes|
  {
    if |bytes| >= 3 {
      EncodeIsCanonical(bytes[3..]);
      CanonicalStep(EncodeGroup(bytes[0], bytes[1], bytes[2]), Encode(bytes[3..]));
    }
  }

  lemma EncodeOfTail(values: seq<Sextet>)
    requires |values| < 4 && |values| != 1
    ensures EncodeTail(DecodeTail(values).value) == values <==> Canonical(values)
  {
    if |values| == 2 {
      assert EncodeTail(DecodeTail(values).value) == [values[0], values[1] / 16 * 16];
      assert values == [values[0], values[1]];
    } else if |values| == 3 {
      assert EncodeTail(DecodeTail(values).value) == [values[0], values[1], values[2] / 4 * 4];
      assert values == [values[0], values[1], values[2]];
    }
  }

  lemma SameBehind(head: seq<Sextet>, a: seq<Sextet>, b: seq<Sextet>)
    ensures head + a == head + b <==> a == b
  {
    if head + a == head + b {
      assert a == (head + a)[|head|..] == b;
    }
  }

  // Encoding what was decoded gives the values back if and only if they were canonical.
  lemma {:induction false} EncodeOfDecode(values: seq<Sextet>)
    requires |values| % 4 != 1
    ensures Encode(Decode(values).value) == values <==> Canonical(values)
    decreases |values|
  {
    if |values| < 4 {
      EncodeOfTail(values);
    } else {
      var head, rest := [values[0], values[1], values[2], values[3]], values[4..];
      EncodeOfDecode(rest);
      assert values == head + rest;
      DecodeStep(head, rest);
      EncodeStep(DecodeGroup(head[0], head[1], head[2], head[3]), Decode(rest).value);
      EncodeOfGroup(head[0], head[1], head[2], head[3]);
      SameBehind(head, Encode(Decode(rest).value), rest);
      CanonicalStep(head, rest);
    }
  }

  // ---------- Characters ----------

  // The two alphabets differ in their last two characters.
  datatype Alphabet = Alphabet(next: char, last: char)

  const STANDARD := Alphabet('+', '/')
  const URL_SAFE := Alphabet('-', '_')

  function CharOf(v: Sextet, alphabet: Alphabet): char {
    if v < 26 then 'A' + v as char
    else if v < 52 then 'a' + (v - 26) as char
    else if v < 62 then '0' + (v - 52) as char
    else if v == 62 then alphabet.next
    else alphabet.last
  }

  function ValueOf(c: char, alphabet: Alphabet): Option<Sextet> {
    if 'A' <= c <= 'Z' then Some(c as int - 'A' as int)
    else if 'a' <= c <= 'z' then Some(c as int - 'a' as int + 26)
    else if '0' <= c <= '9' then Some(c as int - '0' as int + 52)
    else if c == alphabet.next then Some(62)
    else if c == alphabet.last then Some(63)
    else None
  }

  // The alphabets of sections 4 and 5 of RFC 4648: capital letters, small letters, digits, each in
  // order, and two more.
  lemma AlphabetIs(v: Sextet)
    ensures CharOf(0, STANDARD) == 'A' && CharOf(25, STANDARD) == 'Z'
    ensures CharOf(26, STANDARD) == 'a' && CharOf(51, STANDARD) == 'z'
    ensures CharOf(52, STANDARD) == '0' && CharOf(61, STANDARD) == '9'
    ensures v < 61 && v != 25 && v != 51 ==> CharOf(v + 1, STANDARD) as int == CharOf(v, STANDARD) as int + 1
    ensures CharOf(62, STANDARD) == '+' && CharOf(63, STANDARD) == '/'
    ensures CharOf(62, URL_SAFE) == '-' && CharOf(63, URL_SAFE) == '_'
    ensures v < 62 ==> CharOf(v, URL_SAFE) == CharOf(v, STANDARD)
  {
  }

  predicate InAlphabet(text: string, alphabet: Alphabet) {
    forall i :: 0 <= i < |text| ==> ValueOf(text[i], alphabet).Some?
  }

  function Text(values: seq<Sextet>, alphabet: Alphabet): (text: string)
    ensures |text| == |values|
  {
    seq(|values|, i requires 0 <= i < |values| => CharOf(values[i], alphabet))
  }

  function Values(text: string, alphabet: Alphabet): (values: seq<Sextet>)
    requires InAlphabet(text, alphabet)
    ensures |values| == |text|
  {
    seq(|text|, i requires 0 <= i < |text| => ValueOf(text[i], alphabet).value)
  }

  lemma TextOfValues(text: string, alphabet: Alphabet)
    requires alphabet in {STANDARD, URL_SAFE} && InAlphabet(text, alphabet)
    ensures Text(Values(text, alphabet), alphabet) == text
  {
  }

  lemma ValuesOfText(values: seq<Sextet>, alphabet: Alphabet)
    requires alphabet in {STANDARD, URL_SAFE}
    ensures InAlphabet(Text(values, alphabet), alphabet)
    ensures Values(Text(values, alphabet), alphabet) == values
  {
    forall i | 0 <= i < |values| ensures ValueOf(Text(values, alphabet)[i], alphabet) == Some(values[i]) {
    }
  }

  // ---------- Padding ----------

  function Padding(n: nat): string {
    seq(n, i => '=')
  }

  function WithoutPadding(text: string): (data: string)
    ensures |data| <= |text| && data == text[..|data|]
    ensures forall i :: |data| <= i < |text| ==> text[i] == '='
    ensures data == "" || data[|data| - 1] != '='
  {
    if text != "" && text[|text| - 1] == '=' then WithoutPadding(text[..|text| - 1]) else text
  }

  lemma {:induction false} PaddingIsDropped(data: string, n: nat)
    requires data == "" || data[|data| - 1] != '='
    ensures WithoutPadding(data + Padding(n)) == data
  {
    var text := data + Padding(n);
    if n == 0 {
      assert text == data;
    } else {
      PaddingIsDropped(data, n - 1);
      assert text[..|text| - 1] == data + Padding(n - 1);
    }
  }

  // Decoding that takes any number of padding characters for granted.
  function DecodeText(text: string, alphabet: Alphabet): Option<seq<Byte>> {
    var data := WithoutPadding(text);
    if InAlphabet(data, alphabet) then Decode(Values(data, alphabet)) else None
  }

  lemma TextRoundTrip(bytes: seq<Byte>, n: nat, alphabet: Alphabet)
    requires alphabet in {STANDARD, URL_SAFE}
    ensures var data := Text(Encode(bytes), alphabet);
      WithoutPadding(data + Padding(n)) == data && DecodeText(data + Padding(n), alphabet) == Some(bytes)
  {
    var values := Encode(bytes);
    var data := Text(values, alphabet);
    ValuesOfText(values, alphabet);
    if data != "" {
      assert ValueOf(data[|data| - 1], alphabet).Some?;
    }
    PaddingIsDropped(data, n);
    DecodeOfEncode(bytes);
  }
}
