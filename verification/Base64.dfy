/** Unpadded base64 with the standard and the URL alphabet (sections 4 and 5 of RFC 4648). */
module Base64 {
  import opened Common

  datatype Alphabet = Standard | Url

  type Sextet = n: nat | n < 64 witness 0

  function Symbol(alphabet: Alphabet, n: Sextet): char {
    if n < 26 then 'A' + n as char
    else if n < 52 then 'a' + (n - 26) as char
    else if n < 62 then '0' + (n - 52) as char
    else if n == 62 then (if alphabet.Standard? then '+' else '-')
    else (if alphabet.Standard? then '/' else '_')
  }

  function Value(alphabet: Alphabet, c: char): Option<Sextet> {
    if 'A' <= c <= 'Z' then Some((c - 'A') as int)
    else if 'a' <= c <= 'z' then Some((c - 'a') as int + 26)
    else if '0' <= c <= '9' then Some((c - '0') as int + 52)
    else if c == (if alphabet.Standard? then '+' else '-') then Some(62)
    else if c == (if alphabet.Standard? then '/' else '_') then Some(63)
    else None
  }

  // Three bytes as four sextets, and back.

  function S0(b0: Byte): Sextet { b0 as int / 4 }
  function S1(b0: Byte, b1: Byte): Sextet { b0 as int % 4 * 16 + b1 as int / 16 }
  function S2(b1: Byte, b2: Byte): Sextet { b1 as int % 16 * 4 + b2 as int / 64 }
  function S3(b2: Byte): Sextet { b2 as int % 64 }

  function B0(v0: Sextet, v1: Sextet): Byte { (v0 * 4 + v1 / 16) as Byte }
  function B1(v1: Sextet, v2: Sextet): Byte { (v1 % 16 * 16 + v2 / 4) as Byte }
  function B2(v2: Sextet, v3: Sextet): Byte { (v2 % 4 * 64 + v3) as Byte }

  lemma SextetsRoundTrip(b0: Byte, b1: Byte, b2: Byte)
    ensures B0(S0(b0), S1(b0, b1)) == b0
    ensures B1(S1(b0, b1), S2(b1, b2)) == b1
    ensures B2(S2(b1, b2), S3(b2)) == b2
  {
  }

  function Symbols(alphabet: Alphabet, sextets: seq<Sextet>): string {
    seq(|sextets|, i requires 0 <= i < |sextets| => Symbol(alphabet, sextets[i]))
  }

  function Encode(alphabet: Alphabet, bytes: Bytes): string {
    if |bytes| == 0 then []
    else if |bytes| == 1 then Symbols(alphabet, [S0(bytes[0]), S1(bytes[0], 0)])
    else if |bytes| == 2 then Symbols(alphabet, [S0(bytes[0]), S1(bytes[0], bytes[1]), S2(bytes[1], 0)])
    else
      Symbols(alphabet, [S0(bytes[0]), S1(bytes[0], bytes[1]), S2(bytes[1], bytes[2]), S3(bytes[2])])
      + Encode(alphabet, bytes[3..])
  }

  /** The table of the standard: 62 and 63 are the only symbols in which the two alphabets differ. */
  lemma SymbolsAreTheTable(alphabet: Alphabet)
    ensures forall n: Sextet :: n < 26 ==> Symbol(alphabet, n) == "ABCDEFGHIJKLMNOPQRSTUVWXYZ"[n]
    ensures forall n: Sextet :: 26 <= n < 52 ==> Symbol(alphabet, n) == "abcdefghijklmnopqrstuvwxyz"[n - 26]
    ensures forall n: Sextet :: 52 <= n < 62 ==> Symbol(alphabet, n) == "0123456789"[n - 52]
    ensures Symbol(Standard, 62) == '+' && Symbol(Standard, 63) == '/'
    ensures Symbol(Url, 62) == '-' && Symbol(Url, 63) == '_'
  {
  }

  function Number(digits: seq<Sextet>): nat
    requires |digits| == 4
  {
    var a: int, b: int, c: int, d: int := digits[0], digits[1], digits[2], digits[3];
    ((a * 64 + b) * 64 + c) * 64 + d
  }

  /** Three bytes are one number, written with four digits in base 64; one or two bytes are filled up with zeros. */
  lemma EncodesByDigits(alphabet: Alphabet, bytes: Bytes) returns (digits: seq<Sextet>)
    requires bytes != []
    ensures |digits| == 4
    ensures var b := bytes + [0, 0]; Number(digits) == b[0] as int * 0x1_0000 + b[1] as int * 0x100 + b[2] as int
    ensures Encode(alphabet, bytes) ==
            if |bytes| < 3 then Symbols(alphabet, digits[..|bytes| + 1])
            else Symbols(alphabet, digits) + Encode(alphabet, bytes[3..])
  {
    var b := bytes + [0, 0];
    digits := [S0(b[0]), S1(b[0], b[1]), S2(b[1], b[2]), S3(b[2])];
  }

  /** The decoder skips line breaks wherever they stand. */
  function WithoutBreaks(text: string): (rest: string)
    ensures |rest| <= |text|
  {
    if text == [] then []
    else if text[0] == '\n' || text[0] == '\r' then WithoutBreaks(text[1..])
    else [text[0]] + WithoutBreaks(text[1..])
  }

  function Decode(alphabet: Alphabet, text: string): Option<Bytes> {
    DecodeQuanta(alphabet, WithoutBreaks(text))
  }

  /** Four symbols give three bytes; a final two or three give one or two, their spare bits ignored. */
  function DecodeQuanta(alphabet: Alphabet, text: string): Option<Bytes> {
    if |text| == 0 then Some([])
    else if |text| == 1 then None
    else
      var v0, v1 := Value(alphabet, text[0]), Value(alphabet, text[1]);
      if v0.None? || v1.None? then None
      else if |text| == 2 then Some([B0(v0.value, v1.value)])
      else
        var v2 := Value(alphabet, text[2]);
        if v2.None? then None
        else if |text| == 3 then Some([B0(v0.value, v1.value), B1(v1.value, v2.value)])
        else
          var v3, rest := Value(alphabet, text[3]), DecodeQuanta(alphabet, text[4..]);
          if v3.None? || rest.None? then None
          else Some([B0(v0.value, v1.value), B1(v1.value, v2.value), B2(v2.value, v3.value)] + rest.value)
  }

  /** Only a text of nothing but line breaks decodes to no bytes. */
  lemma DecodesToNothingExactlyWhen(alphabet: Alphabet, text: string)
    ensures Decode(alphabet, text) == Some([]) <==> WithoutBreaks(text) == ""
  {
  }

  predicate InAlphabet(alphabet: Alphabet, text: string) {
    forall i :: 0 <= i < |text| ==> Value(alphabet, text[i]).Some?
  }

  lemma SymbolHasValue(alphabet: Alphabet, n: Sextet)
    ensures Value(alphabet, Symbol(alphabet, n)) == Some(n)
  {
  }

  lemma {:induction false} EncodedIsInAlphabet(alphabet: Alphabet, bytes: Bytes)
    ensures InAlphabet(alphabet, Encode(alphabet, bytes))
    decreases |bytes|
  {
    forall n: Sextet ensures Value(alphabet, Symbol(alphabet, n)).Some? { SymbolHasValue(alphabet, n); }
    if |bytes| > 2 { EncodedIsInAlphabet(alphabet, bytes[3..]); }
  }

  lemma {:induction false} NoBreaksToSkip(alphabet: Alphabet, text: string)
    requires InAlphabet(alphabet, text)
    ensures WithoutBreaks(text) == text
    decreases |text|
  {
    if text != [] {
      assert Value(alphabet, text[0]).Some?;
      NoBreaksToSkip(alphabet, text[1..]);
    }
  }

  lemma FullQuantum(alphabet: Alphabet, v0: Sextet, v1: Sextet, v2: Sextet, v3: Sextet, rest: string, tail: Bytes)
    requires DecodeQuanta(alphabet, rest) == Some(tail)
    ensures DecodeQuanta(alphabet, Symbols(alphabet, [v0, v1, v2, v3]) + rest) ==
            Some([B0(v0, v1), B1(v1, v2), B2(v2, v3)] + tail)
  {
    var text := Symbols(alphabet, [v0, v1, v2, v3]) + rest;
    SymbolHasValue(alphabet, v0);
    SymbolHasValue(alphabet, v1);
    SymbolHasValue(alphabet, v2);
    SymbolHasValue(alphabet, v3);
    assert text[4..] == rest;
  }

  lemma ShortQuantum(alphabet: Alphabet, v0: Sextet, v1: Sextet, v2: Sextet)
    ensures DecodeQuanta(alphabet, Symbols(alphabet, [v0, v1])) == Some([B0(v0, v1)])
    ensures DecodeQuanta(alphabet, Symbols(alphabet, [v0, v1, v2])) == Some([B0(v0, v1), B1(v1, v2)])
  {
    SymbolHasValue(alphabet, v0);
    SymbolHasValue(alphabet, v1);
    SymbolHasValue(alphabet, v2);
  }

  lemma LongStep(alphabet: Alphabet, bytes: Bytes, rest: string)
    requires |bytes| > 2 && rest == Encode(alphabet, bytes[3..]) && DecodeQuanta(alphabet, rest) == Some(bytes[3..])
    ensures DecodeQuanta(alphabet, Encode(alphabet, bytes)) == Some(bytes)
  {
    var b0, b1, b2 := bytes[0], bytes[1], bytes[2];
    FullQuantum(alphabet, S0(b0), S1(b0, b1), S2(b1, b2), S3(b2), rest, bytes[3..]);
    SextetsRoundTrip(b0, b1, b2);
    assert bytes == [b0, b1, b2] + bytes[3..];
  }

  lemma OneByte(alphabet: Alphabet, b0: Byte)
    ensures DecodeQuanta(alphabet, Encode(alphabet, [b0])) == Some([b0])
  {
    ShortQuantum(alphabet, S0(b0), S1(b0, 0), 0);
    SextetsRoundTrip(b0, 0, 0);
  }

  lemma TwoBytes(alphabet: Alphabet, b0: Byte, b1: Byte)
    ensures DecodeQuanta(alphabet, Encode(alphabet, [b0, b1])) == Some([b0, b1])
  {
    ShortQuantum(alphabet, S0(b0), S1(b0, b1), S2(b1, 0));
    SextetsRoundTrip(b0, b1, 0);
  }

  lemma {:induction false} QuantaRoundTrip(alphabet: Alphabet, bytes: Bytes)
    ensures DecodeQuanta(alphabet, Encode(alphabet, bytes)) == Some(bytes)
    decreases |bytes|
  {
    if |bytes| > 2 {
      QuantaRoundTrip(alphabet, bytes[3..]);
      LongStep(alphabet, bytes, Encode(alphabet, bytes[3..]));
    } else if |bytes| == 2 {
      TwoBytes(alphabet, bytes[0], bytes[1]);
      assert bytes == [bytes[0], bytes[1]];
    } else if |bytes| == 1 {
      OneByte(alphabet, bytes[0]);
      assert bytes == [bytes[0]];
    }
  }

  lemma RoundTrip(alphabet: Alphabet, bytes: Bytes)
    ensures Decode(alphabet, Encode(alphabet, bytes)) == Some(bytes)
  {
    EncodedIsInAlphabet(alphabet, bytes);
    NoBreaksToSkip(alphabet, Encode(alphabet, bytes));
    QuantaRoundTrip(alphabet, bytes);
  }

  /** A character outside the alphabet never occurs in encoded text. */
  lemma NeverEncoded(alphabet: Alphabet, bytes: Bytes, c: char)
    requires Value(alphabet, c).None?
    ensures c !in Encode(alphabet, bytes)
  {
    EncodedIsInAlphabet(alphabet, bytes);
  }
}
