/** The byte-level encodings: decimal lengths and the DSSE pre-authentication
    encoding, hexadecimal, and base64 with canonical padding. */
module Codecs {
  import opened Wrappers
  import opened Evidence

  // ---- Decimal ----

  const ZERO: byte := 48
  const SPACE: byte := 32

  predicate IsDigit(b: byte) {
    ZERO <= b < ZERO + 10
  }

  /** The ASCII decimal digits of a length. */
  function Decimal(n: nat): (r: Bytes)
    ensures r != [] && forall i | 0 <= i < |r| :: IsDigit(r[i])
  {
    if n < 10 then [ZERO + n] else Decimal(n / 10) + [ZERO + n % 10]
  }

  function DecimalValue(digits: Bytes): nat
    requires forall i | 0 <= i < |digits| :: IsDigit(digits[i])
  {
    if digits == [] then 0
    else
      var last := digits[|digits| - 1];
      assert IsDigit(last);
      10 * DecimalValue(digits[..|digits| - 1]) + (last - ZERO)
  }

  lemma {:induction false} DecimalRoundTrip(n: nat)
    ensures DecimalValue(Decimal(n)) == n
  {
    if n >= 10 {
      DecimalRoundTrip(n / 10);
      assert Decimal(n)[..|Decimal(n)| - 1] == Decimal(n / 10);
    }
  }

  /** ASCII bytes as text. */
  function TextOf(bytes: Bytes): string {
    seq(|bytes|, i requires 0 <= i < |bytes| => bytes[i] as char)
  }

  // ---- DSSE pre-authentication encoding ----

  /** "DSSEv1 " */
  const PAE_PREFIX: Bytes := [68, 83, 83, 69, 118, 49, 32]

  /** One length-prefixed field. */
  function Sized(field: Bytes): Bytes {
    Decimal(|field|) + [SPACE] + field
  }

  /** PAE(type, body) = "DSSEv1" SP LEN(type) SP type SP LEN(body) SP body */
  function Pae(payloadType: Bytes, payload: Bytes): Bytes {
    PAE_PREFIX + Sized(payloadType) + [SPACE] + Sized(payload)
  }

  method DssePae(payloadType: Bytes, payload: Bytes) returns (pae: Bytes)
    ensures pae == Pae(payloadType, payload)
  {
    pae := PAE_PREFIX;
    pae := pae + Decimal(|payloadType|) + [SPACE] + payloadType;
    pae := pae + [SPACE] + Decimal(|payload|) + [SPACE];
    pae := pae + payload;
    assert pae == Pae(payloadType, payload);
  }

  /** How many digits a text starts with. */
  function Digits(b: Bytes): (n: nat)
    ensures n <= |b| && forall i | 0 <= i < n :: IsDigit(b[i])
  {
    if b == [] || !IsDigit(b[0]) then 0 else 1 + Digits(b[1..])
  }

  /** Reads one length-prefixed field: the field and what follows it. */
  function ReadSized(b: Bytes): Option<(Bytes, Bytes)> {
    var n := Digits(b);
    if n == 0 || n == |b| || b[n] != SPACE then None
    else
      var size := DecimalValue(b[..n]);
      var rest := b[n + 1..];
      if Decimal(size) != b[..n] || |rest| < size then None else Some((rest[..size], rest[size..]))
  }

  /** Reads back what `Pae` wrote, trusting the lengths and never the contents. */
  function ReadPae(b: Bytes): Option<(Bytes, Bytes)> {
    if !(PAE_PREFIX <= b) then None
    else
      match ReadSized(b[|PAE_PREFIX|..])
      case None => None
      case Some((payloadType, rest)) =>
        if rest == [] || rest[0] != SPACE then None
        else
          match ReadSized(rest[1..])
          case None => None
          case Some((payload, end)) => if end == [] then Some((payloadType, payload)) else None
  }

  lemma {:induction false} DigitsOf(digits: Bytes, rest: Bytes)
    requires forall i | 0 <= i < |digits| :: IsDigit(digits[i])
    requires rest != [] && !IsDigit(rest[0])
    ensures Digits(digits + rest) == |digits|
  {
    if digits == [] {
      assert digits + rest == rest;
    } else {
      assert (digits + rest)[1..] == digits[1..] + rest;
      DigitsOf(digits[1..], rest);
    }
  }

  lemma ReadSizedRoundTrip(field: Bytes, rest: Bytes)
    ensures ReadSized(Sized(field) + rest) == Some((field, rest))
  {
    var digits := Decimal(|field|);
    var b := Sized(field) + rest;
    assert b == digits + ([SPACE] + field + rest);
    DigitsOf(digits, [SPACE] + field + rest);
    DecimalRoundTrip(|field|);
    assert b[..|digits|] == digits;
    assert b[|digits| + 1..] == field + rest;
  }

  /** The encoding can be read back whatever bytes the type and the payload hold. */
  lemma PaeRoundTrip(payloadType: Bytes, payload: Bytes)
    ensures ReadPae(Pae(payloadType, payload)) == Some((payloadType, payload))
  {
    var b := Pae(payloadType, payload);
    var rest := [SPACE] + Sized(payload);
    assert b[|PAE_PREFIX|..] == Sized(payloadType) + rest;
    ReadSizedRoundTrip(payloadType, rest);
    assert rest[1..] == Sized(payload) + [];
    ReadSizedRoundTrip(payload, []);
  }

  lemma ReadSizedIsSized(b: Bytes)
    requires ReadSized(b).Some?
    ensures b == Sized(ReadSized(b).value.0) + ReadSized(b).value.1
  {
    var n := Digits(b);
    var (field, rest) := ReadSized(b).value;
    assert b[n + 1..] == field + rest;
    assert b == b[..n] + [b[n]] + b[n + 1..];
  }

  lemma SplitSized(b: Bytes, field: Bytes, rest: Bytes)
    requires ReadSized(b) == Some((field, rest))
    ensures b == Sized(field) + rest
  {
    ReadSizedIsSized(b);
  }

  lemma ReadPaeIsPae(b: Bytes, payloadType: Bytes, payload: Bytes)
    requires ReadPae(b) == Some((payloadType, payload))
    ensures b == Pae(payloadType, payload)
  {
    var tail := b[|PAE_PREFIX|..];
    var rest := ReadSized(tail).value.1;
    SplitSized(tail, payloadType, rest);
    SplitSized(rest[1..], payload, []);
    PaeParts(b, tail, payloadType, rest, payload);
  }

  lemma PaeParts(b: Bytes, tail: Bytes, payloadType: Bytes, rest: Bytes, payload: Bytes)
    requires PAE_PREFIX <= b && tail == b[|PAE_PREFIX|..] && tail == Sized(payloadType) + rest
    requires rest != [] && rest[0] == SPACE && rest[1..] == Sized(payload) + []
    ensures b == Pae(payloadType, payload)
  {
    assert rest == [SPACE] + Sized(payload);
    assert b == PAE_PREFIX + tail;
  }

  /** A text is an encoding exactly when it can be read, so no text encodes two pairs. */
  lemma PaeIsInjective(b: Bytes, payloadType: Bytes, payload: Bytes)
    ensures b == Pae(payloadType, payload) <==> ReadPae(b) == Some((payloadType, payload))
  {
    PaeRoundTrip(payloadType, payload);
    if ReadPae(b) == Some((payloadType, payload)) {
      ReadPaeIsPae(b, payloadType, payload);
    }
  }

  // ---- Hexadecimal ----

  const HEX := "0123456789abcdef"

  function HexValue(c: char): (r: Option<nat>)
    ensures r.Some? ==> r.value < 16
  {
    if '0' <= c <= '9' then Some((c - '0') as nat)
    else if 'a' <= c <= 'f' then Some((c - 'a') as nat + 10)
    else if 'A' <= c <= 'F' then Some((c - 'A') as nat + 10)
    else None
  }

  function HexEncode(b: Bytes): (s: string)
    ensures |s| == 2 * |b|
  {
    if b == [] then "" else [HEX[b[0] / 16], HEX[b[0] % 16]] + HexEncode(b[1..])
  }

  function HexByte(high: char, low: char): Option<byte> {
    if HexValue(high).None? || HexValue(low).None? then None
    else Some(HexValue(high).value * 16 + HexValue(low).value)
  }

  /** Accepts both cases. */
  function HexDecode(s: string): Option<Bytes> {
    if s == "" then Some([])
    else if |s| == 1 then None
    else
      var first := HexByte(s[0], s[1]);
      var rest := HexDecode(s[2..]);
      if first.None? || rest.None? then None else Some([first.value] + rest.value)
  }

  predicate IsLowerHex(s: string) {
    forall i | 0 <= i < |s| :: s[i] in HEX
  }

  function LowerHexDigit(c: char): char {
    if 'A' <= c <= 'F' then 'a' + (c - 'A') else c
  }

  function LowerHex(s: string): string {
    seq(|s|, i requires 0 <= i < |s| => LowerHexDigit(s[i]))
  }

  lemma HexDigitRoundTrip(n: nat)
    requires n < 16
    ensures HexValue(HEX[n]) == Some(n)
  {
    assert HEX[n] == if n < 10 then '0' + n as char else 'a' + (n - 10) as char;
  }

  lemma HexDigitUnique(c: char)
    requires HexValue(c).Some?
    ensures HEX[HexValue(c).value] == LowerHexDigit(c)
  {
    var n := HexValue(c).value;
    assert HEX[n] == if n < 10 then '0' + n as char else 'a' + (n - 10) as char;
  }

  lemma HexByteRoundTrip(b: byte)
    ensures HexByte(HEX[b / 16], HEX[b % 16]) == Some(b)
    ensures HEX[b / 16] in HEX && HEX[b % 16] in HEX
  {
    HexDigitRoundTrip(b / 16);
    HexDigitRoundTrip(b % 16);
  }

  lemma HexByteUnique(high: char, low: char)
    requires HexByte(high, low).Some?
    ensures var b := HexByte(high, low).value;
      HEX[b / 16] == LowerHexDigit(high) && HEX[b % 16] == LowerHexDigit(low)
  {
    HexDigitUnique(high);
    HexDigitUnique(low);
    var b := HexByte(high, low).value;
    assert b / 16 == HexValue(high).value && b % 16 == HexValue(low).value;
  }

  /** Decoding undoes encoding, and what is encoded is lower case. */
  lemma {:induction false} HexRoundTrip(b: Bytes)
    ensures HexDecode(HexEncode(b)) == Some(b) && IsLowerHex(HexEncode(b))
  {
    if b != [] {
      HexByteRoundTrip(b[0]);
      HexRoundTrip(b[1..]);
      var s := HexEncode(b);
      assert s[2..] == HexEncode(b[1..]);
      assert b == [b[0]] + b[1..];
      forall i | 0 <= i < |s|
        ensures s[i] in HEX
      {
        if i >= 2 {
          assert s[i] == HexEncode(b[1..])[i - 2];
        }
      }
    }
  }

  /** A text decodes to the bytes whose encoding it is, up to the case of its digits. */
  lemma {:induction false} HexDecodeIsEncoded(s: string)
    requires HexDecode(s).Some?
    ensures HexEncode(HexDecode(s).value) == LowerHex(s)
  {
    if s != "" {
      HexByteUnique(s[0], s[1]);
      HexDecodeIsEncoded(s[2..]);
      var b := HexDecode(s).value;
      assert b[1..] == HexDecode(s[2..]).value;
      assert LowerHex(s) == [LowerHexDigit(s[0]), LowerHexDigit(s[1])] + LowerHex(s[2..]);
    }
  }

  // ---- Base64 ----

  type sextet = n: int | 0 <= n < 64

  function Base64Char(n: sextet): char {
    if n < 26 then 'A' + n as char
    else if n < 52 then 'a' + (n - 26) as char
    else if n < 62 then '0' + (n - 52) as char
    else if n == 62 then '+'
    else '/'
  }

  function Base64Value(c: char): Option<sextet> {
    if 'A' <= c <= 'Z' then Some((c - 'A') as int)
    else if 'a' <= c <= 'z' then Some((c - 'a') as int + 26)
    else if '0' <= c <= '9' then Some((c - '0') as int + 52)
    else if c == '+' then Some(62)
    else if c == '/' then Some(63)
    else None
  }

  lemma Base64CharRoundTrip(n: sextet)
    ensures Base64Value(Base64Char(n)) == Some(n) && Base64Char(n) != '='
  {
  }

  lemma Base64ValueRoundTrip(c: char)
    requires Base64Value(c).Some?
    ensures Base64Char(Base64Value(c).value) == c
  {
  }

  /** Up to three bytes, six bits at a time. */
  function Sextets(b: Bytes): (v: seq<sextet>)
    requires 1 <= |b| <= 3
    ensures |v| == |b| + 1
  {
    if |b| == 1 then [b[0] / 4, b[0] % 4 * 16]
    else if |b| == 2 then [b[0] / 4, b[0] % 4 * 16 + b[1] / 16, b[1] % 16 * 4]
    else [b[0] / 4, b[0] % 4 * 16 + b[1] / 16, b[1] % 16 * 4 + b[2] / 64, b[2] % 64]
  }

  /** The bits left over must be zero. */
  predicate PaddingIsZero(v: seq<sextet>) {
    (|v| == 2 ==> v[1] % 16 == 0) && (|v| == 3 ==> v[2] % 4 == 0)
  }

  function FromSextets(v: seq<sextet>): (b: Bytes)
    requires 2 <= |v| <= 4
    ensures |b| == |v| - 1
  {
    var v0: int, v1: int := v[0], v[1];
    var v2: int := if |v| > 2 then v[2] else 0;
    var v3: int := if |v| > 3 then v[3] else 0;
    if |v| == 2 then [v0 * 4 + v1 / 16]
    else if |v| == 3 then [v0 * 4 + v1 / 16, v1 % 16 * 16 + v2 / 4]
    else [v0 * 4 + v1 / 16, v1 % 16 * 16 + v2 / 4, v2 % 4 * 64 + v3]
  }

  function Chars(v: seq<sextet>): (s: string)
    ensures |s| == |v|
  {
    seq(|v|, i requires 0 <= i < |v| => Base64Char(v[i]))
  }

  function ReadChars(s: string): (v: Option<seq<sextet>>)
    ensures v.Some? ==> |v.value| == |s|
  {
    if s == "" then Some([])
    else
      var first := Base64Value(s[0]);
      var rest := ReadChars(s[1..]);
      if first.None? || rest.None? then None else Some([first.value] + rest.value)
  }

  /** Up to three bytes as four characters. */
  function Group(b: Bytes): (s: string)
    requires 1 <= |b| <= 3
    ensures |s| == 4
  {
    Chars(Sextets(b)) + (if |b| == 1 then "==" else if |b| == 2 then "=" else "")
  }

  /** How many of four characters come before the padding. */
  function Significant(s: string): (n: nat)
    requires |s| == 4
    ensures 2 <= n <= 4
  {
    if s[3] != '=' then 4 else if s[2] != '=' then 3 else 2
  }

  /** Four characters as up to three bytes. */
  function Quad(s: string): (r: Option<Bytes>)
    requires |s| == 4
    ensures r.Some? ==> |r.value| == Significant(s) - 1
  {
    match ReadChars(s[..Significant(s)])
    case None => None
    case Some(v) => if PaddingIsZero(v) then Some(FromSextets(v)) else None
  }

  function Base64Encode(b: Bytes): string {
    if b == [] then ""
    else if |b| <= 3 then Group(b)
    else Group(b[..3]) + Base64Encode(b[3..])
  }

  /** Padding must be present, and only at the end. */
  function Base64Decode(s: string): Option<Bytes> {
    if s == "" then Some([])
    else if |s| < 4 then None
    else
      match Quad(s[..4])
      case None => None
      case Some(b) =>
        if |s| == 4 then Some(b)
        else if |b| < 3 then None
        else
          match Base64Decode(s[4..])
          case None => None
          case Some(rest) => Some(b + rest)
  }

  lemma SextetsOfBytes(b: Bytes)
    requires 1 <= |b| <= 3
    ensures FromSextets(Sextets(b)) == b && PaddingIsZero(Sextets(b))
  {
  }

  lemma TwoSextets(v0: int, v1: int)
    requires 0 <= v0 < 64 && 0 <= v1 < 64
    ensures (v0 * 4 + v1 / 16) / 4 == v0 && (v0 * 4 + v1 / 16) % 4 == v1 / 16
  {
  }

  lemma MiddleSextets(v1: int, v2: int)
    requires 0 <= v1 < 64 && 0 <= v2 < 64
    ensures (v1 % 16 * 16 + v2 / 4) / 16 == v1 % 16 && (v1 % 16 * 16 + v2 / 4) % 16 == v2 / 4
  {
  }

  lemma LastSextets(v2: int, v3: int)
    requires 0 <= v2 < 64 && 0 <= v3 < 64
    ensures (v2 % 4 * 64 + v3) / 64 == v2 % 4 && (v2 % 4 * 64 + v3) % 64 == v3
  {
  }

  lemma BytesOfSextets(v: seq<sextet>)
    requires 2 <= |v| <= 4 && PaddingIsZero(v)
    ensures Sextets(FromSextets(v)) == v
  {
    TwoSextets(v[0], v[1]);
    if |v| == 2 {
      assert v == [v[0], v[1]];
    } else if |v| == 3 {
      MiddleSextets(v[1], v[2]);
      assert v == [v[0], v[1], v[2]];
    } else {
      MiddleSextets(v[1], v[2]);
      LastSextets(v[2], v[3]);
      assert v == [v[0], v[1], v[2], v[3]];
    }
  }

  lemma {:induction false} ReadCharsOfChars(v: seq<sextet>)
    ensures ReadChars(Chars(v)) == Some(v)
  {
    if v != [] {
      Base64CharRoundTrip(v[0]);
      assert Chars(v)[1..] == Chars(v[1..]);
      ReadCharsOfChars(v[1..]);
      assert v == [v[0]] + v[1..];
    }
  }

  lemma {:induction false} CharsOfReadChars(s: string)
    requires ReadChars(s).Some?
    ensures Chars(ReadChars(s).value) == s
  {
    if s != "" {
      Base64ValueRoundTrip(s[0]);
      CharsOfReadChars(s[1..]);
      assert Chars(ReadChars(s).value) == [s[0]] + Chars(ReadChars(s[1..]).value);
    }
  }

  lemma NoPaddingInChars(v: seq<sextet>, i: nat)
    requires i < |v|
    ensures Chars(v)[i] != '='
  {
    Base64CharRoundTrip(v[i]);
  }

  lemma QuadOfGroup(b: Bytes)
    requires 1 <= |b| <= 3
    ensures Quad(Group(b)) == Some(b)
  {
    var v := Sextets(b);
    NoPaddingInChars(v, |v| - 1);
    assert Group(b)[..|v|] == Chars(v);
    ReadCharsOfChars(v);
    SextetsOfBytes(b);
  }

  lemma GroupOfQuad(s: string)
    requires |s| == 4 && Quad(s).Some?
    ensures Group(Quad(s).value) == s
  {
    var n := Significant(s);
    CharsOfReadChars(s[..n]);
    BytesOfSextets(ReadChars(s[..n]).value);
    assert s == s[..n] + s[n..];
  }

  /** Decoding undoes encoding. */
  lemma {:induction false} Base64RoundTrip(b: Bytes)
    ensures Base64Decode(Base64Encode(b)) == Some(b)
  {
    if 1 <= |b| <= 3 {
      QuadOfGroup(b);
      assert Group(b)[..4] == Group(b);
    } else if |b| > 3 {
      QuadOfGroup(b[..3]);
      Base64RoundTrip(b[3..]);
      var s := Base64Encode(b);
      assert s[..4] == Group(b[..3]) && s[4..] == Base64Encode(b[3..]);
      assert Base64Encode(b[3..]) != "";
      assert b == b[..3] + b[3..];
    }
  }

  /** Encoding undoes decoding: each accepted text is the one encoding of its bytes. */
  lemma {:induction false} Base64DecodeIsEncoded(s: string)
    requires Base64Decode(s).Some?
    ensures s == Base64Encode(Base64Decode(s).value)
    ensures s != "" ==> Base64Decode(s).value != []
    decreases |s|
  {
    if s != "" {
      GroupOfQuad(s[..4]);
      var first := Quad(s[..4]).value;
      if |s| == 4 {
        assert s[..4] == s;
      } else {
        Base64DecodeIsEncoded(s[4..]);
        var b := first + Base64Decode(s[4..]).value;
        assert b[..3] == first && b[3..] == Base64Decode(s[4..]).value;
        assert s == s[..4] + s[4..];
      }
    }
  }

  /** Four characters for every three bytes begun. */
  lemma {:induction false} Base64Length(b: Bytes)
    ensures |Base64Encode(b)| == (|b| + 2) / 3 * 4
  {
    if |b| > 3 {
      Base64Length(b[3..]);
    }
  }

  // ---- Against the published alphabets and examples ----

  const UPPER := "ABCDEFGHIJKLMNOPQRSTUVWXYZ"
  const LOWER := "abcdefghijklmnopqrstuvwxyz"
  const DIGITS := "0123456789"

  lemma LetterAt(n: nat)
    requires n < 26
    ensures UPPER[n] == 'A' + n as char && LOWER[n] == 'a' + n as char
    ensures n < 10 ==> DIGITS[n] == '0' + n as char
  {
  }

  /** The alphabet of section 4 of RFC 4648. */
  const ALPHABET: string := UPPER + LOWER + DIGITS + "+/"

  lemma Base64Alphabet(n: sextet)
    ensures |ALPHABET| == 64 && Base64Char(n) == ALPHABET[n]
  {
    assert |UPPER| == 26 && |LOWER| == 26 && |DIGITS| == 10;
    if n < 26 {
      LetterAt(n);
    } else if n < 52 {
      LetterAt(n - 26);
    } else if n < 62 {
      LetterAt(n - 52);
    }
  }

  function ByteAt(b: Bytes, i: nat): byte {
    if i < |b| then b[i] else 0
  }

  /** The three bytes of group `g` as one number, the first byte highest. */
  function GroupNumber(b: Bytes, g: nat): (n: nat)
    ensures n < 0x1000000
  {
    ByteAt(b, 3 * g) * 65536 + ByteAt(b, 3 * g + 1) * 256 + ByteAt(b, 3 * g + 2)
  }

  /** The four characters are the number's digits to the base 64; what a last group
      lacks in bytes is padded. */
  ghost predicate GroupIs(n: nat, size: nat, s: string)
    requires n < 0x1000000 && |s| == 4
  {
    && s[0] == Base64Char(n / 262144) && s[1] == Base64Char(n / 4096 % 64)
    && s[2] == (if size > 1 then Base64Char(n / 64 % 64) else '=')
    && s[3] == (if size > 2 then Base64Char(n % 64) else '=')
  }

  lemma HighSextets(b0: byte, b1: byte, b2: byte)
    ensures var n := b0 * 65536 + b1 * 256 + b2;
      n / 262144 == b0 / 4 && n / 4096 % 64 == b0 % 4 * 16 + b1 / 16
  {
    var n := b0 * 65536 + b1 * 256 + b2;
    assert b0 == b0 / 4 * 4 + b0 % 4 && b1 == b1 / 16 * 16 + b1 % 16;
    assert n == b0 / 4 * 262144 + (b0 % 4 * 65536 + b1 * 256 + b2);
    assert n == (b0 / 4 * 64 + (b0 % 4 * 16 + b1 / 16)) * 4096 + (b1 % 16 * 256 + b2);
    assert n / 4096 == b0 / 4 * 64 + (b0 % 4 * 16 + b1 / 16);
  }

  lemma LowSextets(b0: byte, b1: byte, b2: byte)
    ensures var n := b0 * 65536 + b1 * 256 + b2;
      n / 64 % 64 == b1 % 16 * 4 + b2 / 64 && n % 64 == b2 % 64
  {
    var n := b0 * 65536 + b1 * 256 + b2;
    assert b1 == b1 / 16 * 16 + b1 % 16 && b2 == b2 / 64 * 64 + b2 % 64;
    assert n == (b0 * 1024 + b1 * 4 + b2 / 64) * 64 + b2 % 64;
    assert n / 64 == (b0 * 16 + b1 / 16) * 64 + (b1 % 16 * 4 + b2 / 64);
  }

  lemma FirstGroup(b: Bytes)
    requires 1 <= |b| <= 3
    ensures GroupIs(GroupNumber(b, 0), |b|, Group(b))
  {
    HighSextets(b[0], ByteAt(b, 1), ByteAt(b, 2));
    LowSextets(b[0], ByteAt(b, 1), ByteAt(b, 2));
    GroupChars(b);
  }

  lemma GroupChars(b: Bytes)
    requires 1 <= |b| <= 3
    ensures var v, s := Sextets(b), Group(b);
      && s[0] == Base64Char(v[0]) && s[1] == Base64Char(v[1])
      && s[2] == (if |b| > 1 then Base64Char(v[2]) else '=')
      && s[3] == (if |b| > 2 then Base64Char(v[3]) else '=')
  {
  }

  /** Group `g` of the text is that of the bytes. */
  ghost predicate SpelledAt(b: Bytes, s: string, g: nat) {
    3 * g < |b| && 4 * g + 4 <= |s| && GroupIs(GroupNumber(b, g), |b| - 3 * g, s[4 * g..4 * g + 4])
  }

  lemma SpelledFirst(b: Bytes, rest: string)
    requires |b| > 3
    ensures SpelledAt(b, Group(b[..3]) + rest, 0)
  {
    FirstGroup(b[..3]);
    assert GroupNumber(b[..3], 0) == GroupNumber(b, 0);
    assert (Group(b[..3]) + rest)[0..4] == Group(b[..3]);
  }

  lemma SpelledLater(b: Bytes, first: string, rest: string, g: nat)
    requires |b| > 3 && g > 0 && |first| == 4 && SpelledAt(b[3..], rest, g - 1)
    ensures SpelledAt(b, first + rest, g)
  {
    assert 3 * g == 3 * (g - 1) + 3 && 4 * g == 4 * (g - 1) + 4;
    assert GroupNumber(b, g) == GroupNumber(b[3..], g - 1);
    assert (first + rest)[4 * g..4 * g + 4] == rest[4 * (g - 1)..4 * (g - 1) + 4];
  }

  /** The encoding of section 4 of RFC 4648, group by group. */
  lemma {:induction false} Base64Spelled(b: Bytes, g: nat)
    requires 3 * g < |b|
    ensures SpelledAt(b, Base64Encode(b), g)
    decreases g
  {
    if |b| <= 3 {
      FirstGroup(b);
      assert Group(b)[0..4] == Group(b);
    } else if g == 0 {
      SpelledFirst(b, Base64Encode(b[3..]));
    } else {
      Base64Spelled(b[3..], g - 1);
      SpelledLater(b, Group(b[..3]), Base64Encode(b[3..]), g);
    }
  }

  /** Two digits for each byte, the higher half first. */
  lemma {:induction false} HexSpelled(b: Bytes, i: nat)
    requires i < |b|
    ensures var s := HexEncode(b);
      s[2 * i] == "0123456789abcdef"[b[i] / 16] && s[2 * i + 1] == "0123456789abcdef"[b[i] % 16]
  {
    if i > 0 {
      HexSpelled(b[1..], i - 1);
    }
  }

  lemma TextOfParts(a: Bytes, b: Bytes)
    ensures TextOf(a + b) == TextOf(a) + TextOf(b)
  {
  }

  lemma SizedText(field: Bytes)
    ensures TextOf(Sized(field)) == TextOf(Decimal(|field|)) + " " + TextOf(field)
  {
    TextOfParts(Decimal(|field|) + [SPACE], field);
    TextOfParts(Decimal(|field|), [SPACE]);
    assert TextOf([SPACE]) == " ";
  }

  lemma PrefixText()
    ensures TextOf(PAE_PREFIX) == "DSSEv1 "
  {
  }

  /** The encoding, spelled as text: the version, and each field after its length in
      decimal digits. */
  lemma PaeText(payloadType: Bytes, payload: Bytes)
    ensures TextOf(Pae(payloadType, payload)) ==
      "DSSEv1 " + (TextOf(Decimal(|payloadType|)) + " " + TextOf(payloadType)) + " " +
      (TextOf(Decimal(|payload|)) + " " + TextOf(payload))
  {
    TextOfParts(PAE_PREFIX + Sized(payloadType) + [SPACE], Sized(payload));
    TextOfParts(PAE_PREFIX + Sized(payloadType), [SPACE]);
    TextOfParts(PAE_PREFIX, Sized(payloadType));
    SizedText(payloadType);
    SizedText(payload);
    PrefixText();
    assert TextOf([SPACE]) == " ";
  }

  /** A decimal text is digits that spell the number, without a zero before others. */
  lemma {:induction false} DecimalText(n: nat)
    ensures var text := TextOf(Decimal(n));
      && DecimalValue(Decimal(n)) == n
      && (forall i | 0 <= i < |text| :: '0' <= text[i] <= '9')
      && (|text| > 1 ==> text[0] != '0')
  {
    DecimalRoundTrip(n);
    NoLeadingZero(n);
  }

  lemma {:induction false} NoLeadingZero(n: nat)
    ensures |Decimal(n)| > 1 ==> Decimal(n)[0] != ZERO
    ensures n > 0 ==> Decimal(n)[0] != ZERO
  {
    if n >= 10 {
      NoLeadingZero(n / 10);
    }
  }

  lemma {:induction false} HexIsInjective(a: Bytes, b: Bytes)
    ensures HexEncode(a) == HexEncode(b) <==> a == b
  {
    HexRoundTrip(a);
    HexRoundTrip(b);
  }

  predicate IsHexDigit(c: char) {
    '0' <= c <= '9' || 'a' <= c <= 'f' || 'A' <= c <= 'F'
  }

  /** A text decodes exactly when it is pairs of digits, two for each byte. */
  lemma {:induction false} HexDigitsDecode(digits: string)
    ensures HexDecode(digits).Some? <==> |digits| % 2 == 0 && forall i | 0 <= i < |digits| :: IsHexDigit(digits[i])
    ensures HexDecode(digits).Some? ==> |digits| == 2 * |HexDecode(digits).value|
    decreases |digits|
  {
    if |digits| >= 2 {
      HexDigitsDecode(digits[2..]);
      assert digits == [digits[0], digits[1]] + digits[2..];
    }
  }

  lemma LowerHexIsHex(c: char)
    requires c in HEX
    ensures IsHexDigit(c) && LowerHexDigit(c) == c
  {
  }

  /** Lower-case hexadecimal text of even length is the encoding of some bytes. */
  lemma LowerHexEncodes(s: string)
    requires IsLowerHex(s) && |s| % 2 == 0
    ensures exists b :: HexEncode(b) == s
  {
    forall i | 0 <= i < |s|
      ensures IsHexDigit(s[i]) && LowerHexDigit(s[i]) == s[i]
    {
      LowerHexIsHex(s[i]);
    }
    HexDigitsDecode(s);
    HexDecodeIsEncoded(s);
    assert LowerHex(s) == s;
    assert HexEncode(HexDecode(s).value) == s;
  }
}
