/**
 The wire form of P-256 signatures and public keys: raw big-endian scalars as
 canonical unpadded base64url, checked without touching a key.
 */
module P256 {
  import opened Base64Url

  const CURVE_ORDER: int := 0xFFFFFFFF00000000FFFFFFFFFFFFFFFFBCE6FAADA7179E84F3B9CAC2FC632551
  const HALF_CURVE_ORDER: int := 0x7FFFFFFF800000007FFFFFFFFFFFFFFFDE737D56D38BCF4279DCE5617E3192A8
  const FIELD_PRIME: int := 0xFFFFFFFF00000001000000000000000000000000FFFFFFFFFFFFFFFFFFFFFFFF
  const SCALAR_BYTES := 32
  const SIGNATURE_BYTES := 64
  const PUBLIC_KEY_BYTES := 65
  const UNCOMPRESSED_PREFIX: Byte := 0x04

  datatype Rejection =
    | EncodingNotBase64Url
    | EncodingPadded
    | EncodingNotCanonical
    | WrongLength
    | ROutOfRange
    | SOutOfRange
    | SNotLow
    | NotUncompressedPoint
    | CoordinateOutOfRange

  datatype SignatureDecoding = Scalars(r: int, s: int, bytes: seq<Byte>) | Refused(rejection: Rejection)

  datatype KeyDecoding = Point(x: int, y: int, bytes: seq<Byte>) | KeyRefused(rejection: Rejection)

  /** The RangeError of the encoder and of the signer-side conversion. */
  datatype Checked<+T> = Ok(value: T) | RangeError

  // ----- big-endian numbers -----

  function BigEndian(b: seq<Byte>): (n: nat) {
    if b == [] then 0 else BigEndian(b[..|b| - 1]) * 256 + b[|b| - 1]
  }

  function ScalarBytes(value: nat, size: nat): (b: seq<Byte>)
    ensures |b| == size
  {
    if size == 0 then [] else ScalarBytes(value / 256, size - 1) + [value % 256]
  }

  function Pow256(k: nat): (p: nat)
    ensures p > 0
  {
    if k == 0 then 1 else 256 * Pow256(k - 1)
  }

  lemma {:induction false} BigEndianBound(b: seq<Byte>)
    ensures BigEndian(b) < Pow256(|b|)
  {
    if b != [] {
      BigEndianBound(b[..|b| - 1]);
    }
  }

  lemma {:induction false} ReadsBack(value: nat, size: nat)
    requires value < Pow256(size)
    ensures BigEndian(ScalarBytes(value, size)) == value
  {
    if size > 0 {
      ReadsBack(value / 256, size - 1);
      assert ScalarBytes(value, size)[..size - 1] == ScalarBytes(value / 256, size - 1);
    }
  }

  lemma {:induction false} WritesBack(b: seq<Byte>)
    ensures ScalarBytes(BigEndian(b), |b|) == b
  {
    if b != [] {
      WritesBack(b[..|b| - 1]);
      assert b == b[..|b| - 1] + [b[|b| - 1]];
    }
  }

  lemma {:induction false} BigEndianSpells(b: seq<Byte>)
    ensures BigEndian(b) == Value(256, b)
  {
    if b != [] {
      BigEndianSpells(b[..|b| - 1]);
    }
  }

  /** The first byte is the most significant. */
  lemma {:induction false} FirstByteIsMostSignificant(b: seq<Byte>)
    requires b != []
    ensures BigEndian(b) == b[0] as int * Pow256(|b| - 1) + BigEndian(b[1..])
  {
    if |b| > 1 {
      var front := b[..|b| - 1];
      FirstByteIsMostSignificant(front);
      assert b[1..][..|b| - 2] == front[1..];
      assert b[0] as int * (256 * Pow256(|b| - 2)) == (b[0] as int * Pow256(|b| - 2)) * 256;
    } else {
      assert b[..0] == [] && b[1..] == [];
    }
  }

  /** `(value << 8) | byte` on a non-negative bigint is `value * 256 + byte`. */
  method BytesToBigInt(bytes: seq<Byte>) returns (value: nat)
    ensures value == BigEndian(bytes)
  {
    value := 0;
    for i := 0 to |bytes|
      invariant value == BigEndian(bytes[..i])
    {
      assert bytes[..i + 1][..i] == bytes[..i];
      value := value * 256 + bytes[i];
    }
    assert bytes[..|bytes|] == bytes;
  }

  /** `remaining & 0xff` is `remaining % 256` and `remaining >> 8` is `remaining / 256`. */
  method BigIntToScalarBytes(value: nat) returns (bytes: array<Byte>)
    ensures fresh(bytes) && bytes[..] == ScalarBytes(value, SCALAR_BYTES)
  {
    bytes := new Byte[SCALAR_BYTES](_ => 0);
    var remaining: nat := value;
    var index: nat := SCALAR_BYTES;
    while index > 0
      invariant index <= SCALAR_BYTES
      invariant ScalarBytes(value, SCALAR_BYTES) == ScalarBytes(remaining, index) + bytes[index..]
    {
      index := index - 1;
      bytes[index] := remaining % 256;
      assert bytes[index..] == [remaining % 256] + bytes[index + 1..];
      remaining := remaining / 256;
    }
    assert bytes[0..] == bytes[..];
  }

  // ----- signatures -----

  predicate IsLowS(s: int) {
    1 <= s <= HALF_CURVE_ORDER
  }

  predicate InScalarRange(n: int) {
    1 <= n < CURVE_ORDER
  }

  function LowSForSigning(s: int): Checked<int> {
    if !InScalarRange(s) then RangeError
    else Ok(if s > HALF_CURVE_ORDER then CURVE_ORDER - s else s)
  }

  /** The raw `r || s` text of any two scalars, low or not. */
  function WireText(r: nat, s: nat): string {
    Encode(ScalarBytes(r, SCALAR_BYTES) + ScalarBytes(s, SCALAR_BYTES))
  }

  function DecodeSignature(text: string): SignatureDecoding {
    if '=' in text then Refused(EncodingPadded)
    else if !AllInAlphabet(text) then Refused(EncodingNotBase64Url)
    else if Encode(Decode(text)) != text then Refused(EncodingNotCanonical)
    else if |Decode(text)| != SIGNATURE_BYTES then Refused(WrongLength)
    else
      var r, s := BigEndian(Decode(text)[..SCALAR_BYTES]), BigEndian(Decode(text)[SCALAR_BYTES..]);
      if !InScalarRange(r) then Refused(ROutOfRange)
      else if !InScalarRange(s) then Refused(SOutOfRange)
      else if s > HALF_CURVE_ORDER then Refused(SNotLow)
      else Scalars(r, s, Decode(text))
  }

  function EncodeSignature(r: int, s: int): Checked<string> {
    if !InScalarRange(r) || !IsLowS(s) then RangeError else Ok(WireText(r, s))
  }

  method DecodeCanonicalP256Signature(text: string) returns (d: SignatureDecoding)
    ensures d == DecodeSignature(text)
  {
    if '=' in text { return Refused(EncodingPadded); }
    if !AllInAlphabet(text) { return Refused(EncodingNotBase64Url); }
    var bytes := Decode(text);
    if Encode(bytes) != text { return Refused(EncodingNotCanonical); }
    if |bytes| != SIGNATURE_BYTES { return Refused(WrongLength); }
    var r := BytesToBigInt(bytes[..SCALAR_BYTES]);
    var s := BytesToBigInt(bytes[SCALAR_BYTES..]);
    if r < 1 || r >= CURVE_ORDER { return Refused(ROutOfRange); }
    if s < 1 || s >= CURVE_ORDER { return Refused(SOutOfRange); }
    if s > HALF_CURVE_ORDER { return Refused(SNotLow); }
    return Scalars(r, s, bytes);
  }

  method EncodeCanonicalP256Signature(r: int, s: int) returns (result: Checked<string>)
    ensures result == EncodeSignature(r, s)
  {
    if r < 1 || r >= CURVE_ORDER { return RangeError; }
    if !IsLowS(s) { return RangeError; }
    var left := BigIntToScalarBytes(r);
    var right := BigIntToScalarBytes(s);
    var bytes := new Byte[SIGNATURE_BYTES](_ => 0);
    forall i | 0 <= i < SCALAR_BYTES { bytes[i] := left[i]; }
    forall i | 0 <= i < SCALAR_BYTES { bytes[SCALAR_BYTES + i] := right[i]; }
    assert bytes[..] == left[..] + right[..];
    assert left[..] == ScalarBytes(r, SCALAR_BYTES) && right[..] == ScalarBytes(s, SCALAR_BYTES);
    return Ok(Encode(bytes[..]));
  }

  lemma ScalarFits(n: int)
    requires 0 <= n < CURVE_ORDER || 0 <= n < FIELD_PRIME
    ensures n < Pow256(SCALAR_BYTES)
  {
    assert Pow256(8) == 0x1_00000000_00000000;
    assert Pow256(16) == 0x1_00000000_00000000_00000000_00000000;
    assert Pow256(24) == 0x1_00000000_00000000_00000000_00000000_00000000_00000000;
    assert Pow256(32) == 0x1_00000000_00000000_00000000_00000000_00000000_00000000_00000000_00000000;
  }

  lemma NoPadding(text: string)
    requires AllInAlphabet(text)
    ensures '=' !in text
  {
  }

  /** What the decoder sees of any raw text. */
  lemma WireTextReads(r: int, s: int)
    requires 0 <= r < CURVE_ORDER && 0 <= s < CURVE_ORDER
    ensures var t := WireText(r, s);
            && AllInAlphabet(t) && '=' !in t && Encode(Decode(t)) == t && |Decode(t)| == SIGNATURE_BYTES && |t| == 86
            && BigEndian(Decode(t)[..SCALAR_BYTES]) == r && BigEndian(Decode(t)[SCALAR_BYTES..]) == s
  {
    hide Encode, Decode, ScalarBytes, BigEndian, AllInAlphabet;
    var left, right := ScalarBytes(r, SCALAR_BYTES), ScalarBytes(s, SCALAR_BYTES);
    DecodeEncode(left + right);
    EncodeShape(left + right);
    NoPadding(WireText(r, s));
    assert (left + right)[..SCALAR_BYTES] == left && (left + right)[SCALAR_BYTES..] == right;
    ScalarFits(r);
    ScalarFits(s);
    ReadsBack(r, SCALAR_BYTES);
    ReadsBack(s, SCALAR_BYTES);
  }

  /** The raw text carries 64 bytes: `r`, then `s`, each 32 bytes long with the most significant byte first. */
  lemma RIsFirst(r: int, s: int)
    requires 0 <= r < CURVE_ORDER && 0 <= s < CURVE_ORDER
    ensures var t := WireText(r, s);
            && AllInAlphabet(t) && |Decode(t)| == 64
            && Value(256, Decode(t)[..32]) == r && Value(256, Decode(t)[32..]) == s
  {
    hide Decode, WireText, Value, BigEndian, AllInAlphabet;
    WireTextReads(r, s);
    BigEndianSpells(Decode(WireText(r, s))[..32]);
    BigEndianSpells(Decode(WireText(r, s))[32..]);
  }

  /** Decoding undoes encoding: every encodable pair comes back. */
  lemma DecodeAfterEncode(r: int, s: int)
    requires EncodeSignature(r, s).Ok?
    ensures var d := DecodeSignature(EncodeSignature(r, s).value); d.Scalars? && d.r == r && d.s == s
  {
    WireTextReads(r, s);
  }

  /** Encoding undoes decoding: an accepted text is the one spelling of its scalars. */
  lemma EncodeAfterDecode(text: string)
    requires DecodeSignature(text).Scalars?
    ensures var d := DecodeSignature(text); EncodeSignature(d.r, d.s) == Ok(text) && |text| == 86
  {
    var bytes := Decode(text);
    WritesBack(bytes[..SCALAR_BYTES]);
    WritesBack(bytes[SCALAR_BYTES..]);
    assert bytes == bytes[..SCALAR_BYTES] + bytes[SCALAR_BYTES..];
    EncodeShape(bytes);
  }

  /** The accepted texts are exactly the texts the encoder writes, one for each pair. */
  lemma SignatureBijection(text: string, r: int, s: int)
    ensures (DecodeSignature(text).Scalars? && DecodeSignature(text).r == r && DecodeSignature(text).s == s) <==>
            EncodeSignature(r, s) == Ok(text)
    ensures EncodeSignature(r, s).Ok? <==> 1 <= r < CURVE_ORDER && 1 <= s <= CURVE_ORDER / 2
  {
    if DecodeSignature(text).Scalars? && DecodeSignature(text).r == r && DecodeSignature(text).s == s {
      EncodeAfterDecode(text);
    }
    if EncodeSignature(r, s) == Ok(text) {
      DecodeAfterEncode(r, s);
    }
  }

  /**
   Of the two equivalent signatures (r, s) and (r, n - s) exactly one is
   accepted on the wire, and it is the one the signer-side conversion sends,
   whichever of the two it starts from.
   */
  lemma OneOfTwoAccepted(r: int, s: int)
    requires InScalarRange(r) && InScalarRange(s)
    ensures DecodeSignature(WireText(r, s)).Scalars? <==> !DecodeSignature(WireText(r, CURVE_ORDER - s)).Scalars?
    ensures LowSForSigning(s).Ok? && LowSForSigning(s) == LowSForSigning(CURVE_ORDER - s)
    ensures LowSForSigning(s).value == s || LowSForSigning(s).value == CURVE_ORDER - s
    ensures DecodeSignature(WireText(r, LowSForSigning(s).value)).Scalars?
    ensures s > HALF_CURVE_ORDER ==> DecodeSignature(WireText(r, s)) == Refused(SNotLow)
  {
    WireTextReads(r, s);
    WireTextReads(r, CURVE_ORDER - s);
  }

  // ----- public keys -----

  predicate InFieldRange(x: int, y: int) {
    0 <= x < FIELD_PRIME && 0 <= y < FIELD_PRIME && !(x == 0 && y == 0)
  }

  function DecodePublicKey(text: string): KeyDecoding {
    if '=' in text then KeyRefused(EncodingPadded)
    else if !AllInAlphabet(text) then KeyRefused(EncodingNotBase64Url)
    else
      var bytes := Decode(text);
      if Encode(bytes) != text then KeyRefused(EncodingNotCanonical)
      else if |bytes| != PUBLIC_KEY_BYTES then KeyRefused(WrongLength)
      else if bytes[0] != UNCOMPRESSED_PREFIX then KeyRefused(NotUncompressedPoint)
      else
        var x, y := BigEndian(bytes[1..1 + SCALAR_BYTES]), BigEndian(bytes[1 + SCALAR_BYTES..]);
        if x >= FIELD_PRIME || y >= FIELD_PRIME || (x == 0 && y == 0) then KeyRefused(CoordinateOutOfRange)
        else Point(x, y, bytes)
  }

  /** The uncompressed point as text: the one spelling a key has. */
  function PointText(x: nat, y: nat): string {
    Encode([UNCOMPRESSED_PREFIX] + (ScalarBytes(x, SCALAR_BYTES) + ScalarBytes(y, SCALAR_BYTES)))
  }

  /** A key text is accepted exactly when it is the spelling of a point in range, so a key has one text. */
  lemma OneSpellingPerKey(text: string, x: int, y: int)
    ensures (DecodePublicKey(text).Point? && DecodePublicKey(text).x == x && DecodePublicKey(text).y == y) <==>
            InFieldRange(x, y) && text == PointText(x, y)
    ensures DecodePublicKey(text).Point? ==> |text| == 87
  {
    if DecodePublicKey(text).Point? {
      AcceptedKeySpelling(text);
    }
    if InFieldRange(x, y) && text == PointText(x, y) {
      PointTextReads(x, y);
    }
  }

  lemma AcceptedKeySpelling(text: string)
    requires DecodePublicKey(text).Point?
    ensures var d := DecodePublicKey(text); InFieldRange(d.x, d.y) && text == PointText(d.x, d.y) && |text| == 87
  {
    hide Encode, Decode, ScalarBytes, BigEndian, AllInAlphabet;
    var bytes := Decode(text);
    EncodeShape(bytes);
    WritesBack(bytes[1..1 + SCALAR_BYTES]);
    WritesBack(bytes[1 + SCALAR_BYTES..]);
    assert bytes == [bytes[0]] + (bytes[1..1 + SCALAR_BYTES] + bytes[1 + SCALAR_BYTES..]);
  }

  lemma PointTextReads(x: int, y: int)
    requires InFieldRange(x, y)
    ensures var d := DecodePublicKey(PointText(x, y)); d.Point? && d.x == x && d.y == y
  {
    hide Encode, Decode, ScalarBytes, BigEndian, AllInAlphabet;
    var left, right := ScalarBytes(x, SCALAR_BYTES), ScalarBytes(y, SCALAR_BYTES);
    var bytes := [UNCOMPRESSED_PREFIX] + (left + right);
    DecodeEncode(bytes);
    NoPadding(PointText(x, y));
    assert bytes[1..1 + SCALAR_BYTES] == left && bytes[1 + SCALAR_BYTES..] == right;
    ScalarFits(x);
    ScalarFits(y);
    ReadsBack(x, SCALAR_BYTES);
    ReadsBack(y, SCALAR_BYTES);
  }

  /** An accepted key text carries 65 bytes: 0x04, then `x`, then `y`, most significant byte first. */
  lemma KeyBytes(text: string)
    requires DecodePublicKey(text).Point?
    ensures AllInAlphabet(text) && |Decode(text)| == 65 && Decode(text)[0] == 0x04
    ensures Value(256, Decode(text)[1..33]) == DecodePublicKey(text).x
    ensures Value(256, Decode(text)[33..]) == DecodePublicKey(text).y
  {
    hide Encode, Decode, Value, BigEndian, AllInAlphabet;
    BigEndianSpells(Decode(text)[1..33]);
    BigEndianSpells(Decode(text)[33..]);
  }
}
