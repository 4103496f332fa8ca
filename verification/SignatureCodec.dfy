/**
 * decodeSignature and signatureToBase58 of apps/web/src/components/wallet/utils.ts: a text
 * is tried as base58, then as base64, then as hexadecimal, and must stand for 64 bytes.
 */
module SignatureCodec {
  import opened Wrappers
  import opened OctetStrings
  import opened Encodings

  const SignatureLength := 64

  datatype Input = Binary(bytes: seq<nat>) | Written(text: string)

  datatype SignatureError = InvalidLength | Unsupported

  function Sized(b: Option<seq<nat>>): Option<seq<nat>> {
    if b.Some? && |b.value| == SignatureLength then b else None
  }

  /** The fall-through of the source. */
  method DecodeSignature(sig: Input) returns (r: Result<seq<nat>, SignatureError>)
    ensures r == Decode(sig)
  {
    hide Decode58, Atob, HexDigit, HexByte;
    if sig.Binary? {
      return if |sig.bytes| != SignatureLength then Err(InvalidLength) else Ok(sig.bytes);
    }
    var decoded := Decode58(sig.text);
    if decoded.Some? && |decoded.value| == SignatureLength { return Ok(decoded.value); }
    decoded := Atob(sig.text);
    if decoded.Some? && |decoded.value| == SignatureLength { return Ok(decoded.value); }
    if IsHex(sig.text) && |sig.text| == SignatureLength * 2 {
      var bytes := HexToBytes(sig.text);
      HexWritesOnce(sig.text, bytes[..], FromHex(sig.text));
      return Ok(bytes[..]);
    }
    return Err(Unsupported);
  }

  function Decode(sig: Input): Result<seq<nat>, SignatureError> {
    match sig
    case Binary(bytes) => if |bytes| == SignatureLength then Ok(bytes) else Err(InvalidLength)
    case Written(text) =>
      if Sized(Decode58(text)).Some? then Ok(Decode58(text).value)
      else if Sized(Atob(text)).Some? then Ok(Atob(text).value)
      else if IsHex(text) && |text| == SignatureLength * 2 then Ok(FromHex(text))
      else Err(Unsupported)
  }

  /** A base64 text with padding is never base58. */
  lemma PaddedIsNotBase58(b: Octets)
    requires |b| % 3 != 0
    ensures Decode58(Encode64(b)) == None
  {
    hide Text64, Sextets, Digits, Value, Zeros, LeadingZeros, Digits58;
    var e := Encode64(b);
    assert e[|e| - 1] == '=';
    assert Digit58(e[|e| - 1]).None?;
  }

  /** 128 hexadecimal digits are 96 bytes of base64, never 64. */
  lemma HexIsNot64Bytes(s: string)
    requires IsHex(s) && |s| == 2 * SignatureLength
    ensures Atob(s).Some? && |Atob(s).value| == 96
    ensures Sized(Decode58(s)) == None && Sized(Atob(s)) == None
  {
    hide Digits64, FromSextets, WithoutSpaces, Decode58;
    forall i | 0 <= i < |s| ensures Digit64(s[i]).Some? && !IsAtobSpace(s[i]) && s[i] != '=' {
      assert HexDigit(s[i]).Some?;
    }
    assert WithoutPadding(s) == s;
    WholeGroups(Digits64(s), 32);
    LongTextsAreNot64(s);
  }

  /** Decoding inverts all three encodings of every 64-byte signature, in either hexadecimal case. */
  lemma DecodeInverts(b: Octets, hex: string)
    requires |b| == SignatureLength && HexWrites(hex, b)
    ensures Decode(Binary(b)) == Ok(b)
    ensures Decode(Written(Encode58(b))) == Ok(b)
    ensures Decode(Written(Encode64(b))) == Ok(b)
    ensures Decode(Written(hex)) == Ok(b)
  {
    hide Decode58, Atob, Encode58, Encode64, HexByte, HexDigit;
    Base58RoundTrip(b);
    Base64RoundTrip(b);
    PaddedIsNotBase58(b);
    HexCharacters(hex, b);
    HexIsNot64Bytes(hex);
    HexWritesOnce(hex, b, FromHex(hex));
  }

  lemma HexCharacters(s: string, b: seq<nat>)
    requires HexWrites(s, b) && b != []
    ensures IsHex(s)
  {
    hide HexDigit, HexByte;
    forall i | 0 <= i < |s| ensures HexDigit(s[i]).Some? {
      assert i == 2 * (i / 2) || i == 2 * (i / 2) + 1;
      assert i / 2 < |b|;
    }
  }

  /** Whatever is accepted is 64 bytes. */
  lemma DecodedIsSignature(sig: Input)
    ensures Decode(sig).Ok? ==> |Decode(sig).value| == SignatureLength
  {
    hide Decode58, Atob, FromHex, HexByte;
    if sig.Written? && IsHex(sig.text) && |sig.text| == 2 * SignatureLength {
      assert HexWrites(sig.text, FromHex(sig.text));
    }
  }

  lemma DecodedIsOctets(sig: Input)
    requires sig.Binary? ==> forall i | 0 <= i < |sig.bytes| :: sig.bytes[i] < 256
    ensures Decode(sig).Ok? ==> forall i | 0 <= i < |Decode(sig).value| :: Decode(sig).value[i] < 256
  {
    hide Value, Digits58, LeadingZeros, Digits64, WithoutSpaces, WithoutPadding, FromHex, HexWrites, FromSextets;
    if sig.Written? {
      if Sized(Decode58(sig.text)).Some? {
      } else if Sized(Atob(sig.text)).Some? {
        SextetBytes(Digits64(WithoutPadding(WithoutSpaces(sig.text))));
      } else if IsHex(sig.text) && |sig.text| == 2 * SignatureLength {
        HexBytesSmall(sig.text);
      }
    }
  }

  lemma {:induction false} SextetBytes(d: seq<nat>)
    requires forall i | 0 <= i < |d| :: d[i] < 64
    ensures forall i | 0 <= i < |FromSextets(d)| :: FromSextets(d)[i] < 256
  {
    hide ThreeBytes;
    if |d| >= 4 {
      SextetBytes(d[4..]);
    }
  }

  lemma HexBytesSmall(s: string)
    requires |s| % 2 == 0 && forall i | 0 <= i < |s| :: HexDigit(s[i]).Some?
    ensures forall i | 0 <= i < |FromHex(s)| :: FromHex(s)[i] < 256
  {
    hide FromHex;
    assert HexWrites(s, FromHex(s));
  }

  /** signatureToBase58: one text for every spelling, and it decodes to the same signature. */
  method SignatureToBase58(sig: Input) returns (r: Result<string, SignatureError>)
    requires sig.Binary? ==> forall i | 0 <= i < |sig.bytes| :: sig.bytes[i] < 256
    ensures r.Ok? <==> Decode(sig).Ok?
    ensures r.Err? ==> Decode(sig) == Err(r.error)
    ensures r.Ok? ==> Decode(Written(r.value)) == Decode(sig)
  {
    hide Decode58, Atob, Encode58;
    var bytes := DecodeSignature(sig);
    if bytes.Err? { return Err(bytes.error); }
    DecodedIsSignature(sig);
    DecodedIsOctets(sig);
    Base58RoundTrip(bytes.value);
    return Ok(Encode58(bytes.value));
  }
}
