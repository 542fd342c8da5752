/** Signed grants as copy-and-paste tokens and join URLs. */
module InviteToken {
  import opened Prelude
  import opened InviteWire
  import Base64Url
  import Hex

  const URL_PREFIX: string := "qmt://mesh/join/"
  const SIGNATURE_BYTES: nat := 64

  /** `signature` is hexadecimal text. */
  datatype SignedGrant = SignedGrant(grant: Grant, signature: string)

  /** The bytes under the base64: a failing part is left out. */
  function Payload(s: SignedGrant): seq<byte> {
    var wire := ToWire(s.grant);
    var signature := Hex.Decode(s.signature);
    (if wire.Ok? then wire.value else []) + (if signature.Some? then signature.value else [])
  }

  function Encode(s: SignedGrant): string { Base64Url.Encode(Payload(s)) }

  function ToUrl(s: SignedGrant): string { URL_PREFIX + Encode(s) }

  function StripPrefix(token: string): string {
    if URL_PREFIX <= token then token[|URL_PREFIX|..] else token
  }

  function DecodeBinary(bytes: seq<byte>): Result<SignedGrant, Error> {
    match FromWire(bytes)
    case Err(e) => Err(e)
    case Ok((grant, consumed)) =>
      if |bytes| < consumed + SIGNATURE_BYTES then Err(TooShort)
      else if |bytes| > consumed + SIGNATURE_BYTES then Err(TrailingBytes)
      else Ok(SignedGrant(grant, Hex.Encode(bytes[consumed..])))
  }

  function Decode(token: string): Result<SignedGrant, Error> {
    match Base64Url.Decode(StripPrefix(token))
    case None => Err(InvalidBase64)
    case Some(bytes) =>
      if bytes == [] then Err(EmptyToken)
      else if bytes[0] != WIRE_VERSION then Err(UnsupportedVersion)
      else DecodeBinary(bytes)
  }

  /** The signed grants a token carries unchanged. */
  predicate CanonicalSigned(s: SignedGrant) {
    Canonical(s.grant) && |NameBytes(s.grant)| <= 255 && |s.signature| == 2 * SIGNATURE_BYTES
        && Hex.IsLower(s.signature)
  }

  lemma BinaryIsCanonical(bytes: seq<byte>)
    requires DecodeBinary(bytes).Ok?
    ensures CanonicalSigned(DecodeBinary(bytes).value)
    ensures |bytes| > 18 && FlagPosition(bytes) < |bytes| && Payload(DecodeBinary(bytes).value) == ClearedFlags(bytes)
  {
    var s, n := DecodeBinary(bytes).value, FromWire(bytes).value.1;
    AcceptedIsRewritten(bytes);
    assert |NameBytes(s.grant)| <= 255;
    Hex.DecodeEncode(bytes[n..]);
    hide FromWire, ToWire, Canonical, Hex.Encode, Hex.Decode;
    ClearedSplits(bytes, n);
  }

  lemma ClearedSplits(bytes: seq<byte>, n: nat)
    requires |bytes| > 18 && FlagPosition(bytes) < n <= |bytes|
    ensures ClearedFlags(bytes[..n]) + bytes[n..] == ClearedFlags(bytes)
  {
    assert bytes[..n][18] == bytes[18];
    assert bytes[..n][FlagPosition(bytes)] == bytes[FlagPosition(bytes)];
  }

  lemma ClearedIsSame(bytes: seq<byte>)
    requires |bytes| > 18 && FlagPosition(bytes) < |bytes|
    ensures ClearedFlags(bytes) == bytes <==> bytes[FlagPosition(bytes)] < 4
  {
    assert ClearedFlags(bytes)[FlagPosition(bytes)] == bytes[FlagPosition(bytes)] % 4;
  }

  /** Every accepted token holds a canonical signed grant, and is that grant's token up to the unused flag bits. */
  lemma DecodedIsCanonical(token: string)
    requires Decode(token).Ok?
    ensures CanonicalSigned(Decode(token).value)
    ensures var bytes := Base64Url.Decode(StripPrefix(token)).value;
            |bytes| > 18 && FlagPosition(bytes) < |bytes| &&
            Payload(Decode(token).value) == ClearedFlags(bytes) &&
            (Encode(Decode(token).value) == StripPrefix(token) <==> bytes[FlagPosition(bytes)] < 4)
  {
    var s, bytes := Decode(token).value, Base64Url.Decode(StripPrefix(token)).value;
    BinaryIsCanonical(bytes);
    Base64Url.EncodeDecode(StripPrefix(token));
    Base64Url.DecodeEncode(Payload(s));
    ClearedIsSame(bytes);
    hide DecodeBinary, Payload, CanonicalSigned, StripPrefix, ClearedFlags, Base64Url.Decode, Base64Url.Encode;
  }

  lemma PrefixChar(prefix: string, s: string, k: nat)
    requires prefix <= s && k < |prefix|
    ensures prefix[k] in s
  {
    assert s[k] == prefix[k];
  }

  lemma EncodeHasNoPrefix(s: SignedGrant)
    ensures !(URL_PREFIX <= Encode(s))
  {
    Base64Url.EncodeAlphabet(Payload(s));
    hide Payload, Base64Url.Encode;
    if URL_PREFIX <= Encode(s) {
      PrefixChar(URL_PREFIX, Encode(s), 3);
    }
  }

  /** The URL and the bare token are read alike. */
  lemma UrlReadsLikeToken(s: SignedGrant)
    ensures Decode(ToUrl(s)) == Decode(Encode(s))
  {
    EncodeHasNoPrefix(s);
    hide Encode, DecodeBinary, Base64Url.Decode;
    assert StripPrefix(ToUrl(s)) == Encode(s);
  }

  /** `decode` inverts `encode` and `to_url` on the canonical signed grants, and on no others. */
  lemma TokenRoundTripExact(s: SignedGrant)
    ensures Decode(Encode(s)) == Ok(s) <==> CanonicalSigned(s)
    ensures Decode(ToUrl(s)) == Ok(s) <==> CanonicalSigned(s)
  {
    UrlReadsLikeToken(s);
    if CanonicalSigned(s) {
      CanonicalReadsBack(s);
    } else if Decode(Encode(s)).Ok? {
      DecodedIsCanonical(Encode(s));
    }
  }

  lemma CanonicalReadsBack(s: SignedGrant)
    requires CanonicalSigned(s)
    ensures Decode(ToUrl(s)) == Ok(s)
  {
    assert StripPrefix(ToUrl(s)) == Encode(s);
    Base64Url.DecodeEncode(Payload(s));
    PayloadReadsBack(s);
    hide Payload, DecodeBinary, Base64Url.Decode, Base64Url.Encode;
  }

  lemma PayloadReadsBack(s: SignedGrant)
    requires CanonicalSigned(s)
    ensures Payload(s) != [] && Payload(s)[0] == WIRE_VERSION && DecodeBinary(Payload(s)) == Ok(s)
  {
    LowerHexDecodes(s.signature);
    Hex.EncodeDecode(s.signature);
    var wire, signature := ToWire(s.grant).value, Hex.Decode(s.signature).value;
    RoundTripExact(s.grant, signature);
    assert wire[0] == WIRE_VERSION;
    hide ToWire, FromWire, Canonical, Hex.Encode, Hex.Decode;
    assert Payload(s) == wire + signature && Payload(s)[|wire|..] == signature;
  }

  lemma {:induction false} LowerHexDecodes(h: string)
    requires Hex.IsLower(h) && |h| % 2 == 0
    ensures Hex.Decode(h).Some?
  {
    if h != "" {
      assert Hex.IsLowerDigit(h[0]) && Hex.IsLowerDigit(h[1]);
      assert forall i :: 0 <= i < |h[2..]| ==> h[2..][i] == h[i + 2];
      LowerHexDecodes(h[2..]);
    }
  }

  /** The bytes of a token, from which a part that cannot be written is left out, and the form of its URL. */
  lemma TokenLayout(s: SignedGrant)
    ensures Base64Url.Decode(Encode(s))
            == Some((if ToWire(s.grant).Ok? then ToWire(s.grant).value else [])
                    + (if Hex.Decode(s.signature).Some? then Hex.Decode(s.signature).value else []))
    ensures ToUrl(s) == "qmt://mesh/join/" + Encode(s)
  {
    Base64Url.DecodeEncode(Payload(s));
  }

  /** What is accepted: a grant with just its 64 bytes of signature behind it. */
  lemma DecodesExactly(token: string)
    ensures var raw := if "qmt://mesh/join/" <= token then token[16..] else token;
            && (Base64Url.Decode(raw).None? ==> Decode(token) == Err(InvalidBase64))
            && (Base64Url.Decode(raw).Some? && FromWire(Base64Url.Decode(raw).value).Err? ==>
                  Decode(token) == Err(FromWire(Base64Url.Decode(raw).value).error))
            && (Decode(token).Ok? <==>
                  && Base64Url.Decode(raw).Some?
                  && var bytes := Base64Url.Decode(raw).value;
                  FromWire(bytes).Ok? && |bytes| == FromWire(bytes).value.1 + 64)
            && (Decode(token).Ok? ==>
                  && var bytes := Base64Url.Decode(raw).value;
                  && |bytes| >= 64 && FromWire(bytes).Ok?
                  && Decode(token).value == SignedGrant(FromWire(bytes).value.0, Hex.Encode(bytes[|bytes| - 64..])))
  {
    hide Base64Url.Decode, Hex.Encode;
    var raw := StripPrefix(token);
    if Base64Url.Decode(raw).Some? && FromWire(Base64Url.Decode(raw).value).Ok? {
      var bytes := Base64Url.Decode(raw).value;
      assert bytes != [] && bytes[0] == WIRE_VERSION;
      hide FromWire;
    } else {
      hide FromWire;
    }
  }
}
