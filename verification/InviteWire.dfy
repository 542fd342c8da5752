/**
 The binary form of an invite grant.

 UUID and PeerId texts are represented by what they parse to: a UUID text is the canonical
 hyphenated form, another accepted spelling, or no UUID; a PeerId text denotes an identity
 multihash (code 0x00, at most 42 bytes), a SHA-256 multihash (code 0x12, 32 bytes), or no PeerId.
 */
module InviteWire {
  import opened Prelude
  import BigEndian
  import Utf8

  const WIRE_VERSION: byte := 3

  type Uuid = b: seq<byte> | |b| == 16 witness seq(16, _ => 0)
  type Key = b: seq<byte> | |b| <= 42 witness []
  type Digest = b: seq<byte> | |b| == 32 witness seq(32, _ => 0)

  datatype UuidText = Hyphenated(uuid: Uuid) | OtherSpelling(uuid: Uuid, spelling: string) | NotUuid(text: string)
  datatype PeerIdText = Identity(key: Key) | Sha256(digest: Digest) | NotPeerId(text: string)

  datatype Grant = Grant(
    version: byte,
    inviteId: UuidText,
    inviter: PeerIdText,
    meshName: Option<Utf8.Text>,
    expiresAt: u64,
    maxUses: u32,
    canInvite: bool,
    role: string)

  datatype Error =
    | EmptyToken | UnsupportedVersion | TooShort | UnsupportedMultihash | InvalidPeerId | InvalidInviteId
    | NameTooLong | InvalidName | InvalidBase64 | TrailingBytes

  // ----- writing -----

  function Flags(canInvite: bool, role: string): byte {
    (if canInvite then 1 else 0) + (if role == "client" then 2 else 0)
  }

  function PeerBytes(p: PeerIdText): seq<byte>
    requires !p.NotPeerId?
  {
    match p
    case Identity(key) => [0x00, |key|] + key
    case Sha256(digest) => [0x12, 32] + digest
  }

  function NameBytes(g: Grant): Utf8.Text {
    if g.meshName.Some? then g.meshName.value else []
  }

  function FixedBytes(expiresAt: u64, maxUses: u32, flags: byte): (r: seq<byte>)
    ensures |r| == 13
  {
    BigEndian.ToBytes(expiresAt, 8) + BigEndian.ToBytes(maxUses, 4) + [flags]
  }

  function ToWire(g: Grant): Result<seq<byte>, Error> {
    if g.inviteId.NotUuid? then Err(InvalidInviteId)
    else if g.inviter.NotPeerId? then Err(InvalidPeerId)
    else if |NameBytes(g)| > 255 then Err(NameTooLong)
    else
      Ok([WIRE_VERSION] + g.inviteId.uuid + PeerBytes(g.inviter)
         + FixedBytes(g.expiresAt, g.maxUses, Flags(g.canInvite, g.role))
         + [|NameBytes(g)|] + NameBytes(g))
  }

  /** `to_wire_bytes`, filling its buffer field by field. */
  method ToWireBytes(g: Grant) returns (r: Result<seq<byte>, Error>)
    ensures r == ToWire(g)
  {
    if g.inviteId.NotUuid? {
      return Err(InvalidInviteId);
    }
    if g.inviter.NotPeerId? {
      return Err(InvalidPeerId);
    }
    var nameBytes := if g.meshName.Some? then g.meshName.value else [];
    if |nameBytes| > 255 {
      return Err(NameTooLong);
    }
    var flags: byte := 0;
    if g.canInvite {
      flags := flags + 1;
    }
    if g.role == "client" {
      flags := flags + 2;
    }
    var buf: seq<byte> := [WIRE_VERSION];
    buf := buf + g.inviteId.uuid;
    buf := buf + PeerBytes(g.inviter);
    ghost var front := buf;
    buf := buf + BigEndian.ToBytes(g.expiresAt, 8);
    buf := buf + BigEndian.ToBytes(g.maxUses, 4);
    buf := buf + [flags];
    assert buf == front + FixedBytes(g.expiresAt, g.maxUses, flags);
    buf := buf + [|nameBytes|];
    buf := buf + nameBytes;
    return Ok(buf);
  }

  // ----- reading -----

  /** The fields behind the PeerId, and how many bytes they take. */
  datatype Tail = Tail(expiresAt: u64, maxUses: u32, flags: byte, meshName: Option<Utf8.Text>, length: nat)

  function NameEnd(t: seq<byte>): nat
    requires |t| > 13
  {
    var length: nat := t[13];
    14 + length
  }

  function ReadTail(t: seq<byte>): (r: Result<Tail, Error>)
    ensures r.Ok? ==> 14 <= r.value.length <= |t|
  {
    if |t| < 14 then Err(TooShort)
    else if |t| < NameEnd(t) then Err(TooShort)
    else if t[13] > 0 && !Utf8.Valid(t[14..NameEnd(t)]) then Err(InvalidName)
    else
      BigEndian.Widths();
      Ok(Tail(BigEndian.FromBytes(t[..8]), BigEndian.FromBytes(t[8..12]), t[12],
              if t[13] == 0 then None else Some(t[14..NameEnd(t)]), NameEnd(t)))
  }

  function KeyEnd(data: seq<byte>): nat
    requires |data| > 18
  {
    var length: nat := data[18];
    19 + length
  }

  function Assemble(uuid: Uuid, key: Key, tail: Tail): Grant {
    Grant(WIRE_VERSION, Hyphenated(uuid), Identity(key), tail.meshName, tail.expiresAt, tail.maxUses,
          tail.flags % 2 != 0, if tail.flags / 2 % 2 != 0 then "client" else "member")
  }

  /** `from_wire_bytes`: the grant and the number of bytes consumed. */
  function FromWire(data: seq<byte>): (r: Result<(Grant, nat), Error>)
    ensures r.Ok? ==> 33 <= r.value.1 <= |data|
  {
    if data == [] then Err(EmptyToken)
    else if data[0] != WIRE_VERSION then Err(UnsupportedVersion)
    else if |data| < 19 then Err(TooShort)
    else if data[17] != 0x00 then Err(UnsupportedMultihash)
    else if |data| < KeyEnd(data) then Err(TooShort)
    else if data[18] > 42 then Err(InvalidPeerId)
    else
      var pos := KeyEnd(data);
      match ReadTail(data[pos..])
      case Err(e) => Err(e)
      case Ok(tail) => Ok((Assemble(data[1..17], data[19..pos], tail), pos + tail.length))
  }

  // ----- the round trip -----

  /** The grants the wire form can carry unchanged. */
  predicate Canonical(g: Grant) {
    && g.version == WIRE_VERSION
    && g.inviteId.Hyphenated?
    && g.inviter.Identity?
    && g.meshName != Some([])
    && (g.role == "member" || g.role == "client")
  }

  /** What a reader makes of a grant with an identity PeerId. */
  function Normalized(g: Grant): Grant
    requires !g.inviteId.NotUuid? && g.inviter.Identity?
  {
    g.(version := WIRE_VERSION,
       inviteId := Hyphenated(g.inviteId.uuid),
       meshName := if NameBytes(g) == [] then None else g.meshName,
       role := if g.role == "client" then "client" else "member")
  }

  lemma TailRoundTrip(expiresAt: u64, maxUses: u32, flags: byte, name: Utf8.Text, rest: seq<byte>)
    requires |name| <= 255
    ensures ReadTail(FixedBytes(expiresAt, maxUses, flags) + [|name|] + name + rest)
            == Ok(Tail(expiresAt, maxUses, flags, if name == [] then None else Some(name), 14 + |name|))
  {
    BigEndian.Widths();
    BigEndian.FromTo(expiresAt, 8);
    BigEndian.FromTo(maxUses, 4);
    var e, m := BigEndian.ToBytes(expiresAt, 8), BigEndian.ToBytes(maxUses, 4);
    var t := FixedBytes(expiresAt, maxUses, flags) + [|name|] + name + rest;
    assert t[..8] == e && t[8..12] == m && t[12] == flags && t[13] == |name|;
    assert t[14..14 + |name|] == name;
  }

  /** What follows the PeerId in a written grant. */
  function TailBytes(g: Grant): seq<byte>
    requires |NameBytes(g)| <= 255
  {
    FixedBytes(g.expiresAt, g.maxUses, Flags(g.canInvite, g.role)) + [|NameBytes(g)|] + NameBytes(g)
  }

  lemma HeadReads(uuid: Uuid, peer: seq<byte>, t: seq<byte>)
    requires |peer| >= 2
    ensures var d := [WIRE_VERSION] + uuid + peer + t;
            && |d| == 17 + |peer| + |t| && d[0] == WIRE_VERSION && d[1..17] == uuid
            && d[17] == peer[0] && d[18] == peer[1]
            && d[19..17 + |peer|] == peer[2..] && d[17 + |peer|..] == t
  {
  }

  lemma WrittenLayout(g: Grant, rest: seq<byte>)
    requires ToWire(g).Ok?
    ensures ToWire(g).value + rest == [WIRE_VERSION] + g.inviteId.uuid + PeerBytes(g.inviter) + (TailBytes(g) + rest)
    ensures |ToWire(g).value| == 17 + |PeerBytes(g.inviter)| + |TailBytes(g)|
    ensures |TailBytes(g)| == 14 + |NameBytes(g)|
  {
    hide PeerBytes, FixedBytes, NameBytes, Flags;
    var fixed, name := FixedBytes(g.expiresAt, g.maxUses, Flags(g.canInvite, g.role)), NameBytes(g);
    var head := [WIRE_VERSION] + g.inviteId.uuid + PeerBytes(g.inviter);
    assert ToWire(g).value == head + (fixed + [|name|] + name);
    assert ToWire(g).value + rest == head + (fixed + [|name|] + name + rest);
  }

  /** Reading a message laid out as an identity PeerId and a tail. */
  lemma LayoutReads(uuid: Uuid, key: Key, t: seq<byte>)
    requires ReadTail(t).Ok?
    ensures FromWire([WIRE_VERSION] + uuid + ([0x00, |key|] + key) + t)
            == Ok((Assemble(uuid, key, ReadTail(t).value), 19 + |key| + ReadTail(t).value.length))
  {
    var peer := [0x00, |key|] + key;
    HeadReads(uuid, peer, t);
    assert peer[2..] == key;
    hide ReadTail, Assemble;
  }

  /** A PeerId that is not an identity multihash is refused, whatever follows. */
  lemma LayoutRefused(uuid: Uuid, peer: seq<byte>, t: seq<byte>)
    requires |peer| >= 2 && peer[0] != 0x00
    ensures FromWire([WIRE_VERSION] + uuid + peer + t) == Err(UnsupportedMultihash)
  {
    HeadReads(uuid, peer, t);
    hide ReadTail, Assemble, KeyEnd;
  }

  lemma FlagsRead(canInvite: bool, role: string)
    ensures (Flags(canInvite, role) % 2 != 0) == canInvite
    ensures (Flags(canInvite, role) / 2 % 2 != 0) == (role == "client")
  {
  }

  /** The fields behind the PeerId as a reader sees them. */
  function TailOf(g: Grant): Tail
    requires |NameBytes(g)| <= 255
  {
    Tail(g.expiresAt, g.maxUses, Flags(g.canInvite, g.role),
         if NameBytes(g) == [] then None else Some(NameBytes(g)), 14 + |NameBytes(g)|)
  }

  lemma TailIsNormal(g: Grant)
    requires |NameBytes(g)| <= 255 && g.inviter.Identity? && !g.inviteId.NotUuid?
    ensures Assemble(g.inviteId.uuid, g.inviter.key, TailOf(g)) == Normalized(g)
  {
    FlagsRead(g.canInvite, g.role);
    hide Flags;
  }

  lemma TailReads(g: Grant, rest: seq<byte>)
    requires |NameBytes(g)| <= 255
    ensures ReadTail(TailBytes(g) + rest) == Ok(TailOf(g)) && TailOf(g).length == |TailBytes(g)|
  {
    hide ReadTail, FixedBytes, NameBytes, Flags;
    TailRoundTrip(g.expiresAt, g.maxUses, Flags(g.canInvite, g.role), NameBytes(g), rest);
  }

  /** Reading back, whatever follows. */
  lemma ReadsBack(g: Grant, rest: seq<byte>)
    requires ToWire(g).Ok?
    ensures var w := ToWire(g).value;
            FromWire(w + rest) == if g.inviter.Identity? then Ok((Normalized(g), |w|)) else Err(UnsupportedMultihash)
  {
    WrittenLayout(g, rest);
    assert !g.inviteId.NotUuid? && !g.inviter.NotPeerId? && |NameBytes(g)| <= 255;
    var peer := PeerBytes(g.inviter);
    assert g.inviter.Identity? ==> peer == [0x00, |g.inviter.key|] + g.inviter.key;
    assert !g.inviter.Identity? ==> |peer| >= 2 && peer[0] != 0x00;
    hide ToWire, FromWire, ReadTail, NameBytes, Normalized, Assemble, PeerBytes, TailBytes, TailOf;
    if g.inviter.Identity? {
      TailReads(g, rest);
      TailIsNormal(g);
      LayoutReads(g.inviteId.uuid, g.inviter.key, TailBytes(g) + rest);
    } else {
      LayoutRefused(g.inviteId.uuid, peer, TailBytes(g) + rest);
    }
  }

  /** The round trip holds for the canonical grants, whatever follows, and for no other. */
  lemma RoundTripExact(g: Grant, rest: seq<byte>)
    requires ToWire(g).Ok?
    ensures FromWire(ToWire(g).value + rest) == Ok((g, |ToWire(g).value|)) <==> Canonical(g)
  {
    ReadsBack(g, rest);
  }

  // ----- canonicality -----

  /** Where the flag byte sits in an accepted message. */
  function FlagPosition(data: seq<byte>): nat
    requires |data| > 18
  {
    KeyEnd(data) + 12
  }

  /** The message with the six unused flag bits cleared. */
  function ClearedFlags(data: seq<byte>): seq<byte>
    requires |data| > 18 && FlagPosition(data) < |data|
  {
    data[FlagPosition(data) := data[FlagPosition(data)] % 4]
  }

  lemma TailCanonical(t: seq<byte>)
    requires ReadTail(t).Ok?
    ensures var tail := ReadTail(t).value;
            tail.length <= |t| &&
            t[..tail.length] == FixedBytes(tail.expiresAt, tail.maxUses, tail.flags) + [t[13]] + t[14..tail.length] &&
            t[14..tail.length] == (if tail.meshName.Some? then tail.meshName.value else [])
  {
    BigEndian.ToFrom(t[..8]);
    BigEndian.ToFrom(t[8..12]);
    assert t[..13] == t[..8] + t[8..12] + [t[12]];
  }

  lemma TailFlagsCleared(t: seq<byte>)
    requires ReadTail(t).Ok?
    ensures var tail := ReadTail(t).value;
            var g := FixedBytes(tail.expiresAt, tail.maxUses, tail.flags % 4);
            14 <= tail.length <= |t| &&
            t[..tail.length][12 := tail.flags % 4]
              == g + [tail.length - 14] + (if tail.meshName.Some? then tail.meshName.value else [])
  {
    TailCanonical(t);
  }

  /** An accepted message is what its grant is written as, up to the unused flag bits. */
  lemma AcceptedIsRewritten(data: seq<byte>)
    requires FromWire(data).Ok?
    ensures var (g, n) := FromWire(data).value;
            Canonical(g) && FlagPosition(data) < n <= |data| && ToWire(g) == Ok(ClearedFlags(data[..n]))
  {
    var (g, n) := FromWire(data).value;
    var pos := KeyEnd(data);
    var t := data[pos..];
    var tail := ReadTail(t).value;
    AcceptedShape(data);
    HeadIsWritten(data);
    hide *;
    var name := if tail.meshName.Some? then tail.meshName.value else [];
    var body := FixedBytes(tail.expiresAt, tail.maxUses, tail.flags % 4) + [tail.length - 14] + name;
    assert ClearedFlags(data[..n]) == data[..pos] + body && FlagPosition(data[..n]) < n by {
      ClearedIsSplit(data, tail.length, tail.flags);
      TailFlagsCleared(t);
    }
    assert ToWire(g) == Ok(data[..pos] + body) && Canonical(g) by {
      AssembledIsWritten(data[1..17], data[19..pos], tail);
    }
    FlagsStand(data, n);
  }

  lemma FlagsStand(data: seq<byte>, n: nat)
    requires 18 < n <= |data|
    ensures FlagPosition(data[..n]) == FlagPosition(data)
  {
    assert data[..n][18] == data[18];
  }

  lemma ClearedIsSplit(data: seq<byte>, length: nat, flags: byte)
    requires |data| > 18 && KeyEnd(data) + length <= |data| && 12 < length && data[KeyEnd(data) + 12] == flags
    ensures var pos := KeyEnd(data);
            var message := data[..pos + length];
            && FlagPosition(message) < |message|
            && ClearedFlags(message) == data[..pos] + data[pos..][..length][12 := flags % 4]
  {
    var pos := KeyEnd(data);
    assert data[..pos + length][18] == data[18];
    ClearedSplit(data, pos, length, flags % 4);
  }

  lemma AcceptedShape(data: seq<byte>)
    requires FromWire(data).Ok?
    ensures |data| > 18 && KeyEnd(data) <= |data| && KeyEnd(data) - 19 <= 42
    ensures var (g, n) := FromWire(data).value;
            var t := data[KeyEnd(data)..];
            && ReadTail(t).Ok?
            && var tail := ReadTail(t).value;
            && g == Assemble(data[1..17], data[19..KeyEnd(data)], tail) && n == KeyEnd(data) + tail.length
            && 13 < |t| && tail.flags == t[12] && 14 <= tail.length
            && tail.length == 14 + |if tail.meshName.Some? then tail.meshName.value else []|
            && tail.length <= 14 + 255 && tail.meshName != Some([])
  {
  }

  lemma HeadIsWritten(data: seq<byte>)
    requires FromWire(data).Ok?
    ensures data[..KeyEnd(data)] == [WIRE_VERSION] + data[1..17] + PeerBytes(FromWire(data).value.0.inviter)
  {
    var pos := KeyEnd(data);
    assert PeerBytes(Identity(data[19..pos])) == [data[17], data[18]] + data[19..pos];
    hide ReadTail;
  }

  lemma ClearedSplit(data: seq<byte>, pos: nat, length: nat, v: byte)
    requires pos + length <= |data| && 12 < length
    ensures data[..pos + length][pos + 12 := v] == data[..pos] + data[pos..][..length][12 := v]
  {
  }

  lemma AssembledIsWritten(uuid: Uuid, key: Key, tail: Tail)
    requires tail.length == 14 + |if tail.meshName.Some? then tail.meshName.value else []|
    requires tail.length <= 14 + 255 && tail.meshName != Some([])
    ensures var g := Assemble(uuid, key, tail);
            Canonical(g) &&
            ToWire(g) == Ok([WIRE_VERSION] + uuid + PeerBytes(g.inviter)
                            + (FixedBytes(tail.expiresAt, tail.maxUses, tail.flags % 4) + [tail.length - 14]
                               + (if tail.meshName.Some? then tail.meshName.value else [])))
  {
    var g := Assemble(uuid, key, tail);
    assert Flags(g.canInvite, g.role) == tail.flags % 4;
    hide PeerBytes, FixedBytes;
    var head, fixed := [WIRE_VERSION] + uuid + PeerBytes(g.inviter),
        FixedBytes(tail.expiresAt, tail.maxUses, tail.flags % 4);
    assert head + fixed + [tail.length - 14] + NameBytes(g) == head + (fixed + [tail.length - 14] + NameBytes(g));
  }

  /** Two accepted messages carry the same grant exactly when they agree up to the unused flag bits. */
  lemma SameGrantSameBytes(d1: seq<byte>, d2: seq<byte>)
    requires FromWire(d1).Ok? && FromWire(d2).Ok?
    ensures var (g1, n1) := FromWire(d1).value;
            var (g2, n2) := FromWire(d2).value;
            FlagPosition(d1) < n1 <= |d1| && FlagPosition(d2) < n2 <= |d2| &&
            (g1 == g2 <==> ClearedFlags(d1[..n1]) == ClearedFlags(d2[..n2]))
  {
    AcceptedIsRewritten(d1);
    AcceptedIsRewritten(d2);
    var (g1, n1) := FromWire(d1).value;
    var (g2, n2) := FromWire(d2).value;
    RoundTripExact(g1, []);
    RoundTripExact(g2, []);
    assert ToWire(g1).value + [] == ToWire(g1).value;
    assert ToWire(g2).value + [] == ToWire(g2).value;
  }

  // ----- where each field stands -----

  lemma HeadLayout(g: Grant, w: seq<byte>)
    requires ToWire(g) == Ok(w)
    ensures var p := 17 + |PeerBytes(g.inviter)|;
            && |w| == p + 14 + |NameBytes(g)| && w[0] == 3 && w[1..17] == g.inviteId.uuid
            && w[17..p] == PeerBytes(g.inviter) && w[p..] == TailBytes(g)
  {
    WrittenLayout(g, []);
    assert w + [] == w && TailBytes(g) + [] == TailBytes(g);
    var head := [WIRE_VERSION] + g.inviteId.uuid + PeerBytes(g.inviter);
    assert w == head + TailBytes(g);
    hide ToWire, PeerBytes, TailBytes;
  }

  lemma TailLayout(g: Grant)
    requires |NameBytes(g)| <= 255
    ensures var t := TailBytes(g);
            && |t| == 14 + |NameBytes(g)|
            && BigEndian.FromBytes(t[..8]) == g.expiresAt && BigEndian.FromBytes(t[8..12]) == g.maxUses
            && t[12] == (if g.canInvite then 1 else 0) + (if g.role == "client" then 2 else 0)
            && t[13] == |NameBytes(g)| && t[14..] == NameBytes(g)
  {
    BigEndian.Widths();
    BigEndian.FromTo(g.expiresAt, 8);
    BigEndian.FromTo(g.maxUses, 4);
    var t := TailBytes(g);
    assert t[..8] == BigEndian.ToBytes(g.expiresAt, 8) && t[8..12] == BigEndian.ToBytes(g.maxUses, 4);
  }

  /**
   The written grant byte by byte: version 3, the UUID, the multihash of the PeerId, expiry and use limit,
   a byte of flags, and the mesh name behind its length.
   */
  lemma WireLayout(g: Grant)
    ensures ToWire(g).Ok? <==>
              !g.inviteId.NotUuid? && !g.inviter.NotPeerId? && (g.meshName.Some? ==> |g.meshName.value| <= 255)
    ensures ToWire(g).Ok? ==>
              var w, key := ToWire(g).value, if g.inviter.Identity? then g.inviter.key else g.inviter.digest;
              var p := 19 + |key|;
              var name := if g.meshName.Some? then g.meshName.value else [];
              && |w| == p + 14 + |name|
              && w[0] == 3 && w[1..17] == g.inviteId.uuid
              && w[17] == (if g.inviter.Identity? then 0 else 0x12) && w[18] == |key| && w[19..p] == key
              && BigEndian.FromBytes(w[p..p + 8]) == g.expiresAt && BigEndian.FromBytes(w[p + 8..p + 12]) == g.maxUses
              && w[p + 12] == (if g.canInvite then 1 else 0) + (if g.role == "client" then 2 else 0)
              && w[p + 13] == |name| && w[p + 14..] == name
  {
    if ToWire(g).Ok? {
      var w, peer := ToWire(g).value, PeerBytes(g.inviter);
      HeadLayout(g, w);
      TailLayout(g);
      hide ToWire, TailBytes;
      var p := 17 + |peer|;
      assert w[17] == peer[0] && w[18] == peer[1] && w[19..p] == peer[2..];
      assert w[p..p + 8] == w[p..][..8] && w[p + 8..p + 12] == w[p..][8..12];
      assert w[p + 12] == w[p..][12] && w[p + 13] == w[p..][13] && w[p + 14..] == w[p..][14..];
    }
  }

  /** The messages that are read: this version, an identity PeerId, everything there, and a name in UTF-8. */
  lemma ReadsExactly(data: seq<byte>)
    ensures FromWire(data).Ok? <==>
              && |data| >= 33 && data[0] == 3 && data[17] == 0 && data[18] <= 42
              && var key: nat := data[18];
              && |data| >= 33 + key
              && var name: nat := data[32 + key];
              && |data| >= 33 + key + name && Utf8.Valid(data[33 + key..33 + key + name])
  {
    hide Utf8.Valid, ReadTail, Assemble;
    if |data| >= 19 {
      var key: nat := data[18];
      if |data| >= 19 + key {
        TailReadsExactly(data, key);
      }
    }
  }

  lemma TailReadsExactly(data: seq<byte>, key: nat)
    requires |data| >= 19 + key
    ensures ReadTail(data[19 + key..]).Ok? <==>
              && |data| >= 33 + key
              && var name: nat := data[32 + key];
              && |data| >= 33 + key + name && Utf8.Valid(data[33 + key..33 + key + name])
  {
    hide Utf8.Valid;
    var t := data[19 + key..];
    if |data| >= 33 + key {
      var name: nat := t[13];
      assert t[13] == data[32 + key];
      if |data| >= 33 + key + name {
        assert t[14..14 + name] == data[33 + key..33 + key + name];
        NoName();
      }
    }
  }

  lemma NoName()
    ensures Utf8.Valid([])
  {
  }
}
