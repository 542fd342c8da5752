/** The byte string a membership token is signed over. */
module MembershipPayload {
  import opened Prelude
  import BigEndian
  import Utf8

  const MAX_FIELD: nat := 65535

  datatype Token = Token(
    version: byte,
    meshId: Utf8.Text,
    peerId: Utf8.Text,
    admittedBy: Utf8.Text,
    inviteId: Utf8.Text,
    canInvite: bool,
    role: string,
    issuedAt: u64,
    expiresAt: u64)

  datatype Error = FieldTooLong

  function Field(s: seq<byte>): seq<byte> { BigEndian.ToBytes(|s|, 2) + s }

  function Flags(t: Token): byte { (if t.canInvite then 1 else 0) + (if t.role == "client" then 2 else 0) }

  predicate Encodable(t: Token) {
    |t.meshId| <= MAX_FIELD && |t.peerId| <= MAX_FIELD && |t.admittedBy| <= MAX_FIELD && |t.inviteId| <= MAX_FIELD
  }

  function Fixed(t: Token): seq<byte> {
    BigEndian.ToBytes(t.issuedAt, 8) + BigEndian.ToBytes(t.expiresAt, 8) + [Flags(t)]
  }

  function Signable(t: Token): seq<byte> {
    [t.version] + (Field(t.meshId) + (Field(t.peerId) + (Field(t.admittedBy) + (Field(t.inviteId) + Fixed(t)))))
  }

  /** The growing `Vec<u8>` of the source. */
  class Buffer {
    var bytes: seq<byte>

    constructor ()
      ensures bytes == []
    {
      bytes := [];
    }

    method Push(b: byte)
      modifies this
      ensures bytes == old(bytes) + [b]
    {
      bytes := bytes + [b];
    }

    method Extend(s: seq<byte>)
      modifies this
      ensures bytes == old(bytes) + s
    {
      bytes := bytes + s;
    }

    /** `push_str`: nothing is written when the field is too long. */
    method PushStr(s: seq<byte>) returns (r: Result<(), Error>)
      modifies this
      ensures r.Ok? <==> |s| <= MAX_FIELD
      ensures bytes == if r.Ok? then old(bytes) + Field(s) else old(bytes)
    {
      if |s| > MAX_FIELD {
        return Err(FieldTooLong);
      }
      bytes := bytes + BigEndian.ToBytes(|s|, 2);
      bytes := bytes + s;
      assert bytes == old(bytes) + Field(s);
      return Ok(());
    }
  }

  method SignableBytes(t: Token) returns (r: Result<seq<byte>, Error>)
    ensures r == if Encodable(t) then Ok(Signable(t)) else Err(FieldTooLong)
  {
    var buf := new Buffer();
    buf.Push(t.version);
    var ok := buf.PushStr(t.meshId);
    if ok.Err? { return Err(FieldTooLong); }
    ok := buf.PushStr(t.peerId);
    if ok.Err? { return Err(FieldTooLong); }
    ok := buf.PushStr(t.admittedBy);
    if ok.Err? { return Err(FieldTooLong); }
    ok := buf.PushStr(t.inviteId);
    if ok.Err? { return Err(FieldTooLong); }
    buf.Extend(BigEndian.ToBytes(t.issuedAt, 8));
    buf.Extend(BigEndian.ToBytes(t.expiresAt, 8));
    var flags: byte := 0;
    if t.canInvite {
      flags := flags + 1;
    }
    if t.role == "client" {
      flags := flags + 2;
    }
    buf.Push(flags);
    assert flags == Flags(t);
    Regroup([t.version], Field(t.meshId), Field(t.peerId), Field(t.admittedBy), Field(t.inviteId),
            BigEndian.ToBytes(t.issuedAt, 8), BigEndian.ToBytes(t.expiresAt, 8), [flags]);
    return Ok(buf.bytes);
  }

  lemma Regroup(a: seq<byte>, b: seq<byte>, c: seq<byte>, d: seq<byte>, e: seq<byte>, f: seq<byte>, g: seq<byte>,
      h: seq<byte>)
    ensures [] + a + b + c + d + e + f + g + h == a + (b + (c + (d + (e + (f + g + h)))))
  {
  }

  /** A length-prefixed field ends where it says it ends. */
  lemma FieldSplits(a: seq<byte>, x: seq<byte>, b: seq<byte>, y: seq<byte>)
    requires |a| <= MAX_FIELD && |b| <= MAX_FIELD && Field(a) + x == Field(b) + y
    ensures a == b && x == y
  {
    BigEndian.Widths();
    var left, right := Field(a) + x, Field(b) + y;
    assert left[..2] == BigEndian.ToBytes(|a|, 2) && right[..2] == BigEndian.ToBytes(|b|, 2);
    BigEndian.FromTo(|a|, 2);
    BigEndian.FromTo(|b|, 2);
    assert left[2..2 + |a|] == a && right[2..2 + |b|] == b;
    assert left[2 + |a|..] == x && right[2 + |b|..] == y;
  }

  lemma FixedSplits(t: Token, u: Token)
    requires Fixed(t) == Fixed(u)
    ensures t.issuedAt == u.issuedAt && t.expiresAt == u.expiresAt && Flags(t) == Flags(u)
  {
    BigEndian.Widths();
    assert Fixed(t)[..8] == BigEndian.ToBytes(t.issuedAt, 8) && Fixed(t)[8..16] == BigEndian.ToBytes(t.expiresAt, 8);
    assert Fixed(u)[..8] == BigEndian.ToBytes(u.issuedAt, 8) && Fixed(u)[8..16] == BigEndian.ToBytes(u.expiresAt, 8);
    assert Fixed(t)[16] == Flags(t) && Fixed(u)[16] == Flags(u);
    BigEndian.FromTo(t.issuedAt, 8);
    BigEndian.FromTo(u.issuedAt, 8);
    BigEndian.FromTo(t.expiresAt, 8);
    BigEndian.FromTo(u.expiresAt, 8);
  }

  /** The fields a signature protects: everything, except that of the role only whether it is "client". */
  predicate SameSignedFields(t: Token, u: Token) {
    t.(role := u.role) == u && (t.role == "client" <==> u.role == "client")
  }

  /** Two tokens have the same payload exactly when they agree on every signed field. */
  lemma PayloadInjective(t: Token, u: Token)
    requires Encodable(t) && Encodable(u)
    ensures Signable(t) == Signable(u) <==> SameSignedFields(t, u)
  {
    if Signable(t) == Signable(u) {
      assert Signable(t)[0] == t.version && Signable(u)[0] == u.version;
      var e, e' := Field(t.inviteId) + Fixed(t), Field(u.inviteId) + Fixed(u);
      var d, d' := Field(t.admittedBy) + e, Field(u.admittedBy) + e';
      var c, c' := Field(t.peerId) + d, Field(u.peerId) + d';
      var b, b' := Field(t.meshId) + c, Field(u.meshId) + c';
      assert Signable(t)[1..] == b && Signable(u)[1..] == b';
      hide Field, Fixed, Signable;
      FieldSplits(t.meshId, c, u.meshId, c');
      FieldSplits(t.peerId, d, u.peerId, d');
      FieldSplits(t.admittedBy, e, u.admittedBy, e');
      FieldSplits(t.inviteId, Fixed(t), u.inviteId, Fixed(u));
      FixedSplits(t, u);
    }
  }

  /** A field stands at position p: its length in two bytes, then its bytes. */
  predicate FieldAt(w: seq<byte>, p: nat, s: seq<byte>) {
    p + 2 + |s| <= |w| && w[p] == |s| / 256 && w[p + 1] == |s| % 256 && w[p + 2..p + 2 + |s|] == s
  }

  lemma FieldReads(w: seq<byte>, p: nat, s: seq<byte>, rest: seq<byte>)
    requires |s| <= MAX_FIELD && p <= |w| && w[p..] == Field(s) + rest
    ensures FieldAt(w, p, s) && w[p + 2 + |s|..] == rest && |w| == p + 2 + |s| + |rest|
  {
    assert BigEndian.ToBytes(|s|, 2) == [|s| / 256, |s| % 256];
    var f := Field(s) + rest;
    assert f[0] == |s| / 256 && f[1] == |s| % 256 && f[2..2 + |s|] == s && f[2 + |s|..] == rest;
    assert w[p] == f[0] && w[p + 1] == f[1] && w[p + 2..p + 2 + |s|] == f[2..2 + |s|];
  }

  /**
   Where each signed field stands: the version, the four strings behind their two-byte lengths, the two
   times, and one byte of flags, 1 for the permission to invite and 2 for the client role.
   */
  lemma PayloadLayout(t: Token)
    ensures Encodable(t) <==>
              |t.meshId| <= 65535 && |t.peerId| <= 65535 && |t.admittedBy| <= 65535 && |t.inviteId| <= 65535
    ensures Encodable(t) ==> LaidOut(t, Signable(t))
  {
    if Encodable(t) {
      hide Signable, LaidOut;
      FieldsLaidOut(t);
    }
  }

  predicate LaidOut(t: Token, w: seq<byte>) {
    var q := 3 + |t.meshId|;
    var r := q + 2 + |t.peerId|;
    var u := r + 2 + |t.admittedBy|;
    var v := u + 2 + |t.inviteId|;
    && |w| == v + 17 && w[0] == t.version
    && FieldAt(w, 1, t.meshId) && FieldAt(w, q, t.peerId) && FieldAt(w, r, t.admittedBy) && FieldAt(w, u, t.inviteId)
    && BigEndian.FromBytes(w[v..v + 8]) == t.issuedAt && BigEndian.FromBytes(w[v + 8..v + 16]) == t.expiresAt
    && w[v + 16] == (if t.canInvite then 1 else 0) + (if t.role == "client" then 2 else 0)
  }

  lemma FieldsLaidOut(t: Token)
    requires Encodable(t)
    ensures LaidOut(t, Signable(t))
  {
    var w := Signable(t);
    SignableHead(t);
    FixedReads(t);
    hide Fixed, Signable, FieldAt, AfterMesh, AfterPeer, AfterAdmitter;
    FieldReads(w, 1, t.meshId, AfterMesh(t));
    var q := 3 + |t.meshId|;
    MiddleReads(t, w, q);
    var u := q + 2 + |t.peerId| + 2 + |t.admittedBy|;
    hide Field;
    EndAt(w, u + 2 + |t.inviteId|, Fixed(t));
  }

  function AfterAdmitter(t: Token): seq<byte> { Field(t.inviteId) + Fixed(t) }
  function AfterPeer(t: Token): seq<byte> { Field(t.admittedBy) + AfterAdmitter(t) }
  function AfterMesh(t: Token): seq<byte> { Field(t.peerId) + AfterPeer(t) }

  lemma SignableHead(t: Token)
    ensures |Signable(t)| > 0 && Signable(t)[0] == t.version && Signable(t)[1..] == Field(t.meshId) + AfterMesh(t)
  {
    hide Field, Fixed;
  }

  lemma MiddleReads(t: Token, w: seq<byte>, q: nat)
    requires Encodable(t) && q <= |w| && w[q..] == AfterMesh(t)
    ensures var r := q + 2 + |t.peerId|;
            var u := r + 2 + |t.admittedBy|;
            var v := u + 2 + |t.inviteId|;
            && FieldAt(w, q, t.peerId) && FieldAt(w, r, t.admittedBy) && FieldAt(w, u, t.inviteId)
            && v <= |w| && w[v..] == Fixed(t)
  {
    hide Field, Fixed, FieldAt;
    FieldReads(w, q, t.peerId, AfterPeer(t));
    var r := q + 2 + |t.peerId|;
    FieldReads(w, r, t.admittedBy, AfterAdmitter(t));
    FieldReads(w, r + 2 + |t.admittedBy|, t.inviteId, Fixed(t));
  }

  lemma EndAt(w: seq<byte>, v: nat, end: seq<byte>)
    requires v <= |w| && w[v..] == end && |end| == 17
    ensures |w| == v + 17 && w[v..v + 8] == end[..8] && w[v + 8..v + 16] == end[8..16] && w[v + 16] == end[16]
  {
  }

  lemma FixedReads(t: Token)
    ensures |Fixed(t)| == 17
    ensures BigEndian.FromBytes(Fixed(t)[..8]) == t.issuedAt && BigEndian.FromBytes(Fixed(t)[8..16]) == t.expiresAt
    ensures Fixed(t)[16] == (if t.canInvite then 1 else 0) + (if t.role == "client" then 2 else 0)
  {
    BigEndian.Widths();
    BigEndian.FromTo(t.issuedAt, 8);
    BigEndian.FromTo(t.expiresAt, 8);
    assert Fixed(t)[..8] == BigEndian.ToBytes(t.issuedAt, 8) && Fixed(t)[8..16] == BigEndian.ToBytes(t.expiresAt, 8);
  }
}
