/** The byte string both sides authenticate: nine length-prefixed fields. */
module Transcript {

  newtype byte = x: int | 0 <= x < 256

  type Bytes = seq<byte>

  const PROTOCOL_VERSION := 1

  const U64_LIMIT: nat := 0x1_0000_0000_0000_0000

  datatype Role = Plugin | McpReadonly

  datatype Hello = Hello(protocolVersion: nat, clientVersion: Bytes, role: Role, clientNonce: Bytes)

  datatype Actor = ServerSide | ClientSide

  datatype AuthTranscript = AuthTranscript(
    hello: Hello, serverVersion: Bytes, sessionId: Bytes, serverNonce: Bytes)

  /** Big-endian digits of a number, `width` bytes of them. */
  function BigEndian(n: nat, width: nat): (b: Bytes)
    ensures |b| == width
  {
    if width == 0 then [] else BigEndian(n / 256, width - 1) + [(n % 256) as byte]
  }

  function FromBigEndian(b: Bytes): nat {
    if b == [] then 0 else FromBigEndian(b[..|b| - 1]) * 256 + b[|b| - 1] as nat
  }

  function Power256(width: nat): nat {
    if width == 0 then 1 else 256 * Power256(width - 1)
  }

  lemma {:induction false} BigEndianRoundTrip(n: nat, width: nat)
    requires n < Power256(width)
    ensures FromBigEndian(BigEndian(n, width)) == n
    decreases width
  {
    if width > 0 {
      var b := BigEndian(n, width);
      assert b[..|b| - 1] == BigEndian(n / 256, width - 1);
      BigEndianRoundTrip(n / 256, width - 1);
    }
  }

  lemma U64Width()
    ensures Power256(8) == U64_LIMIT
  {
    assert Power256(4) == 0x1_0000_0000;
    assert Power256(6) == 0x1_0000_0000_0000;
  }

  /** update_field: eight length bytes, then the field. */
  function Field(f: Bytes): Bytes {
    BigEndian(|f|, 8) + f
  }

  function Fields(fs: seq<Bytes>): Bytes {
    if fs == [] then [] else Field(fs[0]) + Fields(fs[1..])
  }

  predicate FitU64(fs: seq<Bytes>) {
    forall i :: 0 <= i < |fs| ==> |fs[i]| < U64_LIMIT
  }

  lemma FieldSplits(f: Bytes, g: Bytes, s: Bytes, t: Bytes)
    requires |f| < U64_LIMIT && |g| < U64_LIMIT && Field(f) + s == Field(g) + t
    ensures f == g && s == t
  {
    var a, b := Field(f) + s, Field(g) + t;
    U64Width();
    BigEndianRoundTrip(|f|, 8);
    BigEndianRoundTrip(|g|, 8);
    assert a[..8] == BigEndian(|f|, 8) && b[..8] == BigEndian(|g|, 8);
    assert |f| == |g|;
    assert a[8..8 + |f|] == f && b[8..8 + |g|] == g;
    assert a[8 + |f|..] == s && b[8 + |g|..] == t;
  }

  lemma NoFieldIsEmpty(fs: seq<Bytes>)
    ensures |Fields(fs)| >= if fs == [] then 0 else 8
  {
  }

  /** Length prefixes make the encoding injective, whatever the fields hold and however many there are. */
  lemma {:induction false} FieldsInjective(fs: seq<Bytes>, gs: seq<Bytes>)
    requires FitU64(fs) && FitU64(gs) && Fields(fs) == Fields(gs)
    ensures fs == gs
    decreases |fs|
  {
    NoFieldIsEmpty(fs);
    NoFieldIsEmpty(gs);
    if fs != [] && gs != [] {
      FieldSplits(fs[0], gs[0], Fields(fs[1..]), Fields(gs[1..]));
      FieldsInjective(fs[1..], gs[1..]);
      assert fs == [fs[0]] + fs[1..] && gs == [gs[0]] + gs[1..];
    }
  }

  /** ASCII, as `as_bytes` gives it. */
  function Ascii(s: string): (b: Bytes)
    requires forall i :: 0 <= i < |s| ==> s[i] < 128 as char
    ensures |b| == |s|
  {
    seq(|s|, i requires 0 <= i < |s| => (s[i] as int) as byte)
  }

  const DOMAIN: Bytes := Ascii("grimmore-ipc-auth-v1")

  function ActorBytes(a: Actor): Bytes {
    match a
    case ServerSide => Ascii("server")
    case ClientSide => Ascii("client")
  }

  function RoleBytes(r: Role): Bytes {
    match r
    case Plugin => Ascii("plugin")
    case McpReadonly => Ascii("mcp-readonly")
  }

  function TranscriptFields(a: Actor, t: AuthTranscript): seq<Bytes> {
    [ DOMAIN,
      ActorBytes(a),
      BigEndian(t.hello.protocolVersion, 2),
      t.hello.clientVersion,
      RoleBytes(t.hello.role),
      t.hello.clientNonce,
      t.serverVersion,
      t.sessionId,
      t.serverNonce ]
  }

  /** The bytes fed to the MAC. */
  function Encode(a: Actor, t: AuthTranscript): Bytes {
    Fields(TranscriptFields(a, t))
  }

  lemma FieldsInOrder(a: Actor, t: AuthTranscript)
    ensures TranscriptFields(a, t) == [
              Ascii("grimmore-ipc-auth-v1"), if a.ServerSide? then Ascii("server") else Ascii("client"),
              BigEndian(t.hello.protocolVersion, 2), t.hello.clientVersion,
              if t.hello.role.Plugin? then Ascii("plugin") else Ascii("mcp-readonly"),
              t.hello.clientNonce, t.serverVersion, t.sessionId, t.serverNonce]
  {
    hide Ascii, BigEndian;
  }

  /** transcript_mac: the MAC is fed one field after the other. */
  method Feed(a: Actor, t: AuthTranscript) returns (fed: Bytes)
    ensures fed == Encode(a, t)
    ensures fed == Fields([
              Ascii("grimmore-ipc-auth-v1"), if a.ServerSide? then Ascii("server") else Ascii("client"),
              BigEndian(t.hello.protocolVersion, 2), t.hello.clientVersion,
              if t.hello.role.Plugin? then Ascii("plugin") else Ascii("mcp-readonly"),
              t.hello.clientNonce, t.serverVersion, t.sessionId, t.serverNonce])
  {
    FieldsInOrder(a, t);
    hide TranscriptFields, BigEndian;
    var fields := TranscriptFields(a, t);
    fed := [];
    for i := 0 to |fields|
      invariant fed + Fields(fields[i..]) == Fields(fields)
    {
      assert fields[i..][1..] == fields[i + 1..];
      assert fed + (Field(fields[i]) + Fields(fields[i + 1..])) == (fed + Field(fields[i])) + Fields(fields[i + 1..]);
      fed := fed + Field(fields[i]);
    }
  }

  /** Fields of a transcript that the machine's types can hold. */
  predicate Representable(t: AuthTranscript) {
    && t.hello.protocolVersion < 0x1_0000
    && |t.hello.clientVersion| < U64_LIMIT && |t.hello.clientNonce| < U64_LIMIT
    && |t.serverVersion| < U64_LIMIT && |t.sessionId| < U64_LIMIT && |t.serverNonce| < U64_LIMIT
  }

  lemma NamesApart()
    ensures ActorBytes(ServerSide) != ActorBytes(ClientSide)
    ensures RoleBytes(Plugin) != RoleBytes(McpReadonly)
  {
    assert ActorBytes(ServerSide)[0] == 's' as int as byte;
    assert ActorBytes(ClientSide)[0] == 'c' as int as byte;
  }

  /** Equal bytes mean the same side proving the same transcript, field by field. */
  lemma EncodeInjective(a: Actor, t: AuthTranscript, b: Actor, u: AuthTranscript)
    requires Representable(t) && Representable(u) && Encode(a, t) == Encode(b, u)
    ensures a == b && t == u
  {
    var fs, gs := TranscriptFields(a, t), TranscriptFields(b, u);
    FieldsInjective(fs, gs);
    NamesApart();
    U16Width();
    BigEndianRoundTrip(t.hello.protocolVersion, 2);
    BigEndianRoundTrip(u.hello.protocolVersion, 2);
    hide ActorBytes, RoleBytes, BigEndian, FromBigEndian, Power256, Ascii, Fields, FitU64;
    assert fs[1] == gs[1] && fs[4] == gs[4];
    assert fs[2] == gs[2] && fs[3] == gs[3] && fs[5] == gs[5];
    assert fs[6] == gs[6] && fs[7] == gs[7] && fs[8] == gs[8];
  }

  lemma U16Width()
    ensures Power256(2) == 0x1_0000
  {
  }
}
