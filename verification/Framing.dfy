/** Length-prefixed frames: writing one, reading one, and cutting them from a growing buffer. */
module Framing {
  import opened Common
  import opened Transcript

  const MAX_FRAME_BYTES := 4 * 1024 * 1024

  datatype FrameError = Empty | TooLarge(length: nat) | Io | Json

  predicate Legal(payload: Bytes) {
    0 < |payload| <= MAX_FRAME_BYTES
  }

  function Frame(payload: Bytes): (f: Bytes)
    ensures |f| == 4 + |payload|
  {
    BigEndian(|payload|, 4) + payload
  }

  function Frames(ps: seq<Bytes>): Bytes {
    if ps == [] then [] else Frame(ps[0]) + Frames(ps[1..])
  }

  /** The first frame of a buffer: not all there yet, a length no frame has, or cut off from what follows. */
  datatype Cut = Incomplete | BadLength(length: nat) | Cut(payload: Bytes, rest: Bytes)

  function CutFrame(b: Bytes): (c: Cut)
    ensures c.Cut? ==> |c.rest| < |b|
  {
    if |b| < 4 then Incomplete
    else
      var n := FromBigEndian(b[..4]);
      if n == 0 || n > MAX_FRAME_BYTES then BadLength(n)
      else if |b| < 4 + n then Incomplete
      else Cut(b[4..4 + n], b[4 + n..])
  }

  // ------------------------------------------------------------ one frame at a time

  class Reader {
    var bytes: Bytes

    /** read_exact: all of them or an error at the end of the stream. */
    method ReadExact(n: nat) returns (r: Option<Bytes>)
      modifies this
      ensures n <= |old(bytes)| ==> r == Some(old(bytes)[..n]) && bytes == old(bytes)[n..]
      ensures n > |old(bytes)| ==> r == None && bytes == []
    {
      if n > |bytes| {
        bytes := [];
        return None;
      }
      r := Some(bytes[..n]);
      bytes := bytes[n..];
    }
  }

  class Writer {
    var bytes: Bytes

    method WriteAll(b: Bytes)
      modifies this
      ensures bytes == old(bytes) + b
    {
      bytes := bytes + b;
    }
  }

  function Read<T>(parse: Bytes -> Option<T>, b: Bytes): Result<T, FrameError> {
    match CutFrame(b)
    case Incomplete => Failure(Io)
    case BadLength(n) => Failure(if n == 0 then Empty else TooLarge(n))
    case Cut(payload, _) =>
      var value := parse(payload);
      if value.None? then Failure(Json) else Success(value.value)
  }

  /** The length a frame announces: its first four bytes, the greatest first. */
  function Announced(b: Bytes): nat
    requires |b| >= 4
  {
    b[0] as int * 0x100_0000 + b[1] as int * 0x1_0000 + b[2] as int * 0x100 + b[3] as int
  }

  lemma HeaderIsAnnounced(b: Bytes)
    requires |b| >= 4
    ensures FromBigEndian(b[..4]) == Announced(b)
  {
    var h := b[..4];
    assert h[..3][..2] == h[..2] && h[..2][..1] == h[..1] && h[..1][..0] == [];
    assert FromBigEndian(h[..1]) == b[0] as int;
    assert FromBigEndian(h[..2]) == b[0] as int * 0x100 + b[1] as int;
    assert FromBigEndian(h[..3]) == b[0] as int * 0x1_0000 + b[1] as int * 0x100 + b[2] as int;
  }

  /** What a read answers, on the bytes that are there. */
  lemma ReadOutcome<T>(parse: Bytes -> Option<T>, b: Bytes)
    ensures var r := Read(parse, b);
            && (|b| < 4 ==> r == Failure(Io))
            && (|b| >= 4 && Announced(b) == 0 ==> r == Failure(Empty))
            && (|b| >= 4 && Announced(b) > 4 * 1024 * 1024 ==> r == Failure(TooLarge(Announced(b))))
            && (|b| >= 4 && 0 < Announced(b) <= 4 * 1024 * 1024 ==>
                  if |b| - 4 < Announced(b) then r == Failure(Io)
                  else match parse(b[4..][..Announced(b)])
                       case None => r == Failure(Json)
                       case Some(value) => r == Success(value))
  {
    if |b| >= 4 {
      HeaderIsAnnounced(b);
      var n := Announced(b);
      if n <= |b| - 4 {
        assert b[4..][..n] == b[4..4 + n];
      }
    }
  }

  method ReadJson<T>(reader: Reader, parse: Bytes -> Option<T>) returns (r: Result<T, FrameError>)
    modifies reader
    ensures r == Read(parse, old(reader.bytes))
    ensures CutFrame(old(reader.bytes)).Cut? ==> reader.bytes == CutFrame(old(reader.bytes)).rest
  {
    ghost var before := reader.bytes;
    var header := reader.ReadExact(4);
    if header.None? {
      return Failure(Io);
    }
    var length := FromBigEndian(header.value);
    if length == 0 {
      return Failure(Empty);
    }
    if length > MAX_FRAME_BYTES {
      return Failure(TooLarge(length));
    }
    var payload := reader.ReadExact(length);
    if payload.None? {
      return Failure(Io);
    }
    assert before[4..][..length] == before[4..4 + length] && before[4..][length..] == before[4 + length..];
    var value := parse(payload.value);
    r := if value.None? then Failure(Json) else Success(value.value);
  }

  /** The message is already serialized; an illegal size writes nothing. */
  method WriteJson(writer: Writer, payload: Bytes) returns (error: Option<FrameError>)
    modifies writer
    ensures error.None? <==> 0 < |payload| <= 4 * 1024 * 1024
    ensures error.None? ==> writer.bytes == old(writer.bytes) + Frame(payload)
    ensures error.Some? ==> writer.bytes == old(writer.bytes)
    ensures error.Some? ==> error.value == if payload == [] then Empty else TooLarge(|payload|)
  {
    if payload == [] {
      return Some(Empty);
    }
    if |payload| > MAX_FRAME_BYTES {
      return Some(TooLarge(|payload|));
    }
    writer.WriteAll(BigEndian(|payload|, 4));
    writer.WriteAll(payload);
    error := None;
  }

  // ------------------------------------------------------------ what frames mean

  lemma U32Width()
    ensures Power256(4) == 0x1_0000_0000
  {
    assert Power256(2) == 0x1_0000;
  }

  lemma CutOfFrame(payload: Bytes, rest: Bytes)
    requires Legal(payload)
    ensures CutFrame(Frame(payload) + rest) == Cut(payload, rest)
  {
    var b := Frame(payload) + rest;
    U32Width();
    BigEndianRoundTrip(|payload|, 4);
    assert b[..4] == BigEndian(|payload|, 4);
    assert b[4..4 + |payload|] == payload && b[4 + |payload|..] == rest;
  }

  /** A cut-off frame does not depend on what came after it. */
  lemma CutOfMore(a: Bytes, b: Bytes)
    requires !CutFrame(a).Incomplete?
    ensures CutFrame(a + b) == if CutFrame(a).Cut? then CutFrame(a).(rest := CutFrame(a).rest + b) else CutFrame(a)
  {
    assert (a + b)[..4] == a[..4];
    var n := FromBigEndian(a[..4]);
    if CutFrame(a).Cut? {
      assert (a + b)[4..4 + n] == a[4..4 + n] && (a + b)[4 + n..] == a[4 + n..] + b;
    }
  }

  lemma PartOfFrame(payload: Bytes, k: nat)
    requires Legal(payload) && k < |Frame(payload)|
    ensures CutFrame(Frame(payload)[..k]) == Incomplete
  {
    U32Width();
    BigEndianRoundTrip(|payload|, 4);
    if k >= 4 {
      assert Frame(payload)[..k][..4] == BigEndian(|payload|, 4);
    }
  }

  /** Reading frame after frame until the bytes run out. */
  function ReadMany<T>(parse: Bytes -> Option<T>, b: Bytes, n: nat): Option<(seq<T>, Bytes)>
    decreases n
  {
    if n == 0 then Some(([], b))
    else if !CutFrame(b).Cut? || Read(parse, b).Failure? then None
    else match ReadMany(parse, CutFrame(b).rest, n - 1)
      case None => None
      case Some((vs, rest)) => Some(([Read(parse, b).value] + vs, rest))
  }

  /** What was written frame by frame is read back in order, with what follows left unread. */
  lemma {:induction false} FramesRoundTrip<T>(parse: Bytes -> Option<T>, encode: T -> Bytes, vs: seq<T>, tail: Bytes)
    requires forall i :: 0 <= i < |vs| ==> Legal(encode(vs[i])) && parse(encode(vs[i])) == Some(vs[i])
    ensures ReadMany(parse, Printed(encode, vs) + tail, |vs|) == Some((vs, tail))
    decreases |vs|
  {
    if vs == [] {
      assert Printed(encode, vs) + tail == tail;
    } else {
      var rest := Printed(encode, vs[1..]) + tail;
      assert Printed(encode, vs) + tail == Frame(encode(vs[0])) + rest;
      CutOfFrame(encode(vs[0]), rest);
      FramesRoundTrip(parse, encode, vs[1..], tail);
      assert vs == [vs[0]] + vs[1..];
    }
  }

  lemma {:induction false} PrintedAppend<T>(encode: T -> Bytes, vs: seq<T>, v: T)
    ensures Printed(encode, vs + [v]) == Printed(encode, vs) + Frame(encode(v))
    decreases |vs|
  {
    if vs == [] {
      assert vs + [v] == [v] && [v][1..] == [];
    } else {
      PrintedAppend(encode, vs[1..], v);
      assert (vs + [v])[1..] == vs[1..] + [v];
    }
  }

  function Printed<T>(encode: T -> Bytes, vs: seq<T>): Bytes {
    if vs == [] then [] else Frame(encode(vs[0])) + Printed(encode, vs[1..])
  }
}
