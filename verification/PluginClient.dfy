/**
 The plugin's end of the session: a pending table, an incremental deframer over
 whatever chunks the pipe delivers, and one way for a connection to fail.
 */
module PluginClient {
  import opened Common
  import opened Transcript
  import opened Framing

  const MAX_INFLIGHT_REQUESTS := 32
  const MAX_SAFE_INTEGER: nat := 0x1F_FFFF_FFFF_FFFF

  datatype Response = Response(id: int, failed: bool, body: Bytes)

  /** JSON, UTF-8 and the shape of a response with a numeric id: a library and a pure check. */
  type Parser = Bytes -> Option<Response>

  datatype Outcome = Answered(response: Response) | ConnectionFailed

  datatype Child = Child(number: nat, exited: bool)

  /**
   A request that entered the table is known by its ticket, the number of ids
   issued before its own; outcomes lists how often its promise was settled.
   */
  datatype Client = Client(
    pending: map<int, nat>,
    timers: set<nat>,
    buffer: Bytes,
    nextId: nat,
    child: Option<Child>,
    issued: nat,
    spawned: nat,
    outcomes: map<nat, seq<Outcome>>)

  const INITIAL := Client(map[], {}, [], 1, None, 0, 0, map[])

  function Settled(outcomes: map<nat, seq<Outcome>>, t: nat, o: Outcome): map<nat, seq<Outcome>> {
    outcomes[t := (if t in outcomes then outcomes[t] else []) + [o]]
  }

  function Rejected(outcomes: map<nat, seq<Outcome>>, tickets: set<nat>): map<nat, seq<Outcome>> {
    map t | t in outcomes :: if t in tickets then outcomes[t] + [ConnectionFailed] else outcomes[t]
  }

  function Tickets(pending: map<int, nat>): set<nat> {
    set id | id in pending :: pending[id]
  }

  /** failConnection: forget the child and the bytes, reject everything pending. */
  function Fail(c: Client): Client {
    c.(child := None, buffer := [], pending := map[], timers := c.timers - Tickets(c.pending),
       outcomes := Rejected(c.outcomes, Tickets(c.pending)))
  }

  function Answer(c: Client, r: Response): Client
    requires r.id in c.pending
  {
    var t := c.pending[r.id];
    c.(pending := c.pending - {r.id}, timers := c.timers - {t}, outcomes := Settled(c.outcomes, t, Answered(r)))
  }

  /** Take frames off the buffer until none is complete; anything unexpected fails the connection. */
  function Drain(parse: Parser, c: Client): Client
    decreases |c.buffer|
  {
    match CutFrame(c.buffer)
    case Incomplete => c
    case BadLength(_) => Fail(c)
    case Cut(payload, rest) =>
      var r := parse(payload);
      if r.None? || r.value.id !in c.pending then Fail(c)
      else Drain(parse, Answer(c.(buffer := rest), r.value))
  }

  function Cap(c: Client): nat {
    (MAX_FRAME_BYTES + 4) * (if |c.pending| == 0 then 1 else |c.pending|)
  }

  function Accept(parse: Parser, c: Client, chunk: Bytes): Client {
    if |c.buffer| + |chunk| > Cap(c) then Fail(c) else Drain(parse, c.(buffer := c.buffer + chunk))
  }

  predicate Current(c: Client, number: nat) {
    c.child.Some? && c.child.value.number == number
  }

  function OnData(parse: Parser, c: Client, number: nat, chunk: Bytes): Client {
    if Current(c, number) then Accept(parse, c, chunk) else c
  }

  function AfterId(id: nat): nat {
    if id >= MAX_SAFE_INTEGER then 1 else id + 1
  }

  predicate Admitted(c: Client, writable: bool) {
    c.child.Some? && !c.child.value.exited && writable && |c.pending| < MAX_INFLIGHT_REQUESTS
  }

  /** The id is taken before the size of the request is looked at. */
  function Request(c: Client, writable: bool, size: nat): Client {
    if !Admitted(c, writable) then c
    else
      var d := c.(nextId := AfterId(c.nextId), issued := c.issued + 1);
      if size == 0 || size > MAX_FRAME_BYTES then d
      else d.(pending := c.pending[c.nextId := c.issued], timers := c.timers + {c.issued},
              outcomes := c.outcomes[c.issued := []])
  }

  // ------------------------------------------------------------ the object

  class PluginSessionClient {
    var pending: map<int, nat>
    var timers: set<nat>
    var buffer: Bytes
    var nextId: nat
    var child: Option<Child>
    var issued: nat
    var spawned: nat
    var outcomes: map<nat, seq<Outcome>>

    function State(): Client
      reads this
    {
      Client(pending, timers, buffer, nextId, child, issued, spawned, outcomes)
    }

    constructor ()
      ensures State() == INITIAL
    {
      pending, timers, buffer, nextId, child, issued, spawned, outcomes := map[], {}, [], 1, None, 0, 0, map[];
    }

    method FailConnection()
      modifies this
      ensures State() == Fail(old(State()))
    {
      hide Rejected;
      child, buffer := None, [];
      var left := Tickets(pending);
      ghost var done := {};
      RejectNone(outcomes);
      while left != {}
        invariant left <= Tickets(pending) && done == Tickets(pending) - left
        invariant pending == old(pending) && nextId == old(nextId) && issued == old(issued) && spawned == old(spawned)
        invariant child == None && buffer == []
        invariant timers == old(timers) - done && outcomes == Rejected(old(outcomes), done)
        decreases left
      {
        var t :| t in left;
        RejectOneMore(old(outcomes), done, t);
        timers := timers - {t};
        outcomes := Rejected(outcomes, {t});
        left := left - {t};
        done := done + {t};
      }
      assert done == Tickets(pending);
      pending := map[];
    }

    method AllocateRequestId() returns (id: nat)
      modifies this
      ensures id == old(nextId)
      ensures State() == old(State()).(nextId := AfterId(old(nextId)), issued := old(issued) + 1)
      ensures nextId == if old(nextId) >= 9007199254740991 then 1 else old(nextId) + 1
    {
      id := nextId;
      nextId := if id >= MAX_SAFE_INTEGER then 1 else nextId + 1;
      issued := issued + 1;
    }

    /** Up to the write: check, allocate, and enter the table with a timer. */
    method EnterRequest(writable: bool, size: nat) returns (entered: Option<nat>)
      modifies this
      ensures State() == Request(old(State()), writable, size)
      ensures entered.Some? <==>
        old(child).Some? && !old(child).value.exited && writable && |old(pending)| < 32 && 0 < size <= 4 * 1024 * 1024
      ensures entered.Some? ==> entered.value == old(nextId) && pending == old(pending)[entered.value := old(issued)]
      ensures entered.None? ==> pending == old(pending)
    {
      if child.None? || child.value.exited || !writable {
        return None;
      }
      if |pending| >= MAX_INFLIGHT_REQUESTS {
        return None;
      }
      var ticket := issued;
      var id := AllocateRequestId();
      if size == 0 || size > MAX_FRAME_BYTES {
        return None;
      }
      pending := pending[id := ticket];
      timers := timers + {ticket};
      outcomes := outcomes[ticket := []];
      entered := Some(id);
    }

    method AcceptStdout(parse: Parser, chunk: Bytes)
      modifies this
      ensures State() == Accept(parse, old(State()), chunk)
      ensures var most := (4 * 1024 * 1024 + 4) * (if old(pending) == map[] then 1 else |old(pending)|);
              State() == if |old(buffer)| + |chunk| > most then Fail(old(State()))
                         else Drain(parse, old(State()).(buffer := old(buffer) + chunk))
    {
      if |buffer| + |chunk| > (MAX_FRAME_BYTES + 4) * (if |pending| == 0 then 1 else |pending|) {
        FailConnection();
        return;
      }
      buffer := buffer + chunk;
      ghost var all := State();
      hide Drain, Fail, Settled, FromBigEndian;
      while |buffer| >= 4
        invariant Drain(parse, all) == Drain(parse, State())
        decreases |buffer|
      {
        DrainStep(parse, State());
        var length := FromBigEndian(buffer[..4]);
        if length == 0 || length > MAX_FRAME_BYTES {
          FailConnection();
          return;
        }
        if |buffer| < 4 + length {
          return;
        }
        var payload := buffer[4..4 + length];
        var response := parse(payload);
        if response.None? || response.value.id !in pending {
          FailConnection();
          return;
        }
        buffer := buffer[4 + length..];
        var t := pending[response.value.id];
        timers := timers - {t};
        pending := pending - {response.value.id};
        outcomes := Settled(outcomes, t, Answered(response.value));
      }
      DrainStep(parse, State());
    }
  }

  lemma DrainStep(parse: Parser, c: Client)
    ensures var cut := CutFrame(c.buffer);
            Drain(parse, c) ==
              if cut.Incomplete? then c
              else if cut.BadLength? || parse(cut.payload).None? || parse(cut.payload).value.id !in c.pending then Fail(c)
              else Drain(parse, Answer(c.(buffer := cut.rest), parse(cut.payload).value))
  {
  }

  lemma RejectNone(outcomes: map<nat, seq<Outcome>>)
    ensures Rejected(outcomes, {}) == outcomes
  {
  }

  lemma RejectOneMore(outcomes: map<nat, seq<Outcome>>, done: set<nat>, t: nat)
    requires t !in done
    ensures Rejected(Rejected(outcomes, done), {t}) == Rejected(outcomes, done + {t})
  {
  }

  // ------------------------------------------------------------ chunks

  predicate Drained(c: Client) {
    c.child.Some? ==> CutFrame(c.buffer).Incomplete?
  }

  lemma {:induction false} DrainDrains(parse: Parser, c: Client)
    ensures Drained(Drain(parse, c))
    ensures Drain(parse, c).child.Some? ==> Drain(parse, c).child == c.child
    decreases |c.buffer|
  {
    var cut := CutFrame(c.buffer);
    if cut.Cut? {
      var r := parse(cut.payload);
      if r.Some? && r.value.id in c.pending {
        DrainDrains(parse, Answer(c.(buffer := cut.rest), r.value));
      }
    }
  }

  /** Draining what is there and then the rest is draining it all. */
  lemma {:induction false} DrainSplit(parse: Parser, c: Client, more: Bytes)
    requires c.child.Some?
    ensures var d := Drain(parse, c);
            Drain(parse, c.(buffer := c.buffer + more))
            == if d.child.None? then d else Drain(parse, d.(buffer := d.buffer + more))
    decreases |c.buffer|
  {
    var cut := CutFrame(c.buffer);
    if !cut.Incomplete? {
      CutOfMore(c.buffer, more);
      if cut.Cut? {
        var r := parse(cut.payload);
        if r.Some? && r.value.id in c.pending {
          var d := Answer(c.(buffer := cut.rest), r.value);
          DrainSplit(parse, d, more);
          assert d.(buffer := d.buffer + more) == Answer(c.(buffer := cut.rest + more), r.value);
        }
      }
    }
  }

  function AcceptAll(parse: Parser, c: Client, number: nat, chunks: seq<Bytes>): Client
    decreases |chunks|
  {
    if chunks == [] then c else AcceptAll(parse, OnData(parse, c, number, chunks[0]), number, chunks[1..])
  }

  function Concat(chunks: seq<Bytes>): Bytes {
    if chunks == [] then [] else chunks[0] + Concat(chunks[1..])
  }

  /** The buffer cap is not what ends the connection. */
  predicate CapHolds(parse: Parser, c: Client, number: nat, chunks: seq<Bytes>)
    decreases |chunks|
  {
    chunks != [] ==>
      && (Current(c, number) ==> |c.buffer| + |chunks[0]| <= Cap(c))
      && CapHolds(parse, OnData(parse, c, number, chunks[0]), number, chunks[1..])
  }

  /** Only the bytes count, not how they were cut into chunks. */
  lemma {:induction false} ChunksDoNotMatter(parse: Parser, c: Client, number: nat, chunks: seq<Bytes>)
    requires Current(c, number) && Drained(c) && CapHolds(parse, c, number, chunks)
    ensures AcceptAll(parse, c, number, chunks) == Drain(parse, c.(buffer := c.buffer + Concat(chunks)))
    decreases |chunks|
  {
    hide Drain, Cap, Fail, Answer;
    if chunks == [] {
      assert c.buffer + Concat(chunks) == c.buffer && c.(buffer := c.buffer) == c;
      DrainIdle(parse, c);
    } else {
      var d := Accept(parse, c, chunks[0]);
      var c1 := c.(buffer := c.buffer + chunks[0]);
      DrainDrains(parse, c1);
      DrainSplit(parse, c1, Concat(chunks[1..]));
      assert c.buffer + Concat(chunks) == c1.buffer + Concat(chunks[1..]);
      if d.child.None? {
        NoChildNoData(parse, d, number, chunks[1..]);
      } else {
        ChunksDoNotMatter(parse, d, number, chunks[1..]);
      }
    }
  }

  lemma DrainIdle(parse: Parser, c: Client)
    requires c.child.Some? && Drained(c)
    ensures Drain(parse, c) == c
  {
  }

  lemma {:induction false} NoChildNoData(parse: Parser, c: Client, number: nat, chunks: seq<Bytes>)
    requires c.child.None?
    ensures AcceptAll(parse, c, number, chunks) == c
    decreases |chunks|
  {
    if chunks != [] {
      NoChildNoData(parse, c, number, chunks[1..]);
    }
  }

  // ------------------------------------------------------------ a correct peer

  predicate IsAnswer(parse: Parser, c: Client, payload: Bytes) {
    Legal(payload) && parse(payload).Some? && parse(payload).value.id in c.pending
  }

  /** Legal frames, each the answer to a different pending request. */
  predicate Answers(parse: Parser, c: Client, ps: seq<Bytes>) {
    && (forall i :: 0 <= i < |ps| ==> IsAnswer(parse, c, ps[i]))
    && (forall i, j :: 0 <= i < j < |ps| ==> parse(ps[i]).value.id != parse(ps[j]).value.id)
  }

  function AnswerAll(parse: Parser, c: Client, ps: seq<Bytes>): Client
    requires Answers(parse, c, ps)
    decreases |ps|
  {
    if ps == [] then c
    else
      AnswersRest(parse, c, ps);
      AnswerAll(parse, Answer(c, parse(ps[0]).value), ps[1..])
  }

  lemma AnswersRest(parse: Parser, c: Client, ps: seq<Bytes>)
    requires Answers(parse, c, ps) && ps != []
    ensures Answers(parse, Answer(c, parse(ps[0]).value), ps[1..])
  {
    var d := Answer(c, parse(ps[0]).value);
    assert IsAnswer(parse, c, ps[0]);
    forall i | 0 <= i < |ps| - 1 ensures IsAnswer(parse, d, ps[1..][i]) {
      assert IsAnswer(parse, c, ps[i + 1]);
    }
  }

  lemma {:induction false} AnswersFitPending(parse: Parser, c: Client, ps: seq<Bytes>)
    requires Answers(parse, c, ps)
    ensures |ps| <= |c.pending|
    decreases |ps|
  {
    if ps != [] {
      var r := parse(ps[0]).value;
      assert IsAnswer(parse, c, ps[0]);
      AnswersRest(parse, c, ps);
      AnswersFitPending(parse, Answer(c, r), ps[1..]);
      assert c.pending.Keys == (c.pending - {r.id}).Keys + {r.id};
      assert |c.pending.Keys| == |(c.pending - {r.id}).Keys| + 1;
    }
  }

  lemma {:induction false} FramesBounded(ps: seq<Bytes>)
    requires forall i :: 0 <= i < |ps| ==> Legal(ps[i])
    ensures |Frames(ps)| <= (MAX_FRAME_BYTES + 4) * |ps|
    decreases |ps|
  {
    if ps != [] {
      FramesBounded(ps[1..]);
    }
  }

  /** The cap leaves room for every byte a correct peer may have sent. */
  lemma CapHasRoom(parse: Parser, c: Client, ps: seq<Bytes>, chunk: Bytes, future: Bytes)
    requires Answers(parse, c, ps) && c.buffer + chunk + future == Frames(ps)
    ensures |c.buffer| + |chunk| <= Cap(c)
  {
    assert forall i :: 0 <= i < |ps| ==> IsAnswer(parse, c, ps[i]) && Legal(ps[i]);
    FramesBounded(ps);
    AnswersFitPending(parse, c, ps);
    assert |c.buffer + chunk + future| == |c.buffer| + |chunk| + |future|;
    CapGrows(|ps|, |c.pending|);
  }

  lemma CapGrows(m: nat, n: nat)
    requires m <= n
    ensures (MAX_FRAME_BYTES + 4) * m <= (MAX_FRAME_BYTES + 4) * (if n == 0 then 1 else n)
  {
  }

  /** The bytes held and the bytes to come are whole frames, each answering a different pending request. */
  predicate PeerIsCorrect(parse: Parser, c: Client, ps: seq<Bytes>, future: Bytes) {
    Answers(parse, c, ps) && c.buffer + future == Frames(ps)
  }

  lemma FirstOfFrames(c: Client, ps: seq<Bytes>, future: Bytes)
    requires ps != [] && Legal(ps[0]) && c.buffer + future == Frames(ps) && |c.buffer| >= |Frame(ps[0])|
    ensures var rest := c.buffer[|Frame(ps[0])|..];
            c.buffer == Frame(ps[0]) + rest && rest + future == Frames(ps[1..])
  {
    var n := |Frame(ps[0])|;
    assert c.buffer[..n] == (c.buffer + future)[..n] == Frame(ps[0]);
    assert c.buffer[n..] + future == (c.buffer + future)[n..] == Frames(ps[1..]);
  }

  /** Cutting a correct stream: a cut-off payload is the first answer due, and no length is bad. */
  lemma CutCorrect(parse: Parser, c: Client, ps: seq<Bytes>, future: Bytes)
    requires PeerIsCorrect(parse, c, ps, future)
    ensures !CutFrame(c.buffer).BadLength?
    ensures CutFrame(c.buffer).Cut? ==>
      && ps != [] && IsAnswer(parse, c, ps[0]) && CutFrame(c.buffer).payload == ps[0]
      && PeerIsCorrect(parse, Answer(c.(buffer := CutFrame(c.buffer).rest), parse(ps[0]).value), ps[1..], future)
  {
    if ps != [] {
      assert IsAnswer(parse, c, ps[0]);
      if |c.buffer| < |Frame(ps[0])| {
        assert c.buffer == (c.buffer + future)[..|c.buffer|] == Frame(ps[0])[..|c.buffer|];
        PartOfFrame(ps[0], |c.buffer|);
      } else {
        FirstOfFrames(c, ps, future);
        var rest := c.buffer[|Frame(ps[0])|..];
        CutOfFrame(ps[0], rest);
        BufferIsNoAnswer(parse, c, rest, ps);
        AnswersRest(parse, c.(buffer := rest), ps);
      }
    }
  }

  /** Draining never fails a correct peer, and leaves it correct for what is still due. */
  lemma {:induction false} DrainKeepsPeer(parse: Parser, c: Client, ps: seq<Bytes>, future: Bytes) returns (k: nat)
    requires PeerIsCorrect(parse, c, ps, future)
    ensures k <= |ps| && PeerIsCorrect(parse, Drain(parse, c), ps[k..], future)
    ensures Drain(parse, c).child == c.child
    decreases |ps|
  {
    hide PeerIsCorrect, Answers;
    CutCorrect(parse, c, ps, future);
    var cut := CutFrame(c.buffer);
    k := 0;
    if cut.Cut? {
      var j := DrainKeepsPeer(parse, Answer(c.(buffer := cut.rest), parse(ps[0]).value), ps[1..], future);
      k := j + 1;
      assert ps[k..] == ps[1..][j..];
    } else {
      assert ps[0..] == ps;
    }
  }

  /** A buffer of whole frames is answered frame by frame. */
  lemma {:induction false} DrainFrames(parse: Parser, c: Client, ps: seq<Bytes>)
    requires Answers(parse, c, ps) && c.buffer == Frames(ps)
    ensures Drain(parse, c) == AnswerAll(parse, c, ps).(buffer := [])
    decreases |ps|
  {
    hide Answer;
    if ps != [] {
      assert IsAnswer(parse, c, ps[0]);
      var rest := Frames(ps[1..]);
      CutOfFrame(ps[0], rest);
      var r := parse(ps[0]).value;
      AnswerCommutes(c, rest, r);
      AnswersRest(parse, c, ps);
      BufferIsNoAnswer(parse, Answer(c, r), rest, ps[1..]);
      DrainFrames(parse, Answer(c, r).(buffer := rest), ps[1..]);
      AnswerAllBuffer(parse, Answer(c, r), rest, ps[1..]);
    }
  }

  lemma AnswerCommutes(c: Client, rest: Bytes, r: Response)
    requires r.id in c.pending
    ensures Answer(c.(buffer := rest), r) == Answer(c, r).(buffer := rest)
  {
  }

  lemma BufferIsNoAnswer(parse: Parser, c: Client, rest: Bytes, ps: seq<Bytes>)
    ensures Answers(parse, c, ps) <==> Answers(parse, c.(buffer := rest), ps)
  {
    assert forall p :: IsAnswer(parse, c, p) <==> IsAnswer(parse, c.(buffer := rest), p);
  }

  lemma {:induction false} AnswerAllBuffer(parse: Parser, c: Client, rest: Bytes, ps: seq<Bytes>)
    requires Answers(parse, c, ps) && Answers(parse, c.(buffer := rest), ps)
    ensures AnswerAll(parse, c.(buffer := rest), ps) == AnswerAll(parse, c, ps).(buffer := rest)
    decreases |ps|
  {
    if ps != [] {
      var r := parse(ps[0]).value;
      assert IsAnswer(parse, c, ps[0]);
      AnswerCommutes(c, rest, r);
      AnswersRest(parse, c, ps);
      AnswersRest(parse, c.(buffer := rest), ps);
      AnswerAllBuffer(parse, Answer(c, r), rest, ps[1..]);
    }
  }

  lemma {:induction false} CapHoldsForPeer(parse: Parser, c: Client, number: nat, ps: seq<Bytes>, chunks: seq<Bytes>)
    requires Current(c, number) && PeerIsCorrect(parse, c, ps, Concat(chunks))
    ensures CapHolds(parse, c, number, chunks)
    decreases |chunks|
  {
    hide Drain, Cap, Answers;
    if chunks != [] {
      var future := Concat(chunks[1..]);
      assert c.buffer + Concat(chunks) == c.buffer + chunks[0] + future;
      CapHasRoom(parse, c, ps, chunks[0], future);
      var c1 := c.(buffer := c.buffer + chunks[0]);
      BufferIsNoAnswer(parse, c, c1.buffer, ps);
      var k := DrainKeepsPeer(parse, c1, ps, future);
      CapHoldsForPeer(parse, Drain(parse, c1), number, ps[k..], chunks[1..]);
    }
  }

  /**
   The buffer cap never turns a correct peer away: whatever the chunks, the
   connection lives and each frame settles its own request.
   */
  lemma CorrectPeerIsServed(parse: Parser, c: Client, number: nat, ps: seq<Bytes>, chunks: seq<Bytes>)
    requires Current(c, number) && Drained(c) && PeerIsCorrect(parse, c, ps, Concat(chunks))
    ensures CapHolds(parse, c, number, chunks)
    ensures AcceptAll(parse, c, number, chunks) == AnswerAll(parse, c, ps).(buffer := [])
  {
    hide Drain, Cap, Answers, CapHolds, AcceptAll, AnswerAll;
    CapHoldsForPeer(parse, c, number, ps, chunks);
    ChunksDoNotMatter(parse, c, number, chunks);
    BufferIsNoAnswer(parse, c, Frames(ps), ps);
    DrainFrames(parse, c.(buffer := Frames(ps)), ps);
    AnswerAllBuffer(parse, c, Frames(ps), ps);
  }

  /** A peer stays correct while requests are entered between chunks, and may then answer those too. */
  lemma RequestKeepsPeer(parse: Parser, c: Client, ps: seq<Bytes>, future: Bytes, size: nat, p: Bytes)
    requires PeerIsCorrect(parse, c, ps, future) && c.nextId !in c.pending
    requires Admitted(c, true) && 0 < size <= MAX_FRAME_BYTES
    requires Legal(p) && parse(p).Some? && parse(p).value.id == c.nextId
    ensures PeerIsCorrect(parse, Request(c, true, size), ps, future)
    ensures PeerIsCorrect(parse, Request(c, true, size), ps + [p], future + Frame(p))
  {
    hide Frames, Frame, AfterId, Legal;
    var d := Request(c, true, size);
    forall i | 0 <= i < |ps| ensures IsAnswer(parse, d, ps[i]) && parse(ps[i]).value.id != c.nextId {
      assert IsAnswer(parse, c, ps[i]);
    }
    FramesAppend(ps, p);
    assert c.buffer + future + Frame(p) == c.buffer + (future + Frame(p));
  }

  lemma {:induction false} FramesAppend(ps: seq<Bytes>, p: Bytes)
    ensures Frames(ps + [p]) == Frames(ps) + Frame(p)
    decreases |ps|
  {
    if ps == [] {
      assert ps + [p] == [p] && Frames([p]) == Frame(p) + [] == Frame(p);
    } else {
      FramesAppend(ps[1..], p);
      assert (ps + [p])[1..] == ps[1..] + [p];
    }
  }

  // ------------------------------------------------------------ runs

  datatype Event =
    | Spawn
    | Exit(number: nat)
    | Ask(writable: bool, size: nat)
    | Data(number: nat, chunk: Bytes)
    | Ended(number: nat)
    | Timeout(ticket: nat)
    | WriteFailed(ticket: nat)
    | Close

  predicate Enabled(c: Client, e: Event) {
    match e
    case Spawn => c.child.None? || c.child.value.exited
    case Exit(n) => Current(c, n)
    case Timeout(t) => t in c.timers
    case WriteFailed(t) => t in c.outcomes
    case _ => true
  }

  function Next(parse: Parser, c: Client, e: Event): Client {
    match e
    case Spawn => c.(child := Some(Child(c.spawned, false)), spawned := c.spawned + 1)
    case Exit(n) => if Current(c, n) then c.(child := Some(Child(n, true))) else c
    case Ask(writable, size) => Request(c, writable, size)
    case Data(n, chunk) => OnData(parse, c, n, chunk)
    case Ended(n) => if Current(c, n) then Fail(c) else c
    case Timeout(_) => Fail(c)
    case WriteFailed(_) => Fail(c)
    case Close => Fail(c)
  }

  function IdOf(ticket: nat): nat {
    ticket % MAX_SAFE_INTEGER + 1
  }

  /** The request is still in the table under its own id. */
  predicate Open(c: Client, t: nat) {
    IdOf(t) in c.pending && c.pending[IdOf(t)] == t
  }

  ghost predicate Inv(c: Client) {
    && c.nextId == IdOf(c.issued)
    && |c.pending| <= MAX_INFLIGHT_REQUESTS
    && (forall id :: id in c.pending ==> IsEntry(c, id))
    && (forall t :: t in c.timers ==> Open(c, t))
    && (forall t :: t in c.outcomes ==> IsCounted(c, t))
  }

  predicate IsEntry(c: Client, id: int) {
    id in c.pending && id == IdOf(c.pending[id]) && c.pending[id] in c.outcomes && c.pending[id] in c.timers
  }

  /** Not settled while in the table; settled once, by its own response or by a failure, when out of it. */
  predicate IsCounted(c: Client, t: nat) {
    && t in c.outcomes && t < c.issued
    && (Open(c, t) ==> c.outcomes[t] == [])
    && (!Open(c, t) ==> |c.outcomes[t]| == 1)
    && (forall o :: o in c.outcomes[t] && o.Answered? ==> o.response.id == IdOf(t))
  }

  lemma AnswerKeepsInv(c: Client, r: Response)
    requires Inv(c) && r.id in c.pending
    ensures Inv(Answer(c, r))
  {
    var d := Answer(c, r);
    var t := c.pending[r.id];
    assert IsEntry(c, r.id);
    assert IsCounted(c, t);
    forall id | id in d.pending ensures IsEntry(d, id) {
      assert IsEntry(c, id);
    }
    forall u | u in d.outcomes ensures IsCounted(d, u) {
      assert IsCounted(c, u);
    }
    forall u | u in d.timers ensures Open(d, u) {
      assert Open(c, u);
    }
    SmallerMap(c.pending, r.id);
  }

  lemma SmallerMap(m: map<int, nat>, k: int)
    requires k in m
    ensures |m - {k}| + 1 == |m|
  {
    assert m.Keys == (m - {k}).Keys + {k};
  }

  lemma NotOpenNotPending(c: Client, u: nat)
    requires forall id :: id in c.pending ==> IsEntry(c, id)
    ensures u in Tickets(c.pending) <==> Open(c, u)
  {
    assert forall id :: id in c.pending ==> IsEntry(c, id) && (c.pending[id] == u ==> Open(c, u));
  }

  lemma FailKeepsInv(c: Client)
    requires Inv(c)
    ensures Inv(Fail(c)) && Fail(c).pending == map[] && Fail(c).timers == {}
    ensures forall t | t in Fail(c).outcomes :: |Fail(c).outcomes[t]| == 1
  {
    var d := Fail(c);
    forall u | u in d.outcomes ensures IsCounted(d, u) && |d.outcomes[u]| == 1 {
      assert IsCounted(c, u);
      NotOpenNotPending(c, u);
    }
    forall u | u in c.timers ensures u in Tickets(c.pending) {
      NotOpenNotPending(c, u);
    }
  }

  /** A timeout, a failed write, a close, or the end of the current child's output rejects all that is pending, and nothing else. */
  lemma WhatEndsTheConnection(parse: Parser, c: Client, e: Event)
    requires Inv(c)
    requires e.Timeout? || e.WriteFailed? || e.Close? || (e.Ended? && c.child.Some? && c.child.value.number == e.number)
    ensures var d := Next(parse, c, e);
            && d.child.None? && d.buffer == [] && d.pending == map[] && d.timers == {} && d.outcomes.Keys == c.outcomes.Keys
            && forall t :: t in c.outcomes ==>
                 d.outcomes[t] == if Open(c, t) then [ConnectionFailed] else c.outcomes[t]
  {
    FailKeepsInv(c);
    forall t | t in c.outcomes ensures t in Tickets(c.pending) <==> Open(c, t) {
      NotOpenNotPending(c, t);
    }
    assert forall t :: t in c.outcomes && Open(c, t) ==> IsCounted(c, t);
  }

  /** What a child that is no longer the current one writes, and how it ends, is ignored. */
  lemma OldChildrenAreIgnored(parse: Parser, c: Client, e: Event)
    requires e.Data? || e.Exit? || e.Ended?
    requires c.child.None? || c.child.value.number != e.number
    ensures Next(parse, c, e) == c
  {
  }

  lemma {:induction false} DrainKeepsInv(parse: Parser, c: Client)
    requires Inv(c)
    ensures Inv(Drain(parse, c))
    decreases |c.buffer|
  {
    hide Inv, Answer, Fail;
    var cut := CutFrame(c.buffer);
    FailKeepsInv(c);
    if cut.Cut? {
      var r := parse(cut.payload);
      if r.Some? && r.value.id in c.pending {
        BufferKeepsInv(c, cut.rest);
        AnswerKeepsInv(c.(buffer := cut.rest), r.value);
        AnswerKeepsBuffer(c.(buffer := cut.rest), r.value);
        DrainKeepsInv(parse, Answer(c.(buffer := cut.rest), r.value));
      }
    }
  }

  lemma AnswerKeepsBuffer(c: Client, r: Response)
    requires r.id in c.pending
    ensures Answer(c, r).buffer == c.buffer
  {
  }

  lemma BufferKeepsInv(c: Client, b: Bytes)
    requires Inv(c)
    ensures Inv(c.(buffer := b))
  {
    var d := c.(buffer := b);
    forall id | id in d.pending ensures IsEntry(d, id) { assert IsEntry(c, id); }
    forall t | t in d.timers ensures Open(d, t) { assert Open(c, t); }
    forall t | t in d.outcomes ensures IsCounted(d, t) { assert IsCounted(c, t); }
  }

  /** Fewer than 2^53 - 1 ids were allocated since the oldest pending request took its own. */
  ghost predicate Recent(c: Client) {
    forall id :: id in c.pending ==> c.issued - c.pending[id] < MAX_SAFE_INTEGER
  }

  lemma SameResidue(a: nat, b: nat)
    requires a < b
    ensures IdOf(a) == IdOf(b) <==> (b - a) % MAX_SAFE_INTEGER == 0
  {
    var m := MAX_SAFE_INTEGER;
    var q, r := a / m, a % m;
    var p, s := b / m, b % m;
    assert a == q * m + r && b == p * m + s;
    assert b - a == (p - q) * m + (s - r);
    if r == s {
      ModOfMultiple(p - q);
      assert b - a == (p - q) * m;
    }
  }

  lemma ModOfMultiple(k: int)
    ensures (k * MAX_SAFE_INTEGER) % MAX_SAFE_INTEGER == 0
  {
  }

  /** The next id is already pending exactly when some entry is a whole number of id cycles old. */
  lemma NextIdCollides(c: Client)
    requires Inv(c)
    ensures c.nextId in c.pending <==>
      exists id :: id in c.pending && (c.issued - c.pending[id]) % MAX_SAFE_INTEGER == 0
    ensures Recent(c) ==> c.nextId !in c.pending
  {
    forall id | id in c.pending
      ensures c.pending[id] < c.issued
      ensures id == c.nextId <==> (c.issued - c.pending[id]) % MAX_SAFE_INTEGER == 0
    {
      assert IsEntry(c, id);
      assert IsCounted(c, c.pending[id]);
      SameResidue(c.pending[id], c.issued);
    }
    if Recent(c) {
      RecentIsNoMultiple(c);
    }
  }

  lemma RecentIsNoMultiple(c: Client)
    requires Inv(c) && Recent(c)
    ensures forall id :: id in c.pending ==> (c.issued - c.pending[id]) % MAX_SAFE_INTEGER != 0
  {
    forall id | id in c.pending ensures (c.issued - c.pending[id]) % MAX_SAFE_INTEGER != 0 {
      assert IsEntry(c, id);
      assert IsCounted(c, c.pending[id]);
      SmallMod(c.issued - c.pending[id]);
    }
  }

  lemma SmallMod(n: nat)
    requires n < MAX_SAFE_INTEGER
    ensures n % MAX_SAFE_INTEGER == n
  {
  }

  lemma NextIdCounts(c: Client)
    requires c.nextId == IdOf(c.issued)
    ensures AfterId(c.nextId) == IdOf(c.issued + 1)
  {
    var m := MAX_SAFE_INTEGER;
    var q, r := c.issued / m, c.issued % m;
    assert c.issued == q * m + r;
    if r == m - 1 {
      assert c.issued + 1 == (q + 1) * m;
      ModOfMultiple(q + 1);
    } else {
      assert c.issued + 1 == q * m + (r + 1);
      ResidueOf(q, r + 1);
    }
  }

  lemma ResidueOf(q: nat, r: nat)
    requires r < MAX_SAFE_INTEGER
    ensures (q * MAX_SAFE_INTEGER + r) % MAX_SAFE_INTEGER == r
  {
  }

  lemma IssueKeepsInv(c: Client)
    requires Inv(c)
    ensures Inv(c.(nextId := AfterId(c.nextId), issued := c.issued + 1))
  {
    var d := c.(nextId := AfterId(c.nextId), issued := c.issued + 1);
    NextIdCounts(c);
    hide IdOf, AfterId;
    forall id | id in d.pending ensures IsEntry(d, id) { assert IsEntry(c, id); }
    forall t | t in d.timers ensures Open(d, t) { assert Open(c, t); }
    forall t | t in d.outcomes ensures IsCounted(d, t) { assert IsCounted(c, t); }
  }

  function Entered(c: Client): Client {
    c.(nextId := AfterId(c.nextId), issued := c.issued + 1, pending := c.pending[c.nextId := c.issued],
       timers := c.timers + {c.issued}, outcomes := c.outcomes[c.issued := []])
  }

  /** Nothing about the older requests changes when a request takes a free id. */
  lemma EnteredLeavesOthers(c: Client, t: nat)
    requires Inv(c) && c.nextId !in c.pending && t != c.issued
    ensures Open(Entered(c), t) == Open(c, t)
    ensures t in c.outcomes ==> IsCounted(Entered(c), t)
  {
    hide IdOf, AfterId;
    assert t in c.outcomes ==> IsCounted(c, t);
  }

  lemma EnteredIsFresh(c: Client)
    requires Inv(c) && c.nextId !in c.pending
    ensures c.issued !in c.outcomes
    ensures Open(Entered(c), c.issued) && IsCounted(Entered(c), c.issued) && IsEntry(Entered(c), c.nextId)
  {
    hide IdOf, AfterId;
    assert c.issued in c.outcomes ==> IsCounted(c, c.issued);
  }

  lemma EnteredKeepsInv(c: Client)
    requires Inv(c) && c.nextId !in c.pending && |c.pending| < MAX_INFLIGHT_REQUESTS
    ensures Inv(Entered(c))
  {
    NextIdCounts(c);
    EnteredEntries(c);
    EnteredTimers(c);
    EnteredCounts(c);
    hide IdOf, AfterId, IsCounted, Open, IsEntry;
  }

  lemma EnteredEntries(c: Client)
    requires Inv(c) && c.nextId !in c.pending
    ensures forall id :: id in Entered(c).pending ==> IsEntry(Entered(c), id)
  {
    EnteredIsFresh(c);
    hide IdOf, AfterId, IsCounted, Open;
    forall id | id in Entered(c).pending ensures IsEntry(Entered(c), id) {
      assert id != c.nextId ==> IsEntry(c, id);
    }
  }

  lemma EnteredTimers(c: Client)
    requires Inv(c) && c.nextId !in c.pending
    ensures forall t :: t in Entered(c).timers ==> Open(Entered(c), t)
  {
    EnteredIsFresh(c);
    hide IdOf, AfterId, IsCounted, Open, IsEntry;
    forall t | t in Entered(c).timers ensures Open(Entered(c), t) {
      if t != c.issued {
        EnteredLeavesOthers(c, t);
      }
    }
  }

  lemma EnteredCounts(c: Client)
    requires Inv(c) && c.nextId !in c.pending
    ensures forall t :: t in Entered(c).outcomes ==> IsCounted(Entered(c), t)
  {
    EnteredIsFresh(c);
    hide IdOf, AfterId, IsCounted, Open, IsEntry;
    forall t | t in Entered(c).outcomes ensures IsCounted(Entered(c), t) {
      if t != c.issued {
        EnteredLeavesOthers(c, t);
      }
    }
  }

  lemma RequestKeepsInv(c: Client, writable: bool, size: nat)
    requires Inv(c) && c.nextId !in c.pending
    ensures Inv(Request(c, writable, size))
  {
    hide Inv;
    IssueKeepsInv(c);
    if Admitted(c, writable) {
      EnteredKeepsInv(c);
    }
  }

  lemma ChildKeepsInv(c: Client, child: Option<Child>, spawned: nat)
    requires Inv(c)
    ensures Inv(c.(child := child, spawned := spawned))
  {
    var d := c.(child := child, spawned := spawned);
    forall id | id in d.pending ensures IsEntry(d, id) { assert IsEntry(c, id); }
    forall t | t in d.timers ensures Open(d, t) { assert Open(c, t); }
    forall t | t in d.outcomes ensures IsCounted(d, t) { assert IsCounted(c, t); }
  }

  lemma StepKeepsInv(parse: Parser, c: Client, e: Event)
    requires Inv(c) && (e.Ask? ==> c.nextId !in c.pending)
    ensures Inv(Next(parse, c, e))
  {
    hide Inv, Fail, Request, Drain, Cap;
    match e
    case Spawn => ChildKeepsInv(c, Some(Child(c.spawned, false)), c.spawned + 1);
    case Exit(n) => ChildKeepsInv(c, Some(Child(n, true)), c.spawned);
    case Ask(writable, size) => RequestKeepsInv(c, writable, size);
    case Data(n, chunk) =>
      FailKeepsInv(c);
      BufferKeepsInv(c, c.buffer + chunk);
      DrainKeepsInv(parse, c.(buffer := c.buffer + chunk));
    case _ => FailKeepsInv(c);
  }

  ghost predicate Grown(a: map<nat, seq<Outcome>>, b: map<nat, seq<Outcome>>) {
    forall t :: t in a ==> t in b && a[t] <= b[t]
  }

  lemma {:induction false} DrainGrows(parse: Parser, c: Client)
    ensures Grown(c.outcomes, Drain(parse, c).outcomes)
    decreases |c.buffer|
  {
    var cut := CutFrame(c.buffer);
    if cut.Cut? {
      var r := parse(cut.payload);
      if r.Some? && r.value.id in c.pending {
        DrainGrows(parse, Answer(c.(buffer := cut.rest), r.value));
      }
    }
  }

  /** No step forgets a request or takes back how it was settled. */
  lemma StepGrows(parse: Parser, c: Client, e: Event)
    requires Inv(c)
    ensures Grown(c.outcomes, Next(parse, c, e).outcomes)
  {
    hide Drain, Cap, AfterId;
    if e.Data? {
      DrainGrows(parse, c.(buffer := c.buffer + e.chunk));
    }
    assert c.issued !in c.outcomes by {
      assert c.issued in c.outcomes ==> IsCounted(c, c.issued);
    }
  }

  /** A run from the start: any enabled events, and ids are not used up too fast. */
  ghost predicate IsRun(parse: Parser, cs: seq<Client>, es: seq<Event>) {
    && |cs| == |es| + 1 && cs[0] == INITIAL
    && forall i :: 0 <= i < |es| ==>
         Enabled(cs[i], es[i]) && cs[i + 1] == Next(parse, cs[i], es[i]) && (es[i].Ask? ==> Recent(cs[i]))
  }

  lemma {:induction false} RunKeepsInv(parse: Parser, cs: seq<Client>, es: seq<Event>, n: nat)
    requires IsRun(parse, cs, es) && n <= |es|
    ensures Inv(cs[n])
    decreases n
  {
    hide Next, Enabled;
    if n > 0 {
      RunKeepsInv(parse, cs, es, n - 1);
      NextIdCollides(cs[n - 1]);
      StepKeepsInv(parse, cs[n - 1], es[n - 1]);
      assert cs[n] == Next(parse, cs[n - 1], es[n - 1]);
    }
  }

  /**
   Exactly once: in every run a request that entered the table is, at any later
   time, either still in it and not settled, or settled once for all, by the
   response with its own id or by the failure of the connection; and the table
   never holds more than 32 requests.
   */
  lemma {:induction false} SettledExactlyOnce(parse: Parser, cs: seq<Client>, es: seq<Event>, i: nat, n: nat, t: nat)
    requires IsRun(parse, cs, es) && i <= n <= |es| && t in cs[i].outcomes
    ensures |cs[n].pending| <= 32
    ensures t in cs[n].outcomes
    ensures Open(cs[n], t) ==> cs[n].outcomes[t] == []
    ensures !Open(cs[n], t) ==> |cs[n].outcomes[t]| == 1
    ensures cs[n].outcomes[t] != [] && cs[n].outcomes[t][0].Answered? ==> cs[n].outcomes[t][0].response.id == IdOf(t)
    ensures cs[i].outcomes[t] != [] ==> cs[n].outcomes[t] == cs[i].outcomes[t]
    decreases n
  {
    hide Next, Enabled;
    RunKeepsInv(parse, cs, es, n);
    if i < n {
      SettledExactlyOnce(parse, cs, es, i, n - 1, t);
      RunKeepsInv(parse, cs, es, n - 1);
      StepGrows(parse, cs[n - 1], es[n - 1]);
      assert cs[n] == Next(parse, cs[n - 1], es[n - 1]);
    }
    assert IsCounted(cs[n], t);
  }

  /** A request still pending has a live timer, and that timer settles it. */
  lemma PendingCanSettle(parse: Parser, c: Client, t: nat)
    requires Inv(c) && Open(c, t)
    ensures Enabled(c, Timeout(t))
    ensures var d := Next(parse, c, Timeout(t));
            d.pending == map[] && forall u | u in d.outcomes :: |d.outcomes[u]| == 1
  {
    assert IsEntry(c, IdOf(t));
    FailKeepsInv(c);
  }

  lemma {:induction false} AnswerAllKeepsInv(parse: Parser, c: Client, ps: seq<Bytes>)
    requires Inv(c) && Answers(parse, c, ps)
    ensures Inv(AnswerAll(parse, c, ps)) && Grown(c.outcomes, AnswerAll(parse, c, ps).outcomes)
    decreases |ps|
  {
    hide Inv;
    if ps != [] {
      assert IsAnswer(parse, c, ps[0]);
      AnswersRest(parse, c, ps);
      AnswerKeepsInv(c, parse(ps[0]).value);
      AnswerAllKeepsInv(parse, Answer(c, parse(ps[0]).value), ps[1..]);
    }
  }

  /** Served by a correct peer, every request gets the response that carries its id, and nothing else. */
  lemma {:induction false} EachGetsItsOwn(parse: Parser, c: Client, ps: seq<Bytes>, i: nat)
    requires Inv(c) && Answers(parse, c, ps) && i < |ps| && IsAnswer(parse, c, ps[i])
    ensures var t := c.pending[parse(ps[i]).value.id];
            var d := AnswerAll(parse, c, ps);
            t in d.outcomes && d.outcomes[t] == [Answered(parse(ps[i]).value)]
    decreases |ps|
  {
    hide Inv;
    assert IsAnswer(parse, c, ps[0]);
    var d := Answer(c, parse(ps[0]).value);
    AnswersRest(parse, c, ps);
    AnswerKeepsInv(c, parse(ps[0]).value);
    if i > 0 {
      EachGetsItsOwn(parse, d, ps[1..], i - 1);
    } else {
      var t := c.pending[parse(ps[0]).value.id];
      EntryIsOpen(c, parse(ps[0]).value.id);
      AnswerAllKeepsInv(parse, d, ps[1..]);
      OnceIsEnough(AnswerAll(parse, d, ps[1..]), t);
    }
  }

  lemma EntryIsOpen(c: Client, id: int)
    requires Inv(c) && id in c.pending
    ensures c.pending[id] in c.outcomes && c.outcomes[c.pending[id]] == []
  {
    assert IsEntry(c, id);
    assert IsCounted(c, c.pending[id]);
  }

  lemma OnceIsEnough(c: Client, t: nat)
    requires Inv(c) && t in c.outcomes
    ensures |c.outcomes[t]| <= 1
  {
    assert IsCounted(c, t);
  }

  // ------------------------------------------------------------ an id used twice

  /** In the table under no id, not settled, and no longer the next to be issued. */
  predicate Lost(c: Client, t: nat) {
    t in c.outcomes && c.outcomes[t] == [] && t !in Tickets(c.pending) && t < c.issued
  }

  /** A new request keeps the books exactly when its id is free; else it puts an older request out of the table for ever. */
  lemma OverwrittenIsLost(c: Client, size: nat)
    requires Inv(c) && Admitted(c, true) && 0 < size <= MAX_FRAME_BYTES
    ensures Inv(Request(c, true, size)) <==> c.nextId !in c.pending
    ensures c.nextId in c.pending ==> Lost(Request(c, true, size), c.pending[c.nextId])
  {
    if c.nextId !in c.pending {
      RequestKeepsInv(c, true, size);
    } else {
      var d := Request(c, true, size);
      var t := c.pending[c.nextId];
      assert IsEntry(c, c.nextId);
      assert IsCounted(c, t);
      forall id | id in d.pending ensures d.pending[id] != t {
        assert id != c.nextId ==> IsEntry(c, id);
      }
      assert t in d.outcomes && d.outcomes[t] == [] && !Open(d, t);
      assert !IsCounted(d, t);
    }
  }

  lemma {:induction false} DrainKeepsLost(parse: Parser, c: Client, t: nat)
    requires Lost(c, t)
    ensures Lost(Drain(parse, c), t)
    decreases |c.buffer|
  {
    var cut := CutFrame(c.buffer);
    if cut.Cut? {
      var r := parse(cut.payload);
      if r.Some? && r.value.id in c.pending {
        DrainKeepsLost(parse, Answer(c.(buffer := cut.rest), r.value), t);
      }
    }
  }

  lemma LostStaysLost(parse: Parser, c: Client, e: Event, t: nat)
    requires Lost(c, t)
    ensures Lost(Next(parse, c, e), t)
  {
    hide Drain, Cap, AfterId;
    if e.Data? {
      DrainKeepsLost(parse, c.(buffer := c.buffer + e.chunk), t);
    }
  }

  // ------------------------------------------------------------ a second child

  /** JSON in UTF-8: no payload that parses holds a zero byte, or a byte no UTF-8 text has. */
  ghost predicate JsonText(parse: Parser) {
    forall q, i :: parse(q).Some? && 0 <= i < |q| ==> q[i] != 0 && q[i] < 0xF8
  }

  /** Printed without trailing space: cut short, and behind a few stray bytes, the payload does not parse. */
  ghost predicate Compact(parse: Parser, p: Bytes) {
    forall x: Bytes, k :: 1 <= |x| <= 3 && 0 <= k < |p| ==> parse(x + p[..k]).None?
  }

  lemma FourBytes(b: Bytes)
    requires |b| == 4
    ensures FromBigEndian(b) == ((b[0] as nat * 256 + b[1] as nat) * 256 + b[2] as nat) * 256 + b[3] as nat
  {
    assert b[..3][..2] == b[..2] && b[..2][..1] == b[..1] && b[..1][..0] == [];
    assert FromBigEndian(b[..1]) == b[0] as nat;
    assert FromBigEndian(b[..2]) == b[0] as nat * 256 + b[1] as nat;
    assert FromBigEndian(b[..3]) == (b[0] as nat * 256 + b[1] as nat) * 256 + b[2] as nat;
  }

  /** The length bytes of a frame; the first of them is always zero. */
  lemma HeaderBytes(p: Bytes)
    requires Legal(p)
    ensures Frame(p)[0] == 0
    ensures |p| == (Frame(p)[1] as nat * 256 + Frame(p)[2] as nat) * 256 + Frame(p)[3] as nat
  {
    U32Width();
    BigEndianRoundTrip(|p|, 4);
    assert Frame(p)[..4] == BigEndian(|p|, 4);
    FourBytes(Frame(p)[..4]);
  }

  /** A length read across one to three leftover bytes can end with the frame only if its header holds a byte JSON has not. */
  lemma ShiftedLength(b: Bytes, h: Bytes, m: nat)
    requires 1 <= |b| <= 3 && |h| == 4 && h[0] == 0 && m == (h[1] as nat * 256 + h[2] as nat) * 256 + h[3] as nat
    requires FromBigEndian(b + h[..4 - |b|]) <= MAX_FRAME_BYTES && FromBigEndian(b + h[..4 - |b|]) == |b| + m
    ensures exists i :: 4 - |b| <= i < 4 && (h[i] == 0 || h[i] >= 0xF8)
  {
    var s := b + h[..4 - |b|];
    FourBytes(s);
    hide FromBigEndian;
    if |b| == 3 {
      assert s[3] == h[0];
      ShiftedByThree((b[0] as nat * 256 + b[1] as nat) * 256 + b[2] as nat, h[1] as nat * 256 + h[2] as nat, h[3] as nat);
      assert h[3] >= 0xF8;
    } else if |b| == 2 {
      assert s[2] == h[0] && s[3] == h[1];
      ShiftedByTwo(b[0] as nat * 256 + b[1] as nat, h[1] as nat, h[2] as nat, h[3] as nat);
      assert h[2] == 0 || h[2] >= 0xF8;
    } else {
      assert s[1] == h[0] && s[2] == h[1] && s[3] == h[2];
      ShiftedByOne(b[0] as nat, h[1] as nat, h[2] as nat, h[3] as nat);
      assert false;
    }
  }

  lemma ShiftedByThree(b: nat, h: nat, l: nat)
    requires l < 256 && b * 256 == 3 + h * 256 + l
    ensures l == 0xFD
  {
  }

  lemma ShiftedByTwo(b: nat, h: nat, k: nat, l: nat)
    requires h < 256 && k < 256 && l < 256 && b * 65536 + h <= MAX_FRAME_BYTES
    requires b * 65536 + h == 2 + (h * 256 + k) * 256 + l
    ensures k == 0 || k >= 0xF8
  {
  }

  lemma ShiftedByOne(b: nat, h: nat, k: nat, l: nat)
    requires h < 256 && k < 256 && l < 256 && b * 16777216 + h * 256 + k <= MAX_FRAME_BYTES
    ensures b * 16777216 + h * 256 + k != 1 + (h * 256 + k) * 256 + l
  {
  }

  /** A stretch that starts inside the header: the rest of the header, the payload, what follows. */
  lemma InsideHeader(p: Bytes, more: Bytes, j: nat, n: nat)
    requires 1 <= j <= 3 && 4 - j + n <= |Frame(p) + more|
    ensures (Frame(p) + more)[4 - j..4 - j + n] == (Frame(p)[4 - j..4] + p + more)[..n]
  {
    assert Frame(p)[4..] == p;
    assert (Frame(p) + more)[4 - j..] == Frame(p)[4 - j..4] + p + more;
  }

  lemma CutOfThree(x: Bytes, p: Bytes, more: Bytes, n: nat)
    requires n <= |x + p + more|
    ensures n < |x| ==> (x + p + more)[..n] == x[..n] + p[..0]
    ensures |x| <= n <= |x| + |p| ==> (x + p + more)[..n] == x + p[..n - |x|]
    ensures n > |x| + |p| ==> (x + p + more)[..n][|x| + |p|] == more[0]
  {
  }

  /** What stands behind the leftover bytes when a frame is cut there: part of a header, the payload, and what follows. */
  lemma ShortLeftover(parse: Parser, b: Bytes, p: Bytes, more: Bytes, n: nat)
    requires JsonText(parse) && Compact(parse, p) && Legal(p)
    requires 1 <= |b| <= 3 && (more == [] || more[0] == 0)
    requires n == FromBigEndian(b + Frame(p)[..4 - |b|]) && 1 <= n <= MAX_FRAME_BYTES
    requires 4 - |b| + n <= |Frame(p) + more|
    ensures parse((Frame(p) + more)[4 - |b|..4 - |b| + n]).None?
  {
    hide Frame, FromBigEndian, JsonText, Compact;
    var j := |b|;
    var h, x := Frame(p)[..4], Frame(p)[4 - j..4];
    HeaderParts(p, j);
    InsideHeader(p, more, j, n);
    ThreeLengths(x, p, more);
    if n == j + |p| {
      ShiftedLength(b, h, |p|);
      WholeBehindHeader(parse, x, p, h, 4 - j);
      CutOfThree(x, p, more, n);
    } else {
      ThreePiecesFail(parse, x, p, more, n);
    }
  }

  lemma ThreeLengths(x: Bytes, p: Bytes, more: Bytes)
    ensures |x + p + more| == |x| + |p| + |more| && |Frame(p) + more| == 4 + |p| + |more|
  {
  }

  lemma HeaderParts(p: Bytes, j: nat)
    requires Legal(p) && 1 <= j <= 3
    ensures var h, x := Frame(p)[..4], Frame(p)[4 - j..4];
            && h[..4 - j] == Frame(p)[..4 - j] && h[0] == 0
            && |p| == (h[1] as nat * 256 + h[2] as nat) * 256 + h[3] as nat
            && forall i :: 4 - j <= i < 4 ==> x[i - (4 - j)] == h[i]
  {
    HeaderBytes(p);
  }

  lemma WholeBehindHeader(parse: Parser, x: Bytes, p: Bytes, h: Bytes, k: nat)
    requires JsonText(parse) && k < 4 && |h| == 4 && |x| == 4 - k && forall i :: k <= i < 4 ==> x[i - k] == h[i]
    requires exists i :: k <= i < 4 && (h[i] == 0 || h[i] >= 0xF8)
    ensures parse(x + p[..|p|]).None?
  {
    var i :| k <= i < 4 && (h[i] == 0 || h[i] >= 0xF8);
    var q := x + p[..|p|];
    assert q[i - k] == h[i];
  }

  lemma ThreePiecesFail(parse: Parser, x: Bytes, p: Bytes, more: Bytes, n: nat)
    requires JsonText(parse) && Compact(parse, p) && 1 <= |x| <= 3 && p != [] && (more == [] || more[0] == 0)
    requires 1 <= n <= |x + p + more| && n != |x| + |p|
    ensures parse((x + p + more)[..n]).None?
  {
    CutOfThree(x, p, more, n);
    if n < |x| {
      assert parse(x[..n] + p[..0]).None?;
    } else if n < |x| + |p| {
      assert parse(x + p[..n - |x|]).None?;
    } else {
      var q := (x + p + more)[..n];
      assert q[|x| + |p|] == 0;
    }
  }

  lemma FirstByteIsZero(ps: seq<Bytes>)
    requires ps != [] ==> Legal(ps[0])
    ensures Frames(ps) == [] || Frames(ps)[0] == 0
  {
    if ps != [] {
      HeaderBytes(ps[0]);
    }
  }

  ghost predicate CompactFrames(parse: Parser, ps: seq<Bytes>) {
    JsonText(parse) && forall i :: 0 <= i < |ps| ==> Legal(ps[i]) && Compact(parse, ps[i])
  }

  /** Behind any leftover bytes the first frame cut off a correct stream never parses. */
  lemma LeftoverSpoils(parse: Parser, b: Bytes, ps: seq<Bytes>, part: Bytes)
    requires CompactFrames(parse, ps) && ps != []
    requires b != [] && CutFrame(b).Incomplete? && part <= Frames(ps)
    ensures CutFrame(b + part).Cut? ==> parse(CutFrame(b + part).payload).None?
  {
    var s, f := b + part, Frames(ps);
    if CutFrame(s).Cut? {
      var n := FromBigEndian(s[..4]);
      var q := s[4..4 + n];
      FirstByteIsZero(ps);
      if |b| >= 4 {
        assert s[..4] == b[..4];
        assert q[|b| - 4] == part[0] == f[0];
      } else {
        var more := Frames(ps[1..]);
        FirstByteIsZero(ps[1..]);
        assert f == Frame(ps[0]) + more;
        assert s[..4] == b + Frame(ps[0])[..4 - |b|];
        assert q == f[4 - |b|..4 - |b| + n];
        ShortLeftover(parse, b, ps[0], more, n);
      }
    }
  }

  /** Nothing pending was answered: it is as it was, or rejected with the connection. */
  ghost predicate NoneAnswered(c: Client, d: Client) {
    forall t :: t in c.outcomes ==>
      t in d.outcomes && (d.outcomes[t] == c.outcomes[t] || d.outcomes[t] == c.outcomes[t] + [ConnectionFailed])
  }

  lemma {:induction false} LeftoverAnswersNone(
    parse: Parser, c: Client, number: nat, b: Bytes, ps: seq<Bytes>, part: Bytes, chunks: seq<Bytes>)
    requires CompactFrames(parse, ps) && ps != [] && b != [] && CutFrame(b).Incomplete?
    requires Current(c, number) && c.buffer == b + part && part + Concat(chunks) <= Frames(ps)
    ensures NoneAnswered(c, AcceptAll(parse, c, number, chunks))
    decreases |chunks|
  {
    hide CompactFrames, Cap, Frames, Current, Fail;
    if chunks != [] {
      var d := OnData(parse, c, number, chunks[0]);
      var longer := part + chunks[0];
      assert longer + Concat(chunks[1..]) == part + Concat(chunks);
      assert longer <= Frames(ps) by {
        assert longer == (part + Concat(chunks))[..|longer|];
      }
      LeftoverSpoils(parse, b, ps, longer);
      assert c.buffer + chunks[0] == b + longer;
      FailAnswersNone(c, b + longer);
      OneMoreChunk(parse, c, number, chunks[0]);
      if d.child.None? {
        NoChildNoData(parse, d, number, chunks[1..]);
      } else {
        StillCurrent(c, d, number);
        LeftoverAnswersNone(parse, d, number, b, ps, longer, chunks[1..]);
      }
    }
  }

  /** A chunk after which no payload parses: the connection fails, or the bytes are only kept. */
  lemma OneMoreChunk(parse: Parser, c: Client, number: nat, chunk: Bytes)
    requires Current(c, number)
    requires CutFrame(c.buffer + chunk).Cut? ==> parse(CutFrame(c.buffer + chunk).payload).None?
    ensures var d := OnData(parse, c, number, chunk);
            || d == Fail(c) || d == Fail(c.(buffer := c.buffer + chunk)) || d == c.(buffer := c.buffer + chunk)
    ensures Fail(c).child.None? && Fail(c.(buffer := c.buffer + chunk)).child.None?
  {
  }

  lemma StillCurrent(c: Client, d: Client, number: nat)
    requires Current(c, number) && d.child == c.child
    ensures Current(d, number)
  {
  }

  lemma FailAnswersNone(c: Client, b: Bytes)
    ensures NoneAnswered(c, Fail(c)) && NoneAnswered(c, Fail(c.(buffer := b))) && NoneAnswered(c, c.(buffer := b))
  {
  }

  /** Every frame of the stream has settled its own request with its own response. */
  ghost predicate AllAnswered(parse: Parser, c: Client, ps: seq<Bytes>, d: Client)
    requires Answers(parse, c, ps)
  {
    forall i :: 0 <= i < |ps| ==> IsAnswer(parse, c, ps[i]) && OwnAnswer(parse, c, ps[i], d)
  }

  ghost predicate OwnAnswer(parse: Parser, c: Client, p: Bytes, d: Client)
    requires IsAnswer(parse, c, p)
  {
    var t := c.pending[parse(p).value.id];
    t in d.outcomes && d.outcomes[t] == [Answered(parse(p).value)]
  }

  /**
   A child is served, for any correct stream and any chunks, exactly when no
   bytes were left in the buffer by the child before it.
   */
  lemma ServedIffNothingLeft(parse: Parser, c: Client, number: nat, ps: seq<Bytes>, chunks: seq<Bytes>)
    requires Inv(c) && Current(c, number) && Drained(c) && Answers(parse, c, ps) && ps != []
    requires CompactFrames(parse, ps) && Concat(chunks) == Frames(ps)
    ensures AllAnswered(parse, c, ps, AcceptAll(parse, c, number, chunks)) <==> c.buffer == []
  {
    hide CompactFrames, AcceptAll, AnswerAll, Drain, Frames, Inv;
    var d := AcceptAll(parse, c, number, chunks);
    if c.buffer == [] {
      assert c.buffer + Concat(chunks) == Frames(ps);
      CorrectPeerIsServed(parse, c, number, ps, chunks);
      forall i | 0 <= i < |ps| ensures IsAnswer(parse, c, ps[i]) && OwnAnswer(parse, c, ps[i], d) {
        EachGetsItsOwn(parse, c, ps, i);
      }
    } else {
      assert c.buffer + [] == c.buffer && [] + Concat(chunks) == Concat(chunks);
      LeftoverAnswersNone(parse, c, number, c.buffer, ps, [], chunks);
      assert IsAnswer(parse, c, ps[0]);
      var t := c.pending[parse(ps[0]).value.id];
      EntryIsOpen(c, parse(ps[0]).value.id);
      assert t in c.outcomes && (d.outcomes[t] == [] || d.outcomes[t] == [] + [ConnectionFailed]);
      RejectedIsNotAnswered(d.outcomes[t], parse(ps[0]).value);
      assert !OwnAnswer(parse, c, ps[0], d);
    }
  }

  lemma RejectedIsNotAnswered(os: seq<Outcome>, r: Response)
    requires os == [] || os == [] + [ConnectionFailed]
    ensures os != [Answered(r)]
  {
    assert os != [] ==> os[0] == ConnectionFailed;
  }

  /** One request to each of two children, the first of which has exited but not closed. */
  function TwoAsked(left: Bytes): Client {
    Client(map[1 := 0, 2 := 1], {0, 1}, left, 3, Some(Child(1, false)), 2, 2, map[0 := [], 1 := []])
  }

  function Asked(left: Bytes): Client {
    Client(map[1 := 0], {0}, left, 2, Some(Child(0, false)), 1, 1, map[0 := []])
  }

  /** A child answers nothing but `left` and exits, and a second one answers the request written to it. */
  function Respawn(left: Bytes, p: Bytes): seq<Event> {
    [Spawn, Ask(true, 1), Data(0, left), Exit(0), Spawn, Ask(true, 1), Data(1, Frame(p))]
  }

  lemma AskedIsReached(parse: Parser, left: Bytes)
    requires |left| < 4
    ensures Enabled(INITIAL, Spawn) && Recent(Next(parse, INITIAL, Spawn))
    ensures Next(parse, Next(parse, INITIAL, Spawn), Ask(true, 1)) == Asked([])
    ensures Next(parse, Asked([]), Data(0, left)) == Asked(left)
    ensures Enabled(Asked(left), Exit(0))
  {
    assert [] + left == left;
  }

  lemma TwoAskedIsReached(parse: Parser, left: Bytes)
    requires |left| < 4
    ensures var exited := Next(parse, Asked(left), Exit(0));
            && Enabled(exited, Spawn) && Recent(Next(parse, exited, Spawn))
            && Next(parse, Next(parse, exited, Spawn), Ask(true, 1)) == TwoAsked(left)
  {
    hide Drain;
  }

  lemma RespawnRuns(parse: Parser, left: Bytes, p: Bytes) returns (cs: seq<Client>)
    requires |left| < 4
    ensures IsRun(parse, cs, Respawn(left, p))
    ensures cs[6] == TwoAsked(left) && cs[7] == Next(parse, TwoAsked(left), Data(1, Frame(p)))
  {
    hide Next, Enabled, Recent, Asked, TwoAsked, Frame, Steps;
    var fresh0, exited := Next(parse, INITIAL, Spawn), Next(parse, Asked(left), Exit(0));
    var fresh1 := Next(parse, exited, Spawn);
    AskedIsReached(parse, left);
    TwoAskedIsReached(parse, left);
    StepsSpawn(parse, INITIAL);
    StepsAsk(parse, fresh0);
    StepsData(parse, Asked([]), 0, left);
    StepsExit(parse, Asked(left), 0);
    StepsSpawn(parse, exited);
    StepsAsk(parse, fresh1);
    StepsData(parse, TwoAsked(left), 1, Frame(p));
    cs := [INITIAL, fresh0, Asked([]), Asked(left), exited, fresh1, TwoAsked(left),
           Next(parse, TwoAsked(left), Data(1, Frame(p)))];
    SevenSteps(parse, cs, Respawn(left, p));
  }

  lemma StepsSpawn(parse: Parser, c: Client)
    requires Enabled(c, Spawn)
    ensures Steps(parse, c, Spawn, Next(parse, c, Spawn))
  {
  }

  lemma StepsExit(parse: Parser, c: Client, n: nat)
    requires Enabled(c, Exit(n))
    ensures Steps(parse, c, Exit(n), Next(parse, c, Exit(n)))
  {
  }

  lemma StepsAsk(parse: Parser, c: Client)
    requires Recent(c)
    ensures Steps(parse, c, Ask(true, 1), Next(parse, c, Ask(true, 1)))
  {
    hide Next;
  }

  lemma StepsData(parse: Parser, c: Client, n: nat, chunk: Bytes)
    ensures Steps(parse, c, Data(n, chunk), Next(parse, c, Data(n, chunk)))
  {
    hide Next;
  }

  ghost predicate Steps(parse: Parser, c: Client, e: Event, d: Client) {
    Enabled(c, e) && d == Next(parse, c, e) && (e.Ask? ==> Recent(c))
  }

  lemma SevenSteps(parse: Parser, cs: seq<Client>, es: seq<Event>)
    requires |cs| == 8 && |es| == 7 && cs[0] == INITIAL
    requires Steps(parse, cs[0], es[0], cs[1]) && Steps(parse, cs[1], es[1], cs[2]) && Steps(parse, cs[2], es[2], cs[3])
    requires Steps(parse, cs[3], es[3], cs[4]) && Steps(parse, cs[4], es[4], cs[5]) && Steps(parse, cs[5], es[5], cs[6])
    requires Steps(parse, cs[6], es[6], cs[7])
    ensures IsRun(parse, cs, es)
  {
    hide Next, Enabled, Recent;
    forall i | 0 <= i < 7 ensures Steps(parse, cs[i], es[i], cs[i + 1]) {
      if i == 0 || i == 1 || i == 2 || i == 3 {
      } else {
        assert i == 4 || i == 5 || i == 6;
      }
    }
  }

  /**
   A child that has exited but not yet closed is replaced, and the bytes it left
   behind stay in the buffer. Three of them are enough: in the one run the new
   child's correct answer to its own request is read with a wrong length and the
   connection fails, while in the run without them the same answer settles it.
   */
  lemma RespawnKeepsOldBytes(parse: Parser, p: Bytes) returns (clean: seq<Client>, soiled: seq<Client>)
    requires Legal(p) && parse(p).Some? && parse(p).value.id == 2
    ensures IsRun(parse, clean, Respawn([], p)) && IsRun(parse, soiled, Respawn([0, 0, 0], p))
    ensures clean[6].pending == soiled[6].pending == map[1 := 0, 2 := 1]
    ensures 1 in clean[7].outcomes && clean[7].outcomes[1] == [Answered(parse(p).value)]
    ensures 1 in soiled[7].outcomes && soiled[7].outcomes[1] == [ConnectionFailed] && soiled[7].child == None
  {
    hide Next, Drain;
    clean := RespawnRuns(parse, [], p);
    soiled := RespawnRuns(parse, [0, 0, 0], p);
    CleanAnswer(parse, TwoAsked([]), p);
    SoiledAnswer(parse, TwoAsked([0, 0, 0]), p);
  }

  lemma CleanAnswer(parse: Parser, c: Client, p: Bytes)
    requires Legal(p) && parse(p).Some? && parse(p).value.id == 2 && c == TwoAsked([])
    ensures var d := Next(parse, c, Data(1, Frame(p)));
            1 in d.outcomes && d.outcomes[1] == [Answered(parse(p).value)]
  {
    TwoPending(c);
    assert c.buffer + Frame(p) == Frame(p) + [] == Frame(p);
    CutOfFrame(p, []);
    var d := Answer(c.(buffer := []), parse(p).value);
    assert CutFrame([]).Incomplete?;
    assert Drain(parse, d) == d;
  }

  lemma TwoPending(c: Client)
    requires c.pending == map[1 := 0, 2 := 1]
    ensures |c.pending| == 2 && Tickets(c.pending) == {0, 1}
  {
    assert c.pending.Keys == {1, 2} && |c.pending.Keys| == 2;
    assert c.pending[1] in Tickets(c.pending) && c.pending[2] in Tickets(c.pending);
  }

  lemma SoiledAnswer(parse: Parser, c: Client, p: Bytes)
    requires Legal(p) && c == TwoAsked([0, 0, 0])
    ensures var d := Next(parse, c, Data(1, Frame(p)));
            1 in d.outcomes && d.outcomes[1] == [ConnectionFailed] && d.child == None
  {
    TwoPending(c);
    HeaderBytes(p);
    var b := c.buffer + Frame(p);
    assert b[..4] == [0, 0, 0, 0];
    FourBytes(b[..4]);
    assert CutFrame(b).BadLength?;
    hide FromBigEndian, CutFrame, Frame;
    assert Drain(parse, c.(buffer := b)) == Fail(c.(buffer := b)) by {
      DrainStep(parse, c.(buffer := b));
    }
  }
}
