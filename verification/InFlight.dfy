/**
 One connection of the companion: the loop that reads request frames, the
 workers it spawns, and the table of requests in flight they share.
 */
module InFlight {
  import opened Common
  import Transcript
  import Framing

  const MAX_REQUEST_WINDOW_MS := 30_000
  const MAX_INFLIGHT_REQUESTS := 32

  type Role = Transcript.Role

  datatype Method = Health | SearchNotes | ProposeNoteReplacement | Cancel(target: Option<nat>) | Other

  datatype Request = Request(
    id: nat, version: string, vault: string, grant: string, scope: string, deadline: nat, call: Method)

  /** A result, or an error code; every response carries the id of its request. */
  datatype Body = Result(value: string) | Cancelled(cancelled: bool) | Error(code: int)

  datatype Response = Response(id: nat, body: Body)

  datatype ServiceError = Stale | Invalid

  /**
   The configuration of the endpoint; the services behind it, search and
   proposals, as they answer a request at some moment; and the JSON of a response.
   */
  datatype Config = Config(
    vault: string, grant: string, scope: string, expiresAt: nat, role: Role,
    serve: (nat, Request) -> Result<string, ServiceError>,
    encode: Response -> Transcript.Bytes)

  // ------------------------------------------------------------ one request

  function ValidateEnvelope(config: Config, now: nat, r: Request): Option<int> {
    if r.version != "2.0" then Some(-32600)
    else if r.vault != config.vault || r.grant != config.grant || r.scope != config.scope then Some(-32001)
    else if r.deadline <= now || r.deadline - now > MAX_REQUEST_WINDOW_MS then Some(-32004)
    else None
  }

  predicate CanWriteProposals(role: Role) {
    role == Transcript.Plugin
  }

  function Serve(config: Config, now: nat, r: Request): Body {
    match config.serve(now, r)
    case Success(value) => Result(value)
    case Failure(Stale) => Error(if r.call.ProposeNoteReplacement? then -32007 else -32602)
    case Failure(Invalid) => Error(-32602)
  }

  function Dispatch(config: Config, now: nat, r: Request): Response {
    Response(r.id,
      if r.deadline <= now then Error(-32004)
      else match r.call
        case Health => Serve(config, now, r)
        case SearchNotes => Serve(config, now, r)
        case ProposeNoteReplacement => if CanWriteProposals(config.role) then Serve(config, now, r) else Error(-32003)
        case Cancel(_) => Error(-32601)
        case Other => Error(-32601))
  }

  // ------------------------------------------------------------ the table

  /** Which frame holds each id, and the frames whose token was cancelled. */
  datatype Table = Table(requests: map<nat, nat>, cancelled: set<nat>)

  datatype Verdict = Admitted | Duplicate | TooMany

  function Judge(t: Table, id: nat): Verdict {
    if id in t.requests then Duplicate
    else if |t.requests| >= MAX_INFLIGHT_REQUESTS then TooMany
    else Admitted
  }

  function Admit(t: Table, id: nat, frame: nat): Table {
    if Judge(t, id).Admitted? then t.(requests := t.requests[id := frame]) else t
  }

  function CancelOne(t: Table, id: nat): Table {
    if id in t.requests then Table(t.requests - {id}, t.cancelled + {t.requests[id]}) else t
  }

  function Tokens(requests: map<nat, nat>): set<nat> {
    set id | id in requests :: requests[id]
  }

  function CancelEvery(t: Table): Table {
    Table(map[], t.cancelled + Tokens(t.requests))
  }

  function Remove(t: Table, id: nat): Table {
    t.(requests := t.requests - {id})
  }

  class SharedTable {
    var requests: map<nat, nat>
    var cancelled: set<nat>

    function State(): Table
      reads this
    {
      Table(requests, cancelled)
    }

    constructor ()
      ensures State() == Table(map[], {})
    {
      requests, cancelled := map[], {};
    }

    method Enter(id: nat, frame: nat) returns (v: Verdict)
      modifies this
      ensures v == Judge(old(State()), id) && State() == Admit(old(State()), id, frame)
    {
      if id in requests {
        return Duplicate;
      }
      if |requests| >= MAX_INFLIGHT_REQUESTS {
        return TooMany;
      }
      requests := requests[id := frame];
      v := Admitted;
    }

    method CancelRequest(r: Request) returns (response: Response)
      requires r.call.Cancel?
      modifies this
      ensures r.call.target.None? ==> State() == old(State()) && response == Response(r.id, Error(-32602))
      ensures r.call.target.Some? ==>
        && State() == CancelOne(old(State()), r.call.target.value)
        && response == Response(r.id, Cancelled(r.call.target.value in old(requests)))
    {
      if r.call.target.None? {
        return Response(r.id, Error(-32602));
      }
      var target := r.call.target.value;
      var found := target in requests;
      if found {
        cancelled := cancelled + {requests[target]};
        requests := requests - {target};
      }
      response := Response(r.id, Cancelled(found));
    }

    /** Drain the table first, then cancel each token taken from it. */
    method CancelAll()
      modifies this
      ensures State() == CancelEvery(old(State()))
    {
      var tokens := Tokens(requests);
      requests := map[];
      var left := tokens;
      while left != {}
        invariant left <= tokens && requests == map[] && cancelled == old(cancelled) + (tokens - left)
        decreases left
      {
        var t :| t in left;
        cancelled := cancelled + {t};
        left := left - {t};
      }
    }

    method Finish(id: nat)
      modifies this
      ensures State() == Remove(old(State()), id)
    {
      requests := requests - {id};
    }
  }

  // ------------------------------------------------------------ the connection

  /** A worker: in the blocking pool, with its response, past the cancellation check, about to leave the table, gone. */
  datatype Worker = Running | Ready(response: Response) | Writing(response: Response) | Leaving | Gone

  datatype Loop = Reading | Replying(frame: nat, response: Response, last: bool) | Ended

  /** A response handed to the writer while the connection was writable. */
  datatype Attempt = Attempt(frame: nat, response: Response)

  datatype State = State(
    frames: seq<Request>, loop: Loop, table: Table, workers: map<nat, Worker>,
    tried: seq<Attempt>, wire: Transcript.Bytes, broken: bool)

  const INITIAL := State([], Reading, Table(map[], {}), map[], [], [], false)

  /** write_json takes the response: its payload is neither empty nor too large. */
  predicate Fits(config: Config, p: Response) {
    Framing.Legal(config.encode(p))
  }

  /** write_response: one frame on the wire, or nothing at all. */
  function Written(config: Config, s: State, n: nat, p: Response): State {
    if s.broken then s
    else s.(tried := s.tried + [Attempt(n, p)],
            wire := if Fits(config, p) then s.wire + Framing.Frame(config.encode(p)) else s.wire)
  }

  datatype Event =
    | Receive(request: Request, now: nat)
    | EndOfStream
    | ReadError
    | Reply
    | Compute(frame: nat, now: nat, crashed: bool)
    | Check(frame: nat)
    | WriteOut(frame: nat)
    | Leave(frame: nat)
    | Break

  /** The loop takes a frame: most are answered by the loop itself, an admitted one gets a worker. */
  function Received(config: Config, s: State, r: Request, now: nat): State {
    var n := |s.frames|;
    var t := s.(frames := s.frames + [r]);
    var envelope := ValidateEnvelope(config, now, r);
    if now >= config.expiresAt then t.(loop := Replying(n, Response(r.id, Error(-32005)), true))
    else if envelope.Some? then t.(loop := Replying(n, Response(r.id, Error(envelope.value)), false))
    else if r.call.Cancel? then
      if r.call.target.None? then t.(loop := Replying(n, Response(r.id, Error(-32602)), false))
      else
        t.(loop := Replying(n, Response(r.id, Cancelled(r.call.target.value in s.table.requests)), false),
           table := CancelOne(s.table, r.call.target.value))
    else match Judge(s.table, r.id)
      case Duplicate => t.(loop := Replying(n, Response(r.id, Error(-32600)), false))
      case TooMany => t.(loop := Replying(n, Response(r.id, Error(-32006)), false))
      case Admitted => t.(table := Admit(s.table, r.id, n), workers := s.workers[n := Running])
  }

  /** The loop's own response; a write that fails ends the loop without cancelling anything. */
  function Replied(config: Config, s: State): State
    requires s.loop.Replying?
  {
    var t := Written(config, s, s.loop.frame, s.loop.response);
    if s.broken || !Fits(config, s.loop.response) then t.(loop := Ended)
    else if s.loop.last then t.(loop := Ended, table := CancelEvery(s.table))
    else t.(loop := Reading)
  }

  function Worked(config: Config, s: State, e: Event): Option<State>
    requires e.Compute? || e.Check? || e.WriteOut? || e.Leave?
  {
    var n := e.frame;
    if n !in s.workers || n >= |s.frames| then None
    else
      var id := s.frames[n].id;
      match (e, s.workers[n])
      case (Compute(_, now, crashed), Running) =>
        Some(s.(workers := s.workers[n :=
          Ready(if crashed then Response(id, Error(-32603)) else Dispatch(config, now, s.frames[n]))]))
      case (Check(_), Ready(r)) =>
        Some(s.(workers := s.workers[n := if n in s.table.cancelled then Leaving else Writing(r)]))
      case (WriteOut(_), Writing(r)) =>
        Some(Written(config, s, n, r).(workers := s.workers[n := Leaving]))
      case (Leave(_), Leaving) =>
        Some(s.(workers := s.workers[n := Gone], table := Remove(s.table, id)))
      case _ => None
  }

  /** One step of the connection, where it is enabled. A read error ends the loop without cancelling anything. */
  function Next(config: Config, s: State, e: Event): Option<State> {
    match e
    case Receive(r, now) => if s.loop.Reading? then Some(Received(config, s, r, now)) else None
    case EndOfStream => if s.loop.Reading? then Some(s.(loop := Ended, table := CancelEvery(s.table))) else None
    case ReadError => if s.loop.Reading? then Some(s.(loop := Ended)) else None
    case Reply => if s.loop.Replying? then Some(Replied(config, s)) else None
    case Break => Some(s.(broken := true))
    case _ => Worked(config, s, e)
  }

  ghost predicate IsRun(config: Config, ss: seq<State>, es: seq<Event>) {
    && |ss| == |es| + 1 && ss[0] == INITIAL
    && forall i :: 0 <= i < |es| ==> Next(config, ss[i], es[i]) == Some(ss[i + 1])
  }

  // ------------------------------------------------------------ the books

  /** Dispatched, not finished, not cancelled. */
  predicate Live(s: State, n: nat) {
    n in s.workers && s.workers[n] != Gone && n !in s.table.cancelled
  }

  predicate Holds(s: State, n: nat) {
    n < |s.frames| && s.frames[n].id in s.table.requests && s.table.requests[s.frames[n].id] == n
  }

  /** The keys of the table are the ids of the live requests, each held by its own frame. */
  ghost predicate Books(s: State) {
    && (forall n :: n in s.workers || n in s.table.cancelled ==> n < |s.frames|)
    && (forall n: nat :: Live(s, n) <==> Holds(s, n))
    && (forall id :: id in s.table.requests ==> s.table.requests[id] < |s.frames| && s.frames[s.table.requests[id]].id == id)
  }

  /** The entry a leaving worker removes is its own, or none. */
  predicate LeavesOwn(s: State, n: nat) {
    n < |s.frames| && s.frames[n].id in s.table.requests ==> s.table.requests[s.frames[n].id] == n
  }

  /** What every table operation does to the books, whatever the frames and workers. */
  lemma CancelOneKeepsBooks(s: State, id: nat)
    requires Books(s)
    ensures Books(s.(table := CancelOne(s.table, id)))
  {
    var t := s.(table := CancelOne(s.table, id));
    if id in s.table.requests {
      var m := s.table.requests[id];
      assert Holds(s, m) && s.frames[m].id == id;
      forall n: nat ensures Live(t, n) <==> Holds(t, n) {
        assert Live(s, n) <==> Holds(s, n);
      }
    } else {
      assert t == s;
    }
  }

  lemma CancelEveryKeepsBooks(s: State)
    requires Books(s)
    ensures Books(s.(table := CancelEvery(s.table)))
  {
    var t := s.(table := CancelEvery(s.table));
    forall n: nat ensures !Live(t, n) {
      assert Live(s, n) <==> Holds(s, n);
      if Holds(s, n) {
        assert s.table.requests[s.frames[n].id] in Tokens(s.table.requests);
      }
    }
  }

  /** One more frame, one more state of the loop, one more response: the table does not care. */
  lemma OutsideTheBooks(s: State, t: State)
    requires Books(s) && s.frames <= t.frames && t.table == s.table && t.workers == s.workers
    ensures Books(t)
  {
    forall n: nat ensures Live(t, n) <==> Holds(t, n) {
      assert Live(s, n) <==> Holds(s, n);
      assert n < |s.frames| ==> t.frames[n] == s.frames[n];
      if Holds(t, n) {
        assert s.table.requests[t.frames[n].id] < |s.frames|;
      }
    }
    forall id | id in t.table.requests ensures t.frames[t.table.requests[id]].id == id {
      assert t.frames[s.table.requests[id]] == s.frames[s.table.requests[id]];
    }
  }

  /** An admitted frame is live and holds its id; everything else is as before. */
  lemma AdmitKeepsBooks(s: State, r: Request)
    requires Books(s) && Judge(s.table, r.id).Admitted?
    ensures var n := |s.frames|;
            Books(s.(frames := s.frames + [r], table := Admit(s.table, r.id, n), workers := s.workers[n := Running]))
  {
    var added := |s.frames|;
    var t := s.(frames := s.frames + [r], table := Admit(s.table, r.id, added), workers := s.workers[added := Running]);
    forall n: nat ensures Live(t, n) <==> Holds(t, n) {
      assert Live(s, n) <==> Holds(s, n);
      assert n < added ==> t.frames[n] == s.frames[n];
      if n < added && Holds(t, n) {
        assert Holds(s, n);
      }
    }
    forall id | id in t.table.requests
      ensures t.table.requests[id] < |t.frames| && t.frames[t.table.requests[id]].id == id
    {
      if id != r.id {
        assert s.table.requests[id] < |s.frames|;
      }
    }
  }

  /** A worker that goes on working is as live as before. */
  lemma WorkKeepsBooks(s: State, t: State, n: nat, w: Worker)
    requires Books(s) && n in s.workers && s.workers[n] != Gone && w != Gone
    requires t.frames == s.frames && t.table == s.table && t.workers == s.workers[n := w]
    ensures Books(t)
  {
    forall m: nat ensures Live(t, m) <==> Holds(t, m) {
      assert Live(s, m) <==> Holds(s, m);
    }
  }

  /** A worker that leaves keeps the books exactly when the entry it removes is its own. */
  lemma LeaveKeepsBooksIff(config: Config, s: State, n: nat)
    requires Books(s) && Next(config, s, Leave(n)).Some?
    ensures Books(Next(config, s, Leave(n)).value) <==> LeavesOwn(s, n)
  {
    var t := Next(config, s, Leave(n)).value;
    var id := s.frames[n].id;
    assert Live(s, n) <==> Holds(s, n);
    if LeavesOwn(s, n) {
      forall m: nat ensures Live(t, m) <==> Holds(t, m) {
        assert Live(s, m) <==> Holds(s, m);
      }
    } else {
      var m := s.table.requests[id];
      assert m < |s.frames| && s.frames[m].id == id;
      assert Holds(s, m) && Live(s, m);
      assert Live(t, m) && !Holds(t, m);
    }
  }

  /** A received frame is admitted, or answered by the loop, or answered after a cancellation. */
  lemma ReceivedShape(config: Config, s: State, r: Request, now: nat)
    ensures var t := Received(config, s, r, now);
            var n := |s.frames|;
            || (Judge(s.table, r.id).Admitted?
                && t == s.(frames := s.frames + [r], table := Admit(s.table, r.id, n), workers := s.workers[n := Running]))
            || t == s.(frames := s.frames + [r], loop := t.loop)
            || (r.call.Cancel? && r.call.target.Some?
                && t == s.(frames := s.frames + [r], loop := t.loop, table := CancelOne(s.table, r.call.target.value)))
  {
    hide Admit, CancelOne, ValidateEnvelope;
  }

  lemma ReceiveKeepsBooks(config: Config, s: State, r: Request, now: nat)
    requires Books(s)
    ensures Books(Received(config, s, r, now))
  {
    hide Books, Judge, Admit, CancelOne, Received;
    ReceivedShape(config, s, r, now);
    var t := Received(config, s, r, now);
    if Judge(s.table, r.id).Admitted? {
      AdmitKeepsBooks(s, r);
    }
    OutsideTheBooks(s, s.(frames := s.frames + [r], loop := t.loop));
    if r.call.Cancel? && r.call.target.Some? {
      CancelOneKeepsBooks(s, r.call.target.value);
      var cancelled := s.(table := CancelOne(s.table, r.call.target.value));
      OutsideTheBooks(cancelled, cancelled.(frames := s.frames + [r], loop := t.loop));
    }
  }

  lemma StepKeepsBooks(config: Config, s: State, e: Event)
    requires Books(s) && Next(config, s, e).Some? && (e.Leave? ==> LeavesOwn(s, e.frame))
    ensures Books(Next(config, s, e).value)
  {
    hide Books, Received, CancelEvery, LeavesOwn, Dispatch;
    var t := Next(config, s, e).value;
    match e
    case Receive(r, now) => ReceiveKeepsBooks(config, s, r, now);
    case Leave(n) => LeaveKeepsBooksIff(config, s, n);
    case EndOfStream =>
      CancelEveryKeepsBooks(s);
      OutsideTheBooks(s.(table := CancelEvery(s.table)), t);
    case Reply =>
      CancelEveryKeepsBooks(s);
      if t.table == s.table {
        OutsideTheBooks(s, t);
      } else {
        OutsideTheBooks(s.(table := CancelEvery(s.table)), t);
      }
    case Compute(n, _, _) => WorkKeepsBooks(s, t, n, t.workers[n]);
    case Check(n) => WorkKeepsBooks(s, t, n, t.workers[n]);
    case WriteOut(n) => WorkKeepsBooks(s, t, n, t.workers[n]);
    case _ => OutsideTheBooks(s, t);
  }

  /** The client never uses a request id twice on the connection. */
  ghost predicate NoReuse(frames: seq<Request>) {
    forall i, j :: 0 <= i < j < |frames| ==> frames[i].id != frames[j].id
  }

  lemma NoReuseLeavesOwn(s: State, n: nat)
    requires Books(s) && NoReuse(s.frames)
    ensures LeavesOwn(s, n)
  {
  }

  lemma FramesGrow(config: Config, s: State, e: Event)
    requires Next(config, s, e).Some?
    ensures s.frames <= Next(config, s, e).value.frames
  {
    hide ValidateEnvelope, Judge, Admit, CancelOne, Dispatch;
  }

  /** With ids used once, the table holds exactly the live requests at every point of every run. */
  lemma {:induction false} TableIsExact(config: Config, ss: seq<State>, es: seq<Event>, n: nat)
    requires IsRun(config, ss, es) && n <= |es| && NoReuse(ss[n].frames)
    ensures Books(ss[n])
    decreases n
  {
    hide Books, Next, NoReuse;
    if n == 0 {
      EmptyBooks();
    } else {
      var s, e := ss[n - 1], es[n - 1];
      assert Next(config, s, e) == Some(ss[n]);
      FramesGrow(config, s, e);
      NoReuseOfPrefix(s.frames, ss[n].frames);
      TableIsExact(config, ss, es, n - 1);
      if e.Leave? {
        NoReuseLeavesOwn(s, e.frame);
      }
      StepKeepsBooks(config, s, e);
    }
  }

  lemma EmptyBooks()
    ensures Books(INITIAL)
  {
  }

  lemma NoReuseOfPrefix(a: seq<Request>, b: seq<Request>)
    requires a <= b && NoReuse(b)
    ensures NoReuse(a)
  {
  }

  /** Whatever the client does, no more than 32 requests are in flight in the table. */
  lemma {:induction false} TableIsBounded(config: Config, ss: seq<State>, es: seq<Event>, n: nat)
    requires IsRun(config, ss, es) && n <= |es|
    ensures |ss[n].table.requests| <= MAX_INFLIGHT_REQUESTS
    decreases n
  {
    if n > 0 {
      TableIsBounded(config, ss, es, n - 1);
      assert Next(config, ss[n - 1], es[n - 1]) == Some(ss[n]);
      StepIsBounded(config, ss[n - 1], es[n - 1]);
    }
  }

  lemma FewerKeys(m: map<nat, nat>, id: nat)
    ensures |m - {id}| <= |m|
  {
    assert (m - {id}).Keys == m.Keys - {id};
    if id in m {
      assert m.Keys == (m.Keys - {id}) + {id};
    } else {
      assert m.Keys - {id} == m.Keys;
    }
  }

  lemma OneMoreKey(m: map<nat, nat>, id: nat, n: nat)
    ensures |m[id := n]| <= |m| + 1
  {
    assert m[id := n].Keys == m.Keys + {id};
  }

  lemma StepIsBounded(config: Config, s: State, e: Event)
    requires |s.table.requests| <= MAX_INFLIGHT_REQUESTS && Next(config, s, e).Some?
    ensures |Next(config, s, e).value.table.requests| <= MAX_INFLIGHT_REQUESTS
  {
    hide ValidateEnvelope, Dispatch, Received, Worked, Replied;
    match e
    case Receive(r, now) => ReceiveIsBounded(config, s, r, now);
    case EndOfStream =>
    case ReadError =>
    case Break =>
    case Reply => ReplyAddsNothing(config, s);
    case _ => WorkIsBounded(config, s, e);
  }

  lemma ReplyAddsNothing(config: Config, s: State)
    requires s.loop.Replying?
    ensures |Replied(config, s).table.requests| <= |s.table.requests|
  {
  }

  lemma WorkIsBounded(config: Config, s: State, e: Event)
    requires e.Compute? || e.Check? || e.WriteOut? || e.Leave?
    requires |s.table.requests| <= MAX_INFLIGHT_REQUESTS && Worked(config, s, e).Some?
    ensures |Worked(config, s, e).value.table.requests| <= MAX_INFLIGHT_REQUESTS
  {
    hide ValidateEnvelope, Dispatch, Fits;
    if e.Leave? && e.frame < |s.frames| {
      FewerKeys(s.table.requests, s.frames[e.frame].id);
    }
  }

  lemma ReceiveIsBounded(config: Config, s: State, r: Request, now: nat)
    requires |s.table.requests| <= MAX_INFLIGHT_REQUESTS
    ensures |Received(config, s, r, now).table.requests| <= MAX_INFLIGHT_REQUESTS
  {
    hide Received;
    ReceivedShape(config, s, r, now);
    OneMoreKey(s.table.requests, r.id, |s.frames|);
    if r.call.Cancel? && r.call.target.Some? {
      FewerKeys(s.table.requests, r.call.target.value);
    }
  }

  // ------------------------------------------------------------ responses

  /** What a response to a request may be: its id, and no result the services did not give for it. */
  ghost predicate Fair(config: Config, r: Request, p: Response) {
    && p.id == r.id
    && (p.body.Result? ==>
          && (exists moment :: config.serve(moment, r) == Success(p.body.value))
          && (r.call.ProposeNoteReplacement? ==> config.role == Transcript.Plugin))
    && (p.body.Cancelled? ==> r.call.Cancel? && r.call.target.Some?)
  }

  predicate WasTried(s: State, n: nat) {
    exists i :: 0 <= i < |s.tried| && s.tried[i].frame == n
  }

  predicate Due(s: State, n: nat) {
    s.loop.Replying? && s.loop.frame == n
  }

  predicate HasLeft(s: State, n: nat) {
    n in s.workers && (s.workers[n].Leaving? || s.workers[n].Gone?)
  }

  predicate Holding(s: State, n: nat) {
    n in s.workers && (s.workers[n].Ready? || s.workers[n].Writing?)
  }

  ghost predicate Delivered(config: Config, s: State, m: Attempt) {
    && m.frame < |s.frames|
    && Fair(config, s.frames[m.frame], m.response)
    && (m.frame in s.workers ==> HasLeft(s, m.frame))
  }

  ghost predicate Mail(config: Config, s: State) {
    && (forall i, j :: 0 <= i < j < |s.tried| ==> s.tried[i].frame != s.tried[j].frame)
    && (forall i :: 0 <= i < |s.tried| ==> Delivered(config, s, s.tried[i]))
    && (s.loop.Replying? ==>
          && s.loop.frame < |s.frames| && s.loop.frame !in s.workers && !WasTried(s, s.loop.frame)
          && Fair(config, s.frames[s.loop.frame], s.loop.response))
    && (forall n :: n in s.workers ==> n < |s.frames|)
    && (forall n :: n in s.workers && Holding(s, n) ==> Fair(config, s.frames[n], s.workers[n].response))
    && (forall n :: 0 <= n < |s.frames| ==> Accounted(s, n))
    && s.wire == WireOf(config, s.tried)
  }

  /** What the attempts put on the wire, one frame for each response that fits one. */
  function WireOf(config: Config, tried: seq<Attempt>): Transcript.Bytes {
    if tried == [] then []
    else
      var last := tried[|tried| - 1].response;
      WireOf(config, tried[..|tried| - 1]) + (if Fits(config, last) then Framing.Frame(config.encode(last)) else [])
  }

  lemma WrittenKeepsWire(config: Config, s: State, n: nat, p: Response)
    requires s.wire == WireOf(config, s.tried)
    ensures Written(config, s, n, p).wire == WireOf(config, Written(config, s, n, p).tried)
  {
    assert (s.tried + [Attempt(n, p)])[..|s.tried|] == s.tried;
  }

  /** A frame is still with its worker or with the loop, or its response was written or refused, or it was cancelled, or the connection broke. */
  predicate Accounted(s: State, n: nat) {
    s.broken || n in s.table.cancelled || WasTried(s, n) || Due(s, n) || (n in s.workers && !HasLeft(s, n))
  }

  lemma DispatchIsFair(config: Config, now: nat, r: Request)
    ensures Fair(config, r, Dispatch(config, now, r))
  {
  }

  lemma ReceivedIsFair(config: Config, s: State, r: Request, now: nat)
    requires |s.frames| !in s.workers
    ensures var t := Received(config, s, r, now);
            t.loop != s.loop && t.loop.Replying? ==> t.loop.frame == |s.frames| && Fair(config, r, t.loop.response)
    ensures var t := Received(config, s, r, now);
            t.workers == s.workers && s.loop.Reading? ==> t.loop.Replying?
  {
    hide Judge, Admit, CancelOne, ValidateEnvelope;
    assert |s.frames| in s.workers[|s.frames| := Running];
  }

  lemma StaysAccounted(s: State, t: State, m: nat)
    requires Accounted(s, m) && s.loop.Reading? && t.tried == s.tried && t.broken == s.broken
    requires s.table.cancelled <= t.table.cancelled
    requires m in s.workers ==> m in t.workers && t.workers[m] == s.workers[m]
    ensures Accounted(t, m)
  {
  }

  lemma NewIsAccounted(t: State, m: nat)
    requires (t.loop.Replying? && t.loop.frame == m) || (m in t.workers && t.workers[m] == Running)
    ensures Accounted(t, m)
  {
  }

  /** Nothing sent, held or owed before is touched by one more frame. */
  lemma ReceiveKeepsMail(config: Config, s: State, r: Request, now: nat)
    requires Mail(config, s) && s.loop.Reading?
    ensures Mail(config, Received(config, s, r, now))
  {
    hide Received, Judge, Fair, Accounted, WireOf;
    var n := |s.frames|;
    assert n !in s.workers;
    ReceivedShape(config, s, r, now);
    ReceivedIsFair(config, s, r, now);
    var t := Received(config, s, r, now);
    assert t.tried == s.tried && t.frames == s.frames + [r] && s.table.cancelled <= t.table.cancelled && t.broken == s.broken;
    forall i | 0 <= i < |t.tried| ensures Delivered(config, t, t.tried[i]) {
      assert Delivered(config, s, s.tried[i]);
    }
    forall m: nat | m < |t.frames| ensures Accounted(t, m) {
      if m < n {
        StaysAccounted(s, t, m);
      } else {
        NewIsAccounted(t, m);
      }
    }
    if WasTried(t, n) {
      assert forall i :: 0 <= i < |s.tried| ==> Delivered(config, s, s.tried[i]) && s.tried[i].frame < n;
    }
  }

  /** One more attempt, for a frame that had none. */
  lemma TryKeepsMail(config: Config, s: State, n: nat, p: Response, t: State)
    requires Mail(config, s) && n < |s.frames| && !WasTried(s, n) && Fair(config, s.frames[n], p) && !s.broken
    requires t == Written(config, s, n, p).(loop := t.loop, table := t.table, workers := t.workers)
    requires s.table.cancelled <= t.table.cancelled && (t.loop == s.loop || (s.loop.Replying? && !t.loop.Replying?))
    requires t.loop.Replying? ==> t.loop.frame != n
    requires s.loop.Replying? && !t.loop.Replying? ==> s.loop.frame == n && t.workers == s.workers
    requires n !in s.workers ==> t.workers == s.workers
    requires n in s.workers ==> t.workers == s.workers[n := Leaving]
    ensures Mail(config, t)
  {
    hide Fair, Fits;
    WrittenKeepsWire(config, s, n, p);
    hide WireOf;
    forall i | 0 <= i < |t.tried| ensures Delivered(config, t, t.tried[i]) {
      assert i < |s.tried| ==> Delivered(config, s, s.tried[i]);
    }
    forall i, j | 0 <= i < j < |t.tried| ensures t.tried[i].frame != t.tried[j].frame {
      assert t.tried[i] == s.tried[i];
    }
    forall m: nat | m < |t.frames| ensures Accounted(t, m) {
      assert Accounted(s, m);
      TriesStay(s, t, m);
      assert t.tried[|s.tried|].frame == n;
    }
    forall m | m in t.workers && Holding(t, m) ensures Fair(config, t.frames[m], t.workers[m].response) {
      assert Holding(s, m);
    }
    OneMoreTry(s, t, n, if t.loop.Replying? then t.loop.frame else n);
  }

  lemma TriesStay(s: State, t: State, n: nat)
    requires s.tried <= t.tried
    ensures WasTried(s, n) ==> WasTried(t, n)
  {
    if WasTried(s, n) {
      var i :| 0 <= i < |s.tried| && s.tried[i].frame == n;
      assert t.tried[i].frame == n;
    }
  }

  /** A worker that moves on without sending: its response stays fair, and it is accounted for. */
  lemma WorkKeepsMail(config: Config, s: State, n: nat, w: Worker, requests: map<nat, nat>)
    requires Mail(config, s) && n in s.workers && n < |s.frames|
    requires w.Ready? || w.Writing? ==> Fair(config, s.frames[n], w.response)
    requires w.Leaving? || w.Gone? ==> HasLeft(s, n) || n in s.table.cancelled || s.broken
    requires HasLeft(s, n) ==> w.Leaving? || w.Gone?
    ensures Mail(config, s.(workers := s.workers[n := w], table := s.table.(requests := requests)))
  {
    hide Fair;
    var t := s.(workers := s.workers[n := w], table := s.table.(requests := requests));
    forall i | 0 <= i < |t.tried| ensures Delivered(config, t, t.tried[i]) {
      assert Delivered(config, s, s.tried[i]);
    }
    forall m: nat | m < |t.frames| ensures Accounted(t, m) {
      assert Accounted(s, m);
      TriesStay(s, t, m);
    }
    TriesStay(t, s, if t.loop.Replying? then t.loop.frame else 0);
  }

  lemma OneMoreTry(s: State, t: State, n: nat, m: nat)
    requires |t.tried| == |s.tried| + 1 && s.tried <= t.tried && t.tried[|s.tried|].frame == n
    ensures WasTried(t, m) ==> WasTried(s, m) || m == n
  {
    if WasTried(t, m) {
      var i :| 0 <= i < |t.tried| && t.tried[i].frame == m;
      assert i < |s.tried| ==> s.tried[i].frame == m;
    }
  }

  /** Ending the loop, cancelling or breaking the connection leaves every frame accounted for. */
  lemma EndKeepsMail(config: Config, s: State, loop: Loop, table: Table, broken: bool)
    requires Mail(config, s) && (loop == s.loop || (s.loop.Reading? && loop.Ended?))
    requires s.table.cancelled <= table.cancelled && (s.broken ==> broken)
    ensures Mail(config, s.(loop := loop, table := table, broken := broken))
  {
    hide Fair;
    var t := s.(loop := loop, table := table, broken := broken);
    forall i | 0 <= i < |t.tried| ensures Delivered(config, t, t.tried[i]) {
      assert Delivered(config, s, s.tried[i]);
    }
    forall m: nat | m < |t.frames| ensures Accounted(t, m) {
      assert Accounted(s, m);
      TriesStay(s, t, m);
    }
    TriesStay(t, s, if t.loop.Replying? then t.loop.frame else 0);
  }

  lemma ReplyKeepsMail(config: Config, s: State)
    requires Mail(config, s) && s.loop.Replying?
    ensures Mail(config, Replied(config, s))
  {
    hide Mail, Fair, Fits, Accounted, Delivered;
    var t := Replied(config, s);
    if s.broken {
      BrokenReplyKeepsMail(config, s);
    } else {
      DueIsFair(config, s);
      TryKeepsMail(config, s, s.loop.frame, s.loop.response, t);
    }
  }

  lemma DueIsFair(config: Config, s: State)
    requires Mail(config, s) && s.loop.Replying?
    ensures s.loop.frame < |s.frames| && s.loop.frame !in s.workers && !WasTried(s, s.loop.frame)
    ensures Fair(config, s.frames[s.loop.frame], s.loop.response)
  {
  }

  lemma BrokenReplyKeepsMail(config: Config, s: State)
    requires Mail(config, s) && s.loop.Replying? && s.broken
    ensures Mail(config, s.(loop := Ended))
  {
    hide Fair, WireOf;
    var t := s.(loop := Ended);
    forall i | 0 <= i < |t.tried| ensures Delivered(config, t, t.tried[i]) {
      assert Delivered(config, s, s.tried[i]);
    }
  }

  lemma WriteOutKeepsMail(config: Config, s: State, n: nat)
    requires Mail(config, s) && n in s.workers && n < |s.frames| && s.workers[n].Writing?
    ensures Mail(config, Written(config, s, n, s.workers[n].response).(workers := s.workers[n := Leaving]))
  {
    hide Mail, Fair, Fits, Accounted;
    var t := Written(config, s, n, s.workers[n].response).(workers := s.workers[n := Leaving]);
    if s.broken {
      assert s.table.(requests := s.table.requests) == s.table;
      WorkKeepsMail(config, s, n, Leaving, s.table.requests);
    } else {
      WritingIsDue(config, s, n);
      TryKeepsMail(config, s, n, s.workers[n].response, t);
    }
  }

  lemma WritingIsDue(config: Config, s: State, n: nat)
    requires Mail(config, s) && n in s.workers && n < |s.frames| && s.workers[n].Writing?
    ensures !WasTried(s, n) && Fair(config, s.frames[n], s.workers[n].response)
    ensures s.loop.Replying? ==> s.loop.frame != n
  {
    hide Fair, WireOf;
    assert Holding(s, n);
    assert forall i :: 0 <= i < |s.tried| ==> Delivered(config, s, s.tried[i]) && s.tried[i].frame != n;
  }

  lemma StepKeepsMail(config: Config, s: State, e: Event)
    requires Mail(config, s) && Next(config, s, e).Some?
    ensures Mail(config, Next(config, s, e).value)
  {
    hide Mail, Fair, Fits, Received, Replied, Written, Dispatch, Judge, Delivered, Accounted;
    var t := Next(config, s, e).value;
    match e
    case Receive(r, now) => ReceiveKeepsMail(config, s, r, now);
    case Reply => ReplyKeepsMail(config, s);
    case EndOfStream => EndKeepsMail(config, s, Ended, CancelEvery(s.table), s.broken);
    case ReadError => EndKeepsMail(config, s, Ended, s.table, s.broken);
    case Break => EndKeepsMail(config, s, s.loop, s.table, true);
    case Compute(n, now, crashed) =>
      DispatchIsFair(config, now, s.frames[n]);
      CrashIsFair(config, s.frames[n]);
      WorkKeepsMail(config, s, n, t.workers[n], s.table.requests);
    case Check(n) =>
      HeldIsFair(config, s, n);
      WorkKeepsMail(config, s, n, t.workers[n], s.table.requests);
    case WriteOut(n) => WriteOutKeepsMail(config, s, n);
    case Leave(n) => WorkKeepsMail(config, s, n, Gone, t.table.requests);
  }

  lemma CrashIsFair(config: Config, r: Request)
    ensures Fair(config, r, Response(r.id, Error(-32603)))
  {
  }

  lemma HeldIsFair(config: Config, s: State, n: nat)
    requires Mail(config, s) && n in s.workers && s.workers[n].Ready?
    ensures n < |s.frames| && Fair(config, s.frames[n], s.workers[n].response)
  {
    assert Holding(s, n);
  }

  lemma {:induction false} MailHolds(config: Config, ss: seq<State>, es: seq<Event>, n: nat)
    requires IsRun(config, ss, es) && n <= |es|
    ensures Mail(config, ss[n])
    decreases n
  {
    hide Next;
    if n > 0 {
      MailHolds(config, ss, es, n - 1);
      StepKeepsMail(config, ss[n - 1], es[n - 1]);
      assert Next(config, ss[n - 1], es[n - 1]) == Some(ss[n]);
    }
  }

  // ------------------------------------------------------------ which requests may be served

  /** On its own fields and the moment it came: the request is one this session may make. */
  ghost predicate Entitled(config: Config, r: Request, at: nat) {
    && at < config.expiresAt
    && r.version == "2.0"
    && r.vault == config.vault && r.grant == config.grant && r.scope == config.scope
    && at < r.deadline <= at + 30_000
  }

  /** And if it is not: the error of the first test it fails. */
  ghost predicate Refusal(config: Config, r: Request, at: nat, code: int) {
    || (code == -32005 && at >= config.expiresAt)
    || (code == -32600 && at < config.expiresAt && r.version != "2.0")
    || (code == -32001 && at < config.expiresAt && r.version == "2.0"
        && (r.vault, r.grant, r.scope) != (config.vault, config.grant, config.scope))
    || (code == -32004 && at < config.expiresAt && r.version == "2.0"
        && (r.vault, r.grant, r.scope) == (config.vault, config.grant, config.scope)
        && (r.deadline <= at || r.deadline > at + 30_000))
  }

  /** What the services make of an entitled request at the moment a worker takes it up. */
  ghost predicate Outcome(config: Config, r: Request, moment: nat, body: Body) {
    || (moment >= r.deadline && body == Error(-32004))
    || (moment < r.deadline && r.call.Other? && body == Error(-32601))
    || (moment < r.deadline && r.call.ProposeNoteReplacement? && config.role != Transcript.Plugin && body == Error(-32003))
    || (moment < r.deadline && (r.call.Health? || r.call.SearchNotes? ||
                                (r.call.ProposeNoteReplacement? && config.role == Transcript.Plugin))
        && match config.serve(moment, r)
           case Success(value) => body == Result(value)
           case Failure(Stale) => body == Error(if r.call.ProposeNoteReplacement? then -32007 else -32602)
           case Failure(Invalid) => body == Error(-32602))
  }

  /** Every body a request that came at some moment may be answered with. */
  ghost predicate MayAnswer(config: Config, r: Request, at: nat, body: Body) {
    if !Entitled(config, r, at) then body.Error? && Refusal(config, r, at, body.code)
    else match r.call
      case Cancel(None) => body == Error(-32602)
      case Cancel(Some(_)) => body.Cancelled?
      case _ => body in {Error(-32600), Error(-32006), Error(-32603)} || exists moment :: Outcome(config, r, moment, body)
  }

  /** When each frame of a run came. */
  function Moments(es: seq<Event>): seq<nat> {
    if es == [] then []
    else
      var last := es[|es| - 1];
      Moments(es[..|es| - 1]) + (if last.Receive? then [last.now] else [])
  }

  /** What the loop does with a frame, on the frame's own fields and what the table holds. */
  lemma ReceiptDecides(config: Config, s: State, r: Request, now: nat)
    requires s.loop.Reading? && |s.frames| !in s.workers
    ensures var t := Received(config, s, r, now);
            var n := |s.frames|;
            && (n in t.workers <==>
                  Entitled(config, r, now) && !r.call.Cancel? && r.id !in s.table.requests && |s.table.requests| < 32)
            && (n in t.workers ==> t.workers == s.workers[n := Running] && t.loop == s.loop)
            && (n !in t.workers ==>
                  && t.workers == s.workers && t.loop.Replying? && t.loop.frame == n && t.loop.response.id == r.id
                  && MayAnswer(config, r, now, t.loop.response.body)
                  && (t.loop.last <==> now >= config.expiresAt)
                  && (Entitled(config, r, now) && !r.call.Cancel? ==>
                        t.loop.response.body == Error(if r.id in s.table.requests then -32600 else -32006))
                  && (Entitled(config, r, now) && r.call.Cancel? && r.call.target.Some? ==>
                        t.loop.response.body == Cancelled(r.call.target.value in s.table.requests)))
            && (t.table.cancelled != s.table.cancelled ==> Entitled(config, r, now) && r.call.Cancel?)
  {
    hide Admit, Outcome;
    assert |s.frames| in s.workers[|s.frames| := Running];
    AdmitLeavesTokens(s.table, r.id, |s.frames|);
  }

  lemma CancelsWhenEntitled(config: Config, s: State, r: Request, now: nat)
    ensures Received(config, s, r, now).table.cancelled != s.table.cancelled ==> Entitled(config, r, now)
  {
    AdmitLeavesTokens(s.table, r.id, |s.frames|);
    hide Admit, CancelOne;
  }

  lemma AdmitLeavesTokens(t: Table, id: nat, n: nat)
    ensures Admit(t, id, n).cancelled == t.cancelled
  {
  }

  /** Each worker serves, and each answer held, owed or tried is for, a frame in the way its fields and its moment allow. */
  ghost predicate Lawful(config: Config, s: State, at: seq<nat>) {
    && |at| == |s.frames|
    && (forall n :: n in s.workers ==> n < |s.frames| && Entitled(config, s.frames[n], at[n]) && !s.frames[n].call.Cancel?)
    && (forall n :: n in s.workers && Holding(s, n) ==>
          n < |s.frames| && MayAnswer(config, s.frames[n], at[n], s.workers[n].response.body))
    && (s.loop.Replying? ==>
          s.loop.frame < |s.frames| && MayAnswer(config, s.frames[s.loop.frame], at[s.loop.frame], s.loop.response.body))
    && (forall i :: 0 <= i < |s.tried| ==> Lawfully(config, s, at, s.tried[i]))
  }

  ghost predicate Lawfully(config: Config, s: State, at: seq<nat>, m: Attempt)
    requires |at| == |s.frames|
  {
    m.frame < |s.frames| && MayAnswer(config, s.frames[m.frame], at[m.frame], m.response.body)
  }

  lemma DispatchIsLawful(config: Config, r: Request, at: nat, now: nat, crashed: bool)
    requires Entitled(config, r, at) && !r.call.Cancel?
    ensures MayAnswer(config, r, at, (if crashed then Response(r.id, Error(-32603)) else Dispatch(config, now, r)).body)
  {
    if !crashed {
      assert Outcome(config, r, now, Dispatch(config, now, r).body);
    }
  }

  lemma ReceiveIsLawful(config: Config, s: State, at: seq<nat>, r: Request, now: nat)
    requires Lawful(config, s, at) && s.loop.Reading?
    ensures Lawful(config, Received(config, s, r, now), at + [now])
  {
    hide Received, Judge, Admit, CancelOne, MayAnswer, Entitled;
    assert |s.frames| !in s.workers;
    ReceivedShape(config, s, r, now);
    ReceiptDecides(config, s, r, now);
    var t := Received(config, s, r, now);
    assert t.tried == s.tried && t.frames == s.frames + [r];
    forall i | 0 <= i < |t.tried| ensures Lawfully(config, t, at + [now], t.tried[i]) {
      assert Lawfully(config, s, at, s.tried[i]);
    }
    forall n | n in t.workers && Holding(t, n)
      ensures n < |t.frames| && MayAnswer(config, t.frames[n], (at + [now])[n], t.workers[n].response.body)
    {
      assert n in s.workers && Holding(s, n);
    }
  }

  lemma WorkIsLawful(config: Config, s: State, at: seq<nat>, e: Event)
    requires e.Compute? || e.Check? || e.WriteOut? || e.Leave?
    requires Lawful(config, s, at) && Worked(config, s, e).Some?
    ensures Lawful(config, Worked(config, s, e).value, at)
  {
    hide Dispatch, MayAnswer, Entitled, Fits;
    var n, t := e.frame, Worked(config, s, e).value;
    assert Holding(s, n) ==> MayAnswer(config, s.frames[n], at[n], s.workers[n].response.body);
    if e.Compute? {
      DispatchIsLawful(config, s.frames[n], at[n], e.now, e.crashed);
    }
    forall m | m in t.workers && Holding(t, m)
      ensures m < |t.frames| && MayAnswer(config, t.frames[m], at[m], t.workers[m].response.body)
    {
      assert m != n ==> Holding(s, m);
    }
    forall i | 0 <= i < |t.tried| ensures Lawfully(config, t, at, t.tried[i]) {
      assert i < |s.tried| ==> Lawfully(config, s, at, s.tried[i]);
    }
  }

  lemma ReplyIsLawful(config: Config, s: State, at: seq<nat>)
    requires Lawful(config, s, at) && s.loop.Replying?
    ensures Lawful(config, Replied(config, s), at)
  {
    hide MayAnswer, Entitled, Fits;
    var t := Replied(config, s);
    forall i | 0 <= i < |t.tried| ensures Lawfully(config, t, at, t.tried[i]) {
      assert i < |s.tried| ==> Lawfully(config, s, at, s.tried[i]);
    }
    forall n | n in t.workers && Holding(t, n)
      ensures n < |t.frames| && MayAnswer(config, t.frames[n], at[n], t.workers[n].response.body)
    {
      assert Holding(s, n);
    }
  }

  lemma LoopEndIsLawful(config: Config, s: State, at: seq<nat>, t: State)
    requires Lawful(config, s, at)
    requires t == s.(loop := t.loop, table := t.table, broken := t.broken) && (t.loop == s.loop || t.loop.Ended?)
    ensures Lawful(config, t, at)
  {
    hide MayAnswer, Entitled;
    forall i | 0 <= i < |t.tried| ensures Lawfully(config, t, at, t.tried[i]) {
      assert Lawfully(config, s, at, s.tried[i]);
    }
    forall n | n in t.workers && Holding(t, n)
      ensures n < |t.frames| && MayAnswer(config, t.frames[n], at[n], t.workers[n].response.body)
    {
      assert Holding(s, n);
    }
  }

  lemma StepIsLawful(config: Config, s: State, at: seq<nat>, e: Event)
    requires Lawful(config, s, at) && Next(config, s, e).Some?
    ensures Lawful(config, Next(config, s, e).value, at + (if e.Receive? then [e.now] else []))
  {
    hide Lawful, Received, Replied, Worked;
    assert at + [] == at;
    if e.Receive? {
      ReceiveIsLawful(config, s, at, e.request, e.now);
    } else if e.Reply? {
      ReplyIsLawful(config, s, at);
    } else if e.EndOfStream? || e.ReadError? || e.Break? {
      LoopEndIsLawful(config, s, at, Next(config, s, e).value);
    } else {
      WorkIsLawful(config, s, at, e);
    }
  }

  lemma {:induction false} LawHolds(config: Config, ss: seq<State>, es: seq<Event>, n: nat)
    requires IsRun(config, ss, es) && n <= |es|
    ensures Lawful(config, ss[n], Moments(es[..n]))
    decreases n
  {
    hide Next, Lawful;
    if n == 0 {
      NothingIsLawful(config);
    } else {
      LawHolds(config, ss, es, n - 1);
      assert Next(config, ss[n - 1], es[n - 1]) == Some(ss[n]);
      StepIsLawful(config, ss[n - 1], Moments(es[..n - 1]), es[n - 1]);
      assert es[..n][..n - 1] == es[..n - 1];
    }
  }

  lemma NothingIsLawful(config: Config)
    ensures Lawful(config, INITIAL, Moments([]))
  {
  }

  /**
   In every run: a frame that ever has a worker, gets a result or a confirmed
   cancellation, came while the session was valid, in the right version, with the
   configured vault, grant and scope, and with a deadline within thirty seconds;
   every other frame is answered by the error of the first test it failed, and an
   entitled one by what the services said when a worker took it up, if by them.
   */
  lemma OnlyEntitledAreServed(config: Config, ss: seq<State>, es: seq<Event>, n: nat)
    requires IsRun(config, ss, es) && n <= |es|
    ensures |Moments(es[..n])| == |ss[n].frames|
    ensures forall m :: m in ss[n].workers ==>
              m < |ss[n].frames| && Entitled(config, ss[n].frames[m], Moments(es[..n])[m]) && !ss[n].frames[m].call.Cancel?
    ensures forall i :: 0 <= i < |ss[n].tried| ==>
              var frame, body := ss[n].tried[i].frame, ss[n].tried[i].response.body;
              && frame < |ss[n].frames|
              && MayAnswer(config, ss[n].frames[frame], Moments(es[..n])[frame], body)
              && (body.Result? || body.Cancelled? ==> Entitled(config, ss[n].frames[frame], Moments(es[..n])[frame]))
  {
    hide Next, MayAnswer, Entitled, Refusal;
    LawHolds(config, ss, es, n);
    var s, at := ss[n], Moments(es[..n]);
    forall i | 0 <= i < |s.tried|
      ensures s.tried[i].frame < |s.frames|
      ensures MayAnswer(config, s.frames[s.tried[i].frame], at[s.tried[i].frame], s.tried[i].response.body)
      ensures s.tried[i].response.body.Result? || s.tried[i].response.body.Cancelled? ==>
                Entitled(config, s.frames[s.tried[i].frame], at[s.tried[i].frame])
    {
      assert Lawfully(config, s, at, s.tried[i]);
      ServedIsEntitled(config, s.frames[s.tried[i].frame], at[s.tried[i].frame], s.tried[i].response.body);
    }
  }

  lemma ServedIsEntitled(config: Config, r: Request, at: nat, body: Body)
    requires MayAnswer(config, r, at, body)
    ensures body.Result? || body.Cancelled? ==> Entitled(config, r, at)
  {
    hide Outcome;
  }

  /** The four refusals are one each: exactly the requests that are not entitled have one, and never two. */
  lemma OneRefusalEach(config: Config, r: Request, at: nat)
    ensures Entitled(config, r, at) <==> forall code :: !Refusal(config, r, at, code)
    ensures forall a, b :: Refusal(config, r, at, a) && Refusal(config, r, at, b) ==> a == b
  {
    if !Entitled(config, r, at) {
      assert Refusal(config, r, at, -32005) || Refusal(config, r, at, -32600)
          || Refusal(config, r, at, -32001) || Refusal(config, r, at, -32004);
    }
  }

  // ------------------------------------------------------------ one response each

  /** A response went out for the frame: it was tried, and it fits a frame. */
  predicate WasSent(config: Config, s: State, n: nat) {
    exists i :: 0 <= i < |s.tried| && s.tried[i].frame == n && Fits(config, s.tried[i].response)
  }

  /** Every request frame gets at most one response, with its id, and one that its fields and the moment it came allow. */
  lemma AtMostOneResponse(config: Config, ss: seq<State>, es: seq<Event>, n: nat, i: nat, j: nat)
    requires IsRun(config, ss, es) && n <= |es| && i < |ss[n].tried| && j < |ss[n].tried|
    ensures ss[n].tried[i].frame == ss[n].tried[j].frame ==> i == j
    ensures ss[n].tried[i].frame < |ss[n].frames|
    ensures Fair(config, ss[n].frames[ss[n].tried[i].frame], ss[n].tried[i].response)
    ensures |Moments(es[..n])| == |ss[n].frames|
    ensures var frame := ss[n].tried[i].frame;
            MayAnswer(config, ss[n].frames[frame], Moments(es[..n])[frame], ss[n].tried[i].response.body)
  {
    hide Next, Fair, WireOf, MayAnswer, Entitled;
    MailHolds(config, ss, es, n);
    OnlyEntitledAreServed(config, ss, es, n);
    assert Delivered(config, ss[n], ss[n].tried[i]);
  }

  /** Nothing is being worked on or about to be written. */
  predicate Quiet(s: State) {
    !s.loop.Replying? && forall n :: n in s.workers ==> s.workers[n].Gone?
  }

  /**
   Once all is quiet, a frame that was never cancelled on a connection that
   stayed writable was given one response, and that response went out exactly
   when its JSON is a legal frame: one too large is dropped without a word.
   */
  lemma ExactlyOneResponse(config: Config, ss: seq<State>, es: seq<Event>, n: nat, frame: nat) returns (i: nat)
    requires IsRun(config, ss, es) && n <= |es| && Quiet(ss[n])
    requires !ss[n].broken && frame < |ss[n].frames| && frame !in ss[n].table.cancelled
    ensures i < |ss[n].tried| && ss[n].tried[i].frame == frame
    ensures Fair(config, ss[n].frames[frame], ss[n].tried[i].response)
    ensures |Moments(es[..n])| == |ss[n].frames|
    ensures MayAnswer(config, ss[n].frames[frame], Moments(es[..n])[frame], ss[n].tried[i].response.body)
    ensures WasSent(config, ss[n], frame) <==> Framing.Legal(config.encode(ss[n].tried[i].response))
  {
    hide Next, Fair, WireOf, MayAnswer;
    MailHolds(config, ss, es, n);
    assert Accounted(ss[n], frame);
    i :| 0 <= i < |ss[n].tried| && ss[n].tried[i].frame == frame;
    AtMostOneResponse(config, ss, es, n, i, i);
    forall j | 0 <= j < |ss[n].tried| && ss[n].tried[j].frame == frame ensures j == i {
      AtMostOneResponse(config, ss, es, n, i, j);
    }
  }

  // ------------------------------------------------------------ what the client reads

  /** The responses that fit a frame, in the order in which they were written. */
  function Answers(config: Config, tried: seq<Attempt>): seq<Response> {
    if tried == [] then []
    else
      var last := tried[|tried| - 1].response;
      Answers(config, tried[..|tried| - 1]) + (if Fits(config, last) then [last] else [])
  }

  lemma {:induction false} WireIsPrinted(config: Config, tried: seq<Attempt>)
    ensures WireOf(config, tried) == Framing.Printed(config.encode, Answers(config, tried))
    ensures forall r :: r in Answers(config, tried) ==> Fits(config, r)
    decreases |tried|
  {
    if tried != [] {
      var last := tried[|tried| - 1].response;
      var init := tried[..|tried| - 1];
      WireIsPrinted(config, init);
      if Fits(config, last) {
        hide Fits;
        Framing.PrintedAppend(config.encode, Answers(config, init), last);
      } else {
        assert Answers(config, init) + [] == Answers(config, init);
      }
    }
  }

  /** The client reads off the wire exactly the responses that went out, in order, and nothing is left over. */
  lemma ClientReadsTheAnswers(
    config: Config, parse: Transcript.Bytes -> Option<Response>, ss: seq<State>, es: seq<Event>, n: nat)
    requires IsRun(config, ss, es) && n <= |es|
    requires forall r :: parse(config.encode(r)) == Some(r)
    ensures var answers := Answers(config, ss[n].tried);
            Framing.ReadMany(parse, ss[n].wire, |answers|) == Some((answers, []))
  {
    hide Next, Fair, Framing.ReadMany;
    MailHolds(config, ss, es, n);
    var answers := Answers(config, ss[n].tried);
    WireIsPrinted(config, ss[n].tried);
    assert forall i :: 0 <= i < |answers| ==> answers[i] in answers && Fits(config, answers[i]);
    Framing.FramesRoundTrip(parse, config.encode, answers, []);
    assert ss[n].wire + [] == ss[n].wire;
  }

  /** A session for reading only is never given a proposal. */
  lemma ReadersGetNoProposal(config: Config, ss: seq<State>, es: seq<Event>, n: nat, i: nat)
    requires IsRun(config, ss, es) && n <= |es| && i < |ss[n].tried| && config.role == Transcript.McpReadonly
    requires ss[n].tried[i].frame < |ss[n].frames| && ss[n].frames[ss[n].tried[i].frame].call.ProposeNoteReplacement?
    ensures ss[n].tried[i].response.body.Error?
  {
    hide Next;
    AtMostOneResponse(config, ss, es, n, i, i);
  }

  /** Only a cancellation or the end of the stream cancels; a request the client does not cancel stays uncancelled. */
  lemma WhoCancels(config: Config, s: State, e: Event, n: nat)
    requires Next(config, s, e).Some? && n !in s.table.cancelled && n in Next(config, s, e).value.table.cancelled
    ensures || e.EndOfStream?
            || (e.Reply? && s.loop.last)
            || (e.Receive? && e.request.call.Cancel? && e.request.call.target.Some?
                && e.request.call.target.value in s.table.requests && s.table.requests[e.request.call.target.value] == n
                && Entitled(config, e.request, e.now))
  {
    hide Received, Dispatch, Judge, Entitled, MayAnswer;
    if e.Receive? {
      ReceivedShape(config, s, e.request, e.now);
      CancelsWhenEntitled(config, s, e.request, e.now);
    }
  }

  /**
   The loop ends with the stream, with a broken frame, after the notice that the
   session has expired, and when its own response cannot be written. Only the end
   of the stream and a notice that went out cancel what is in flight, all of it.
   */
  lemma OnlyAnOrderlyEndCancels(config: Config, s: State, e: Event)
    requires Next(config, s, e).Some? && !s.loop.Ended?
    ensures var t := Next(config, s, e).value;
            var sent := e.Reply? && !s.broken && 0 < |config.encode(s.loop.response)| <= 4 * 1024 * 1024;
            && (t.loop.Ended? <==> e.EndOfStream? || e.ReadError? || (e.Reply? && (s.loop.last || !sent)))
            && (e.EndOfStream? || (sent && s.loop.last) ==>
                  && t.table.requests == map[]
                  && forall n :: n in t.table.cancelled <==>
                       n in s.table.cancelled || exists id :: id in s.table.requests && s.table.requests[id] == n)
            && (e.ReadError? || (e.Reply? && !(sent && s.loop.last)) ==> t.table == s.table)
  {
    hide Admit, CancelOne, Judge, ValidateEnvelope, Dispatch;
  }

  // ------------------------------------------------------------ an id used twice

  predicate Accepted(config: Config, now: nat, r: Request) {
    now < config.expiresAt && ValidateEnvelope(config, now, r).None?
  }

  lemma AdmittedStep(config: Config, s: State, r: Request, now: nat)
    requires s.loop.Reading? && Accepted(config, now, r) && !r.call.Cancel? && Judge(s.table, r.id).Admitted?
    ensures Next(config, s, Receive(r, now)) == Some(s.(frames := s.frames + [r],
              table := s.table.(requests := s.table.requests[r.id := |s.frames|]), workers := s.workers[|s.frames| := Running]))
  {
  }

  lemma CancelStep(config: Config, s: State, r: Request, now: nat, id: nat)
    requires s.loop.Reading? && Accepted(config, now, r) && r.call == Cancel(Some(id)) && id in s.table.requests
    ensures Next(config, s, Receive(r, now)) == Some(s.(frames := s.frames + [r],
              loop := Replying(|s.frames|, Response(r.id, Cancelled(true)), false), table := CancelOne(s.table, id)))
  {
  }

  lemma ReplyStep(config: Config, s: State)
    requires s.loop.Replying? && !s.loop.last && !s.broken && Fits(config, s.loop.response)
    ensures Next(config, s, Reply) == Some(Written(config, s, s.loop.frame, s.loop.response).(loop := Reading))
  {
  }

  lemma WrittenElse(config: Config, s: State, n: nat, p: Response)
    ensures var t := Written(config, s, n, p);
            t.frames == s.frames && t.workers == s.workers && t.table == s.table && t.broken == s.broken && t.loop == s.loop
  {
  }

  /** A cancelled worker on its way out: computed, found cancelled, and gone with the entry under its id. */
  lemma CancelledWorkerLeaves(config: Config, s: State, now: nat) returns (ss: seq<State>)
    requires 0 in s.workers && s.workers[0].Running? && s.frames != [] && 0 in s.table.cancelled
    ensures |ss| == 4 && ss[0] == s
    ensures Next(config, ss[0], Compute(0, now, false)) == Some(ss[1])
    ensures Next(config, ss[1], Check(0)) == Some(ss[2])
    ensures Next(config, ss[2], Leave(0)) == Some(ss[3])
    ensures ss[3] == s.(workers := s.workers[0 := Gone], table := Remove(s.table, s.frames[0].id))
  {
    hide Dispatch;
    var s1 := s.(workers := s.workers[0 := Ready(Dispatch(config, now, s.frames[0]))]);
    var s2 := s.(workers := s.workers[0 := Leaving]);
    assert s1.workers[0 := Leaving] == s.workers[0 := Leaving];
    assert s2.workers[0 := Gone] == s.workers[0 := Gone];
    ss := [s, s1, s2, s.(workers := s.workers[0 := Gone], table := Remove(s.table, s.frames[0].id))];
  }

  /**
   The same id sent again after its first request was cancelled: the first
   worker, on leaving, takes the second request's entry with it. The second is
   then still worked on, but can no longer be cancelled and is no longer counted.
   */
  lemma ReusedIdLosesItsEntry(config: Config, now: nat, a: Request, c: Request, b: Request)
    returns (ss: seq<State>, es: seq<Event>)
    requires Accepted(config, now, a) && Accepted(config, now, b) && Accepted(config, now, c)
    requires !a.call.Cancel? && !b.call.Cancel? && a.id == b.id && c.call == Cancel(Some(a.id))
    requires Fits(config, Response(c.id, Cancelled(true)))
    ensures IsRun(config, ss, es)
    ensures var s := ss[|es|];
            && 2 < |s.frames| && s.frames[2] == b && Live(s, 2) && s.workers[2].Running?
            && b.id !in s.table.requests && !Books(s)
  {
    hide Next, CancelOne, Remove, Accepted, Dispatch, Fits, Written;
    var s0 := INITIAL;
    var s1 := INITIAL.(frames := [a], table := Table(map[a.id := 0], {}), workers := map[0 := Running]);
    AdmittedStep(config, s0, a, now);
    assert s0.frames + [a] == [a];
    CancelStep(config, s1, c, now, a.id);
    CancelOfOnly(a.id);
    var s2 := s1.(frames := [a, c], loop := Replying(1, Response(c.id, Cancelled(true)), false), table := Table(map[], {0}));
    assert s1.frames + [c] == [a, c];
    ReplyStep(config, s2);
    var s3 := Written(config, s2, 1, Response(c.id, Cancelled(true))).(loop := Reading);
    WrittenElse(config, s2, 1, Response(c.id, Cancelled(true)));
    AdmittedStep(config, s3, b, now);
    var s4 := s3.(frames := [a, c, b], table := Table(map[b.id := 2], {0}), workers := map[0 := Running, 2 := Running]);
    assert s3.frames + [b] == [a, c, b] && s3.workers[2 := Running] == s4.workers;
    var out := CancelledWorkerLeaves(config, s4, now);
    RemoveOfOnly(b.id);
    ss := [s0, s1, s2, s3] + out;
    es := [Receive(a, now), Receive(c, now), Reply, Receive(b, now), Compute(0, now, false), Check(0), Leave(0)];
    RunOfSeven(config, ss, es);
    assert Live(ss[7], 2) && !Holds(ss[7], 2);
  }

  lemma CancelOfOnly(id: nat)
    ensures CancelOne(Table(map[id := 0], {}), id) == Table(map[], {0})
  {
    assert map[id := 0] - {id} == map[];
  }

  lemma RemoveOfOnly(id: nat)
    ensures Remove(Table(map[id := 2], {0}), id) == Table(map[], {0})
  {
    assert map[id := 2] - {id} == map[];
  }

  lemma RunOfSeven(config: Config, ss: seq<State>, es: seq<Event>)
    requires |es| == 7 && |ss| == 8 && ss[0] == INITIAL
    requires Next(config, ss[0], es[0]) == Some(ss[1]) && Next(config, ss[1], es[1]) == Some(ss[2])
    requires Next(config, ss[2], es[2]) == Some(ss[3]) && Next(config, ss[3], es[3]) == Some(ss[4])
    requires Next(config, ss[4], es[4]) == Some(ss[5]) && Next(config, ss[5], es[5]) == Some(ss[6])
    requires Next(config, ss[6], es[6]) == Some(ss[7])
    ensures IsRun(config, ss, es)
  {
    hide Next;
  }

  // ------------------------------------------------------------ when the books hold whatever the workers do

  /** The frame is given a worker while an earlier one under the same id has not left. */
  predicate Overlaps(s: State, e: Event, t: State) {
    e.Receive? && |s.frames| in t.workers && exists m :: m in s.workers && Unfinished(s, m, e.request.id)
  }

  predicate Unfinished(s: State, m: nat, id: nat) {
    m < |s.frames| && m in s.workers && s.workers[m] != Gone && s.frames[m].id == id
  }

  /** No two workers that have not left share an id. */
  ghost predicate Clean(s: State) {
    && (forall n :: n in s.workers ==> n < |s.frames|)
    && forall m, n :: m in s.workers && n in s.workers && m != n && s.workers[m] != Gone && s.workers[n] != Gone ==>
         m < |s.frames| && n < |s.frames| && s.frames[m].id != s.frames[n].id
  }

  predicate ByWorker(e: Event) {
    e.Compute? || e.Check? || e.WriteOut? || e.Leave?
  }

  /** The workers take these steps, in this order, and nothing else happens. */
  function Play(config: Config, s: State, es: seq<Event>): Option<State>
    decreases |es|
  {
    if es == [] then Some(s)
    else
      var t := Next(config, s, es[0]);
      if t.None? then None else Play(config, t.value, es[1..])
  }

  ghost predicate Schedule(config: Config, s: State, es: seq<Event>) {
    (forall e :: e in es ==> ByWorker(e)) && Play(config, s, es).Some?
  }

  lemma CleanLeavesOwn(s: State, n: nat)
    requires Books(s) && Clean(s) && n in s.workers && s.workers[n] != Gone
    ensures LeavesOwn(s, n)
  {
    if n < |s.frames| && s.frames[n].id in s.table.requests {
      var m := s.table.requests[s.frames[n].id];
      assert Holds(s, m) && Live(s, m);
    }
  }

  lemma StepKeepsClean(config: Config, s: State, e: Event)
    requires Clean(s) && Next(config, s, e).Some? && !Overlaps(s, e, Next(config, s, e).value)
    ensures Clean(Next(config, s, e).value)
  {
    hide Received, Dispatch, CancelEvery, Written, Fits, Judge;
    var t := Next(config, s, e).value;
    if e.Receive? {
      ReceivedShape(config, s, e.request, e.now);
      ReceiveKeepsClean(s, t, e.request);
    } else if e.Reply? {
      RepliedWorkers(config, s);
    } else if e.WriteOut? {
      WrittenElse(config, s, e.frame, s.workers[e.frame].response);
    }
  }

  lemma RepliedWorkers(config: Config, s: State)
    requires s.loop.Replying?
    ensures Replied(config, s).workers == s.workers && Replied(config, s).frames == s.frames
  {
  }

  lemma ReceiveKeepsClean(s: State, t: State, r: Request)
    requires Clean(s) && t.frames == s.frames + [r]
    requires t.workers == s.workers || t.workers == s.workers[|s.frames| := Running]
    requires |s.frames| in t.workers ==> forall m :: m in s.workers ==> !Unfinished(s, m, r.id)
    ensures Clean(t)
  {
    forall m, n | m in t.workers && n in t.workers && m != n && t.workers[m] != Gone && t.workers[n] != Gone
      ensures m < |t.frames| && n < |t.frames| && t.frames[m].id != t.frames[n].id
    {
      assert m != |s.frames| ==> m in s.workers && m < |s.frames|;
      assert n != |s.frames| ==> n in s.workers && n < |s.frames|;
      if m == |s.frames| {
        assert !Unfinished(s, n, r.id);
      } else if n == |s.frames| {
        assert !Unfinished(s, m, r.id);
      }
    }
  }

  /** From a clean state no order of the workers' steps spoils the books. */
  lemma {:induction false} CleanSchedule(config: Config, s: State, es: seq<Event>)
    requires Books(s) && Clean(s) && Schedule(config, s, es)
    ensures Books(Play(config, s, es).value)
    decreases |es|
  {
    hide Books, Clean, Next;
    if es != [] {
      assert ByWorker(es[0]);
      var t := Next(config, s, es[0]).value;
      if es[0].Leave? {
        LeavingIsUnfinished(config, s, es[0].frame);
        CleanLeavesOwn(s, es[0].frame);
      }
      StepKeepsBooks(config, s, es[0]);
      StepKeepsClean(config, s, es[0]);
      CleanSchedule(config, t, es[1..]);
    }
  }

  lemma LeavingIsUnfinished(config: Config, s: State, n: nat)
    requires Next(config, s, Leave(n)).Some?
    ensures n in s.workers && s.workers[n].Leaving?
  {
  }

  lemma {:induction false} NoOverlapIsClean(config: Config, ss: seq<State>, es: seq<Event>, n: nat)
    requires IsRun(config, ss, es) && n <= |es|
    requires forall i :: 0 <= i < n ==> !Overlaps(ss[i], es[i], ss[i + 1])
    ensures Books(ss[n]) && Clean(ss[n])
    decreases n
  {
    hide Books, Clean, Next, Overlaps;
    if n == 0 {
      EmptyBooks();
      EmptyIsClean();
    } else {
      NoOverlapIsClean(config, ss, es, n - 1);
      var s, e := ss[n - 1], es[n - 1];
      assert Next(config, s, e) == Some(ss[n]);
      if e.Leave? {
        LeavingIsUnfinished(config, s, e.frame);
        CleanLeavesOwn(s, e.frame);
      }
      StepKeepsBooks(config, s, e);
      StepKeepsClean(config, s, e);
    }
  }

  lemma EmptyIsClean()
    ensures Clean(INITIAL)
  {
  }

  lemma PlayOne(config: Config, s: State, e: Event, t: State)
    requires Next(config, s, e) == Some(t)
    ensures Play(config, s, [e]) == Some(t)
  {
    hide Next;
    assert [e][1..] == [];
  }

  lemma PlayMore(config: Config, s: State, e: Event, t: State, es: seq<Event>)
    requires Next(config, s, e) == Some(t)
    ensures Play(config, s, [e] + es) == Play(config, t, es)
  {
    hide Next;
    assert ([e] + es)[1..] == es;
  }

  /** A cancelled worker, wherever it stands, can be driven to the point of leaving without touching the table. */
  lemma DriveOut(config: Config, s: State, m: nat) returns (es: seq<Event>, t: State)
    requires m in s.workers && m < |s.frames| && s.workers[m] != Gone && m in s.table.cancelled
    ensures Schedule(config, s, es) && Play(config, s, es) == Some(t)
    ensures t.frames == s.frames && t.table == s.table && m in t.workers && t.workers[m] == Leaving
    ensures Next(config, t, Leave(m)).Some?
  {
    hide Dispatch, Fits, Play;
    match s.workers[m] {
      case Leaving =>
        es, t := [], s;
        PlayNone(config, s);
      case Writing(r) =>
        t := Written(config, s, m, r).(workers := s.workers[m := Leaving]);
        es := [WriteOut(m)];
        PlayOne(config, s, WriteOut(m), t);
      case Ready(r) =>
        t := s.(workers := s.workers[m := Leaving]);
        es := [Check(m)];
        PlayOne(config, s, Check(m), t);
      case Running =>
        var u := s.(workers := s.workers[m := Ready(Response(s.frames[m].id, Error(-32603)))]);
        t := u.(workers := u.workers[m := Leaving]);
        es := [Compute(m, 0, true)] + [Check(m)];
        PlayOne(config, u, Check(m), t);
        PlayMore(config, s, Compute(m, 0, true), u, [Check(m)]);
    }
  }

  lemma PlayNone(config: Config, s: State)
    ensures Play(config, s, []) == Some(s)
  {
  }

  lemma {:induction false} PlayThen(config: Config, s: State, es: seq<Event>, t: State, e: Event)
    requires Play(config, s, es) == Some(t) && Next(config, t, e).Some?
    ensures Play(config, s, es + [e]) == Next(config, t, e)
    decreases |es|
  {
    hide Next;
    if es == [] {
      assert es + [e] == [e];
      PlayOne(config, t, e, Next(config, t, e).value);
    } else {
      assert (es + [e])[1..] == es[1..] + [e];
      PlayThen(config, Next(config, s, es[0]).value, es[1..], t, e);
    }
  }

  lemma AdmittedHolds(config: Config, s: State, r: Request, now: nat)
    requires |s.frames| !in s.workers && |s.frames| in Received(config, s, r, now).workers
    ensures var t := Received(config, s, r, now);
            && t.frames == s.frames + [r] && r.id in t.table.requests && t.table.requests[r.id] == |s.frames|
            && t.workers == s.workers[|s.frames| := Running]
  {
    hide ValidateEnvelope, CancelOne;
  }

  /** A frame admitted over an unfinished worker of its id: some order of the workers' steps spoils the books. */
  lemma OverlapSpoilsTheBooks(config: Config, s: State, r: Request, now: nat) returns (es: seq<Event>)
    requires |s.frames| !in s.workers && Overlaps(s, Receive(r, now), Received(config, s, r, now))
    ensures Schedule(config, Received(config, s, r, now), es)
    ensures !Books(Play(config, Received(config, s, r, now), es).value)
  {
    hide Next, Received, Books, Play;
    var t := Received(config, s, r, now);
    es := [];
    PlayNone(config, t);
    if Books(t) {
      AdmittedHolds(config, s, r, now);
      var m :| m in s.workers && Unfinished(s, m, r.id);
      var u: State;
      OlderIsCancelled(t, m, r.id);
      es, u := DriveOut(config, t, m);
      if Books(u) {
        assert u.frames[m] == s.frames[m];
        LeaveKeepsBooksIff(config, u, m);
        PlayThen(config, t, es, u, Leave(m));
        es := es + [Leave(m)];
      }
    }
  }

  lemma OlderIsCancelled(t: State, m: nat, id: nat)
    requires Books(t) && m < |t.frames| && m in t.workers && t.workers[m] != Gone && t.frames[m].id == id
    requires id in t.table.requests && t.table.requests[id] != m
    ensures m in t.table.cancelled
  {
    assert Live(t, m) <==> Holds(t, m);
  }

  /** The books hold after this order of the workers' steps. */
  ghost predicate SurvivesSchedule(config: Config, s: State, ws: seq<Event>) {
    Schedule(config, s, ws) ==> Books(Play(config, s, ws).value)
  }

  lemma CleanSurvives(config: Config, s: State, ws: seq<Event>)
    requires Books(s) && Clean(s)
    ensures SurvivesSchedule(config, s, ws)
  {
    hide Books, Clean, Play;
    if Schedule(config, s, ws) {
      CleanSchedule(config, s, ws);
    }
  }

  /**
   Over any run: the table equals the live requests after every order in which
   the workers might go on, at every point of the run, exactly when no frame is
   admitted under the id of a worker that has not left yet.
   */
  lemma BooksInEverySchedule(config: Config, ss: seq<State>, es: seq<Event>)
    requires |ss| == |es| + 1 && IsRun(config, ss, es)
    ensures (forall i, ws :: 0 <= i <= |es| ==> SurvivesSchedule(config, ss[i], ws))
            <==> (forall i :: 0 <= i < |es| ==> !Overlaps(ss[i], es[i], ss[i + 1]))
  {
    hide Books, Clean, Next, Overlaps, SurvivesSchedule, IsRun;
    if forall i :: 0 <= i < |es| ==> !Overlaps(ss[i], es[i], ss[i + 1]) {
      forall i, ws | 0 <= i <= |es| ensures SurvivesSchedule(config, ss[i], ws) {
        NoOverlapIsClean(config, ss, es, i);
        CleanSurvives(config, ss[i], ws);
      }
    } else {
      var i :| 0 <= i < |es| && Overlaps(ss[i], es[i], ss[i + 1]);
      OverlapIsReceive(config, ss, es, i);
      var ws := OverlapSpoilsTheBooks(config, ss[i], es[i].request, es[i].now);
      SpoiltIsNoSurvival(config, ss[i + 1], ws);
      assert !SurvivesSchedule(config, ss[i + 1], ws);
    }
  }

  lemma SpoiltIsNoSurvival(config: Config, s: State, ws: seq<Event>)
    requires Schedule(config, s, ws) && !Books(Play(config, s, ws).value)
    ensures !SurvivesSchedule(config, s, ws)
  {
    hide Books, Play;
  }

  lemma OverlapIsReceive(config: Config, ss: seq<State>, es: seq<Event>, i: nat)
    requires IsRun(config, ss, es) && i < |es| && Overlaps(ss[i], es[i], ss[i + 1])
    ensures es[i].Receive? && ss[i + 1] == Received(config, ss[i], es[i].request, es[i].now)
    ensures |ss[i].frames| !in ss[i].workers
  {
    hide Received, Fair, WireOf;
    MailHolds(config, ss, es, i);
    assert Next(config, ss[i], es[i]) == Some(ss[i + 1]);
  }

  // ------------------------------------------------------------ a response too large

  /** An admitted request whose worker runs to its end, alone and uncancelled. */
  lemma WorkerLife(config: Config, s: State, n: nat, now: nat) returns (ss: seq<State>)
    requires n in s.workers && s.workers[n].Running? && n < |s.frames| && n !in s.table.cancelled && !s.broken
    ensures |ss| == 5 && ss[0] == s
    ensures Next(config, ss[0], Compute(n, now, false)) == Some(ss[1])
    ensures Next(config, ss[1], Check(n)) == Some(ss[2])
    ensures Next(config, ss[2], WriteOut(n)) == Some(ss[3])
    ensures Next(config, ss[3], Leave(n)) == Some(ss[4])
    ensures ss[4] == Written(config, s, n, Dispatch(config, now, s.frames[n])).(
                       workers := s.workers[n := Gone], table := Remove(s.table, s.frames[n].id))
  {
    hide Dispatch, Fits, Remove;
    var p := Dispatch(config, now, s.frames[n]);
    var s1 := s.(workers := s.workers[n := Ready(p)]);
    var s2 := s.(workers := s.workers[n := Writing(p)]);
    var s3 := Written(config, s, n, p).(workers := s.workers[n := Leaving]);
    assert s1.workers[n := Writing(p)] == s2.workers;
    assert s2.workers[n := Leaving] == s3.workers;
    assert s3.workers[n := Gone] == s.workers[n := Gone];
    ss := [s, s1, s2, s3, s3.(workers := s.workers[n := Gone], table := Remove(s.table, s.frames[n].id))];
  }

  /**
   A response over the frame limit is dropped without a word while the
   connection goes on: the first of two requests is never answered, never
   cancelled, and the second is answered as ever.
   */
  lemma OversizedResponseIsDropped(config: Config, now: nat, a: Request, b: Request)
    returns (ss: seq<State>, es: seq<Event>)
    requires Accepted(config, now, a) && Accepted(config, now, b) && !a.call.Cancel? && !b.call.Cancel?
    requires !Fits(config, Dispatch(config, now, a)) && Fits(config, Dispatch(config, now, b))
    ensures IsRun(config, ss, es)
    ensures var s := ss[|es|];
            && s.frames == [a, b] && s.loop.Reading? && !s.broken && Quiet(s) && s.table.cancelled == {}
            && !WasSent(config, s, 0) && WasSent(config, s, 1)
            && s.wire == Framing.Frame(config.encode(Dispatch(config, now, b)))
  {
    hide Next, ValidateEnvelope, Dispatch, Fits, Accepted;
    var p, q := Dispatch(config, now, a), Dispatch(config, now, b);
    var first := OneRequest(config, INITIAL, a, now);
    var second := OneRequest(config, first[5], b, now);
    ss := first + second[1..];
    es := [Receive(a, now), Compute(0, now, false), Check(0), WriteOut(0), Leave(0),
           Receive(b, now), Compute(1, now, false), Check(1), WriteOut(1), Leave(1)];
    RunOfTen(config, ss, es);
    var s := ss[10];
    assert s == second[5];
    assert s.tried == [Attempt(0, p), Attempt(1, q)] && s.frames == [a, b];
    assert s.tried[1].frame == 1;
    assert s.wire == Framing.Frame(config.encode(q));
  }

  /** A request admitted to an empty table and worked on alone: six states, the table empty again. */
  lemma OneRequest(config: Config, s: State, r: Request, now: nat) returns (ss: seq<State>)
    requires s.loop.Reading? && s.table == Table(map[], {}) && !s.broken && Accepted(config, now, r) && !r.call.Cancel?
    ensures var n := |s.frames|;
            && |ss| == 6 && ss[0] == s
            && Next(config, ss[0], Receive(r, now)) == Some(ss[1])
            && Next(config, ss[1], Compute(n, now, false)) == Some(ss[2])
            && Next(config, ss[2], Check(n)) == Some(ss[3])
            && Next(config, ss[3], WriteOut(n)) == Some(ss[4])
            && Next(config, ss[4], Leave(n)) == Some(ss[5])
            && ss[5] == Written(config, s, n, Dispatch(config, now, r)).(
                          frames := s.frames + [r], workers := s.workers[n := Gone])
  {
    hide Next, Remove, ValidateEnvelope, Dispatch, Fits;
    var n := |s.frames|;
    AdmittedStep(config, s, r, now);
    var t := s.(frames := s.frames + [r], table := Table(map[r.id := n], {}), workers := s.workers[n := Running]);
    var life := WorkerLife(config, t, n, now);
    RemoveOnly(r.id, n);
    assert t.workers[n := Gone] == s.workers[n := Gone];
    ss := [s] + life;
  }

  lemma RemoveOnly(id: nat, n: nat)
    ensures Remove(Table(map[id := n], {}), id) == Table(map[], {})
  {
    assert map[id := n] - {id} == map[];
  }

  lemma RunOfTen(config: Config, ss: seq<State>, es: seq<Event>)
    requires |es| == 10 && |ss| == 11 && ss[0] == INITIAL
    requires Next(config, ss[0], es[0]) == Some(ss[1]) && Next(config, ss[1], es[1]) == Some(ss[2])
    requires Next(config, ss[2], es[2]) == Some(ss[3]) && Next(config, ss[3], es[3]) == Some(ss[4])
    requires Next(config, ss[4], es[4]) == Some(ss[5]) && Next(config, ss[5], es[5]) == Some(ss[6])
    requires Next(config, ss[6], es[6]) == Some(ss[7]) && Next(config, ss[7], es[7]) == Some(ss[8])
    requires Next(config, ss[8], es[8]) == Some(ss[9]) && Next(config, ss[9], es[9]) == Some(ss[10])
    ensures IsRun(config, ss, es)
  {
    hide Next;
  }

  /** A search hit carries the whole first heading of its note; here one as long as a note may be. */
  function LongTitle(now: nat, r: Request): Result<string, ServiceError> {
    if r.id == 1 then Success(seq(Framing.MAX_FRAME_BYTES, i => 'x')) else Success("x")
  }

  /** The value of a result as it stands, between quotes. */
  function Quoted(p: Response): Transcript.Bytes {
    [34] + seq(if p.body.Result? then |p.body.value| else 1, i => 120) + [34]
  }

  const LONG_TITLES := Config("v", "g", "s", 100, Transcript.Plugin, LongTitle, Quoted)

  lemma OversizedResponseExists() returns (ss: seq<State>, es: seq<Event>)
    ensures IsRun(LONG_TITLES, ss, es)
    ensures Quiet(ss[|es|]) && !ss[|es|].broken && |ss[|es|].frames| == 2 && ss[|es|].table.cancelled == {}
    ensures !WasSent(LONG_TITLES, ss[|es|], 0) && WasSent(LONG_TITLES, ss[|es|], 1)
  {
    var a := Request(1, "2.0", "v", "g", "s", 10, SearchNotes);
    var b := a.(id := 2);
    assert Dispatch(LONG_TITLES, 1, a) == Response(1, Result(seq(Framing.MAX_FRAME_BYTES, i => 'x')));
    assert Dispatch(LONG_TITLES, 1, b) == Response(2, Result("x"));
    ss, es := OversizedResponseIsDropped(LONG_TITLES, 1, a, b);
  }
}
